/** The draft release and its uploads (scripts/functions/github.py, and the
    parts of scripts/functions/parallel_release.py that drive it). */
module DraftUpload {
  import opened Wrappers
  import opened CommitGraph
  import opened ReleaseStores
  import opened RemoteRequests
  import opened Tracking

  /** A page of the list of releases, a hundred to a page. */
  function ReleasePage(releases: seq<Release>, page: nat): seq<Release>
    requires page >= 1
  {
    releases[Cut(releases, page - 1)..Cut(releases, page)]
  }

  function Cut(releases: seq<Release>, pages: nat): nat {
    if 100 * pages < |releases| then 100 * pages else |releases|
  }

  function OwnDraftIds(p: Plan, releases: seq<Release>): seq<nat> {
    if releases == [] then []
    else (if IsOwnDraft(p, releases[0]) then [releases[0].id] else []) + OwnDraftIds(p, releases[1..])
  }

  // --- Lists of releases ---

  lemma {:induction false} OwnDraftIdsAppend(p: Plan, a: seq<Release>, b: seq<Release>)
    ensures OwnDraftIds(p, a + b) == OwnDraftIds(p, a) + OwnDraftIds(p, b)
  {
    if a == [] {
      assert a + b == b;
    } else {
      assert (a + b)[1..] == a[1..] + b;
      OwnDraftIdsAppend(p, a[1..], b);
    }
  }

  /** The ids found are those of the drafts of the tag. */
  lemma {:induction false} OwnDraftIdsHold(p: Plan, releases: seq<Release>, id: nat)
    ensures id in OwnDraftIds(p, releases) <==> exists r :: r in releases && r.id == id && r.draft && r.tag == p.tag
  {
    if releases != [] {
      OwnDraftIdsHold(p, releases[1..], id);
      assert forall r :: r in releases <==> r == releases[0] || r in releases[1..];
    }
  }

  /** A fresh draft is the only one of the tag. */
  lemma FreshDraftIsAlone(p: Plan, s: Stores, id: nat, r: Release)
    requires IsFreshDraft(p, s, id) && r in s.releases && r.draft && r.tag == p.tag
    ensures r.id == id
  {
    OwnDraftIdsHold(p, s.releases, r.id);
  }

  lemma {:induction false} KeptAppends(p: Plan, a: seq<Release>, b: seq<Release>)
    ensures Kept(p, a + b) == Kept(p, a) + Kept(p, b)
  {
    if a == [] {
      assert a + b == b;
    } else {
      assert (a + b)[1..] == a[1..] + b;
      KeptAppends(p, a[1..], b);
    }
  }

  lemma ReplacingDraftIsAnEdit(p: Plan, releases: seq<Release>, i: nat, r: Release)
    requires i < |releases| && IsOwnDraft(p, releases[i]) && IsOwnDraft(p, r)
    ensures Kept(p, releases[i := r]) == Kept(p, releases)
  {
    assert releases == releases[..i] + [releases[i]] + releases[i + 1..];
    assert releases[i := r] == releases[..i] + [r] + releases[i + 1..];
    KeptAppends(p, releases[..i] + [releases[i]], releases[i + 1..]);
    KeptAppends(p, releases[..i], [releases[i]]);
    KeptAppends(p, releases[..i] + [r], releases[i + 1..]);
    KeptAppends(p, releases[..i], [r]);
  }

  lemma AddingDraftIsAnEdit(p: Plan, releases: seq<Release>, r: Release)
    requires IsOwnDraft(p, r)
    ensures Kept(p, releases + [r]) == Kept(p, releases)
    ensures OwnDraftIds(p, releases + [r]) == OwnDraftIds(p, releases) + [r.id]
  {
    KeptAppends(p, releases, [r]);
    OwnDraftIdsAppend(p, releases, [r]);
  }

  lemma {:induction false} DeletingDraftIsAnEdit(p: Plan, releases: seq<Release>, id: nat)
    requires forall r :: r in releases && r.id == id ==> IsOwnDraft(p, r)
    ensures Kept(p, Without(releases, id)) == Kept(p, releases)
  {
    if releases != [] {
      var rest := releases[1..];
      assert forall r :: r in rest ==> r in releases;
      DeletingDraftIsAnEdit(p, rest, id);
      KeptAppends(p, if releases[0].id == id then [] else [releases[0]], Without(rest, id));
    }
  }

  lemma {:induction false} WithoutAbsent(releases: seq<Release>, id: nat)
    requires forall i :: 0 <= i < |releases| ==> releases[i].id != id
    ensures Without(releases, id) == releases
  {
    if releases != [] { WithoutAbsent(releases[1..], id); }
  }

  lemma {:induction false} DeletingFirstDraft(p: Plan, releases: seq<Release>)
    requires forall i, j :: 0 <= i < j < |releases| ==> releases[i].id != releases[j].id
    requires OwnDraftIds(p, releases) != []
    ensures var id := OwnDraftIds(p, releases)[0];
            OwnDraftIds(p, Without(releases, id)) == OwnDraftIds(p, releases)[1..]
            && exists i :: 0 <= i < |releases| && releases[i].id == id && IsOwnDraft(p, releases[i])
  {
    var id, rest := OwnDraftIds(p, releases)[0], releases[1..];
    if IsOwnDraft(p, releases[0]) {
      assert forall i :: 0 <= i < |rest| ==> rest[i] == releases[i + 1];
      WithoutAbsent(rest, id);
      assert Without(releases, id) == rest;
      assert releases[0].id == id;
    } else {
      DeletingFirstDraft(p, rest);
      var i :| 0 <= i < |rest| && rest[i].id == id && IsOwnDraft(p, rest[i]);
      assert releases[i + 1].id == id && IsOwnDraft(p, releases[i + 1]);
      assert releases[0].id != id;
      assert Without(releases, id) == [releases[0]] + Without(rest, id);
      OwnDraftIdsAppend(p, [releases[0]], Without(rest, id));
    }
  }

  lemma PagesAppend(p: Plan, releases: seq<Release>, page: nat)
    requires page >= 1 && 100 * (page - 1) <= |releases|
    ensures var ids := OwnDraftIds(p, releases[..100 * (page - 1)]) + OwnDraftIds(p, ReleasePage(releases, page));
            if |ReleasePage(releases, page)| < 100 then ids == OwnDraftIds(p, releases)
            else 100 * page <= |releases| && ids == OwnDraftIds(p, releases[..100 * page])
  {
    var from, to := Cut(releases, page - 1), Cut(releases, page);
    assert releases[..to] == releases[..from] + releases[from..to];
    assert releases[..|releases|] == releases;
    OwnDraftIdsAppend(p, releases[..from], releases[from..to]);
  }

  lemma DeletingIsLegal(p: Plan, s: Stores, i: nat)
    requires IdsUnique(s) && i < |s.releases| && IsOwnDraft(p, s.releases[i])
    ensures Legal(p, s, DeleteRelease(s.releases[i].id))
    ensures Kept(p, Without(s.releases, s.releases[i].id)) == Kept(p, s.releases)
  {
    var id := s.releases[i].id;
    forall r | r in s.releases && r.id == id ensures IsOwnDraft(p, r) {
      var k :| 0 <= k < |s.releases| && s.releases[k] == r;
    }
    DeletingDraftIsAnEdit(p, s.releases, id);
    var q := DeleteRelease(id);
    forall met | OthersMerge(p, s, met) ensures IsStep(p, met, q) {
      assert EditsDrafts(p, met, met.(releases := Without(met.releases, id)));
    }
  }

  /** `id` is the one draft of the tag, at the plan's commit and still empty. */
  ghost predicate IsFreshDraft(p: Plan, s: Stores, id: nat) {
    && OwnDraftIds(p, s.releases) == [id]
    && s.releases != []
    && s.releases[|s.releases| - 1] == Release(id, p.tag, true, p.releaseCommit, [])
  }

  function Drafted(p: Plan, s: Stores): Stores {
    s.(releases := s.releases + [Release(s.nextId, p.tag, true, p.releaseCommit, [])], nextId := s.nextId + 1)
  }

  lemma CreatingIsLegal(p: Plan, s: Stores)
    ensures Legal(p, s, CreateDraft(p.tag, p.releaseCommit))
  {
    var q := CreateDraft(p.tag, p.releaseCommit);
    forall met | OthersMerge(p, s, met) ensures IsStep(p, met, q) {
      AddingDraftIsAnEdit(p, met.releases, Release(met.nextId, p.tag, true, p.releaseCommit, []));
      assert EditsDrafts(p, met, Drafted(p, met));
    }
  }

  lemma DraftedIsFresh(p: Plan, s: Stores)
    ensures Kept(p, Drafted(p, s).releases) == Kept(p, s.releases)
    ensures OwnDraftIds(p, s.releases) == [] ==> IsFreshDraft(p, Drafted(p, s), s.nextId)
  {
    AddingDraftIsAnEdit(p, s.releases, Release(s.nextId, p.tag, true, p.releaseCommit, []));
  }

  /** What the request that creates the draft leaves. */
  lemma DraftIsSent(p: Plan, s: Stores, met: Stores, t: Stores)
    requires OthersMerge(p, s, met) && OwnDraftIds(p, s.releases) == []
    requires t == met || Apply(CreateDraft(p.tag, p.releaseCommit), met) == Some(t)
    ensures t == s.(dev := met.dev, releases := t.releases, nextId := t.nextId) && Kept(p, t.releases) == Kept(p, s.releases)
    ensures Apply(CreateDraft(p.tag, p.releaseCommit), met) == Some(t) ==> t.nextId > 0 && IsFreshDraft(p, t, t.nextId - 1)
  {
    assert Apply(CreateDraft(p.tag, p.releaseCommit), met) == Some(Drafted(p, met));
    DraftedIsFresh(p, met);
  }

  // --- Drafts ---

  /** The run went on, and besides other people's merges only the drafts of the plan changed. */
  twostate predicate OnlyEditsDrafts(remote: Remote)
    reads remote
  {
    && GoesOn(remote) && Extends(remote.plan, old(remote.stores.dev), remote.stores.dev)
    && remote.stores == old(remote.stores).(dev := remote.stores.dev, releases := remote.stores.releases, nextId := remote.stores.nextId)
    && Kept(remote.plan, remote.stores.releases) == Kept(remote.plan, old(remote.stores.releases))
  }

  /** The id of every draft of the tag, page by page. */
  method FindDraftReleases(remote: Remote) returns (r: Result<seq<nat>>)
    requires Tracked(remote)
    modifies remote
    ensures OnlyWatches(remote)
    ensures r.Ok? ==> r.value == OwnDraftIds(remote.plan, remote.stores.releases)
    ensures remote.faults == old(remote.faults) ==> r.Ok?
  {
    var p, drafts, page := remote.plan, [], 1;
    while true
      invariant OnlyWatches(remote) && page >= 1
      invariant 100 * (page - 1) <= |remote.stores.releases|
      invariant drafts == OwnDraftIds(p, remote.stores.releases[..100 * (page - 1)])
      decreases |remote.stores.releases| - 100 * (page - 1)
    {
      label before:
      var asked := Ask(remote);
      ExtendsTransitive(p, old(remote.stores.dev), old@before(remote.stores.dev), remote.stores.dev);
      var seen :- asked;
      var releases := ReleasePage(seen.releases, page);
      drafts := drafts + OwnDraftIds(p, releases);
      PagesAppend(p, seen.releases, page);
      if |releases| < 100 { return Ok(drafts); }
      page := page + 1;
    }
  }

  /** The request that deletes the draft at `i`. */
  method SendDelete(remote: Remote, ghost i: nat, id: nat) returns (r: Result<bool>)
    requires Tracked(remote) && i < |remote.stores.releases|
    requires IsOwnDraft(remote.plan, remote.stores.releases[i]) && remote.stores.releases[i].id == id
    modifies remote
    ensures OnlyEditsDrafts(remote)
    ensures remote.stores.releases in {old(remote.stores.releases), Without(old(remote.stores.releases), id)}
    ensures r.Ok? ==> r.value && remote.stores.releases == Without(old(remote.stores.releases), id)
    ensures remote.faults == old(remote.faults) ==> r.Ok?
  {
    DeletingIsLegal(remote.plan, remote.stores, i);
    var sent, met := Send(remote, DeleteRelease(id));
    r := if sent.Ok? then Ok(true) else sent.PropagateFailure();
  }

  /** Whether a release of that id is there, as a draft or not. */
  ghost predicate IsThere(releases: seq<Release>, id: nat, draft: bool) {
    exists x :: x in releases && x.id == id && x.draft == draft
  }

  /** Deletes the release `id` only while it is a draft: a live one is left alone. */
  method DeleteDraftRelease(remote: Remote, id: nat) returns (r: Result<bool>)
    requires Tracked(remote)
    requires forall x :: x in remote.stores.releases && x.id == id ==> x.tag == remote.plan.tag
    modifies remote
    ensures OnlyEditsDrafts(remote)
    ensures remote.stores.releases in {old(remote.stores.releases), Without(old(remote.stores.releases), id)}
    ensures r.Ok? && r.value ==> remote.stores.releases == Without(old(remote.stores.releases), id)
    ensures IsThere(old(remote.stores.releases), id, false) ==> remote.stores.releases == old(remote.stores.releases)
    ensures IsThere(old(remote.stores.releases), id, true) && remote.faults == old(remote.faults) ==> r.Ok? && r.value
    ensures IsThere(remote.stores.releases, id, true) ==> IsThere(old(remote.stores.releases), id, true) && remote.faults > old(remote.faults)
    ensures r.Ok? && !r.value ==> IsThere(old(remote.stores.releases), id, false)
  {
    var p := remote.plan;
    var seen :- Ask(remote);
    label asked:
    WithoutHolds(seen.releases, id);
    var i := IndexOf(seen.releases, id);
    if i.None? { return Stopped(Refused); }
    IdNamesOne(seen, i.value);
    if !seen.releases[i.value].draft { return Ok(false); }
    r := SendDelete(remote, i.value, id);
    ExtendsTransitive(p, old(remote.stores.dev), old@asked(remote.stores.dev), remote.stores.dev);
  }

  /** Deletes the first of the drafts of the tag. */
  method DeleteFirstDraft(remote: Remote, id: nat) returns (r: Result<bool>)
    requires Tracked(remote) && OwnDraftIds(remote.plan, remote.stores.releases) != []
    requires id == OwnDraftIds(remote.plan, remote.stores.releases)[0]
    modifies remote
    ensures OnlyEditsDrafts(remote)
    ensures r.Ok? ==> OwnDraftIds(remote.plan, remote.stores.releases) == OwnDraftIds(remote.plan, old(remote.stores.releases))[1..]
    ensures remote.faults == old(remote.faults) ==> r.Ok?
  {
    var p := remote.plan;
    DeletingFirstDraft(p, remote.stores.releases);
    ghost var i :| 0 <= i < |remote.stores.releases| && remote.stores.releases[i].id == id && IsOwnDraft(p, remote.stores.releases[i]);
    IdNamesOne(remote.stores, i);
    assert !IsThere(remote.stores.releases, id, false);
    r := DeleteDraftRelease(remote, id);
  }

  /** Deletes the drafts of the tag that earlier attempts left. */
  method DeleteOldDrafts(remote: Remote) returns (r: Result<()>)
    requires Tracked(remote)
    modifies remote
    ensures OnlyEditsDrafts(remote)
    ensures r.Ok? ==> OwnDraftIds(remote.plan, remote.stores.releases) == []
    ensures remote.faults == old(remote.faults) ==> r.Ok?
  {
    var drafts :- FindDraftReleases(remote);
    for k := 0 to |drafts|
      invariant OnlyEditsDrafts(remote)
      invariant OwnDraftIds(remote.plan, remote.stores.releases) == drafts[k..]
    {
      label before:
      var deleted := DeleteFirstDraft(remote, drafts[k]);
      ExtendsTransitive(remote.plan, old(remote.stores.dev), old@before(remote.stores.dev), remote.stores.dev);
      if !deleted.Ok? { return deleted.PropagateFailure(); }
    }
    return Ok(());
  }

  lemma IdNamesOne(s: Stores, i: nat)
    requires IdsUnique(s) && i < |s.releases|
    ensures s.releases[i] in s.releases
    ensures forall x :: x in s.releases && x.id == s.releases[i].id ==> x == s.releases[i]
  {
    forall x | x in s.releases && x.id == s.releases[i].id ensures x == s.releases[i] {
      var j :| 0 <= j < |s.releases| && s.releases[j] == x;
    }
  }

  /** The request that creates the draft, once no other draft of the tag is left. */
  method SendDraft(remote: Remote) returns (r: Result<nat>)
    requires Tracked(remote) && OwnDraftIds(remote.plan, remote.stores.releases) == []
    modifies remote
    ensures OnlyEditsDrafts(remote)
    ensures r.Ok? ==> IsFreshDraft(remote.plan, remote.stores, r.value)
    ensures remote.faults == old(remote.faults) ==> r.Ok?
  {
    var p := remote.plan;
    CreatingIsLegal(p, remote.stores);
    var sent, met := Send(remote, CreateDraft(p.tag, p.releaseCommit));
    DraftIsSent(p, old(remote.stores), met, remote.stores);
    r := if sent.Ok? then Ok(sent.value.nextId - 1) else sent.PropagateFailure();
  }

  /** Creates the draft of this attempt, which is then the only one of the tag. */
  method CreateDraftRelease(remote: Remote) returns (r: Result<nat>)
    requires Tracked(remote)
    modifies remote
    ensures OnlyEditsDrafts(remote)
    ensures r.Ok? ==> IsFreshDraft(remote.plan, remote.stores, r.value)
    ensures remote.faults == old(remote.faults) ==> r.Ok?
  {
    var _ :- DeleteOldDrafts(remote);
    label cleared:
    r := SendDraft(remote);
    ExtendsTransitive(remote.plan, old(remote.stores.dev), old@cleared(remote.stores.dev), remote.stores.dev);
  }

  // --- Uploads ---

  /** What the list of assets shows: its first page. */
  function Listed(assets: seq<Asset>): seq<Asset> {
    if |assets| <= 30 then assets else assets[..30]
  }

  /** The assets without the first of that name. */
  function Removed(assets: seq<Asset>, name: string): seq<Asset> {
    var k := AssetIndex(assets, name);
    if k.None? then assets else assets[..k.value] + assets[k.value + 1..]
  }

  /** The assets once `name` is deleted where the list shows it. */
  function Cleared(assets: seq<Asset>, name: string): seq<Asset> {
    if AssetIndex(Listed(assets), name).None? then assets else Removed(assets, name)
  }

  lemma ListedAssetIsFirst(assets: seq<Asset>, name: string)
    requires AssetIndex(Listed(assets), name).Some?
    ensures AssetIndex(assets, name) == AssetIndex(Listed(assets), name)
  {
    var n := |Listed(assets)|;
    assert Names(assets) == Names(Listed(assets)) + Names(assets)[n..];
    PositionInFront(Names(Listed(assets)), Names(assets)[n..], name);
  }

  /** The assets of other names, in their order. */
  function Others(assets: seq<Asset>, name: string): seq<Asset> {
    if assets == [] then []
    else (if assets[0].name == name then [] else [assets[0]]) + Others(assets[1..], name)
  }

  lemma {:induction false} OthersAppend(a: seq<Asset>, b: seq<Asset>, name: string)
    ensures Others(a + b, name) == Others(a, name) + Others(b, name)
  {
    if a == [] {
      assert a + b == b;
    } else {
      assert (a + b)[1..] == a[1..] + b;
      OthersAppend(a[1..], b, name);
    }
  }

  lemma {:induction false} AllAreOthers(assets: seq<Asset>, name: string)
    requires forall i :: 0 <= i < |assets| ==> assets[i].name != name
    ensures Others(assets, name) == assets
  {
    if assets != [] { AllAreOthers(assets[1..], name); }
  }

  lemma OthersOfMore(assets: seq<Asset>, asset: Asset)
    ensures Others(assets + [asset], asset.name) == Others(assets, asset.name)
  {
    OthersAppend(assets, [asset], asset.name);
  }

  lemma OthersOfCleared(assets: seq<Asset>, name: string)
    ensures Others(Cleared(assets, name), name) == Others(assets, name)
  {
    var k := AssetIndex(assets, name);
    if k.Some? {
      assert assets == assets[..k.value] + [assets[k.value]] + assets[k.value + 1..];
      OthersAppend(assets[..k.value] + [assets[k.value]], assets[k.value + 1..], name);
      OthersAppend(assets[..k.value], [assets[k.value]], name);
      OthersAppend(assets[..k.value], assets[k.value + 1..], name);
    }
  }

  /** At most one asset of that name, which then is the last of all. */
  ghost predicate IsLastAlone(assets: seq<Asset>, name: string) {
    var others := Others(assets, name);
    assets == others || assets == others + [Asset(name, true)] || assets == others + [Asset(name, false)]
  }

  lemma {:induction false} OthersAreOthers(assets: seq<Asset>, name: string)
    ensures forall i :: 0 <= i < |Others(assets, name)| ==> Others(assets, name)[i].name != name
  {
    if assets != [] { OthersAreOthers(assets[1..], name); }
  }

  lemma RemovingTheLast(assets: seq<Asset>, name: string)
    requires IsLastAlone(assets, name) && AssetIndex(assets, name).Some?
    ensures Removed(assets, name) == Others(assets, name)
  {
    var others, k := Others(assets, name), AssetIndex(assets, name).value;
    OthersAreOthers(assets, name);
    assert forall j :: 0 <= j < |others| ==> assets[j] == others[j];
    assert k == |others| && assets[..k] == others;
  }

  lemma ClearedIsLastAlone(assets: seq<Asset>, name: string)
    requires IsLastAlone(assets, name)
    ensures IsLastAlone(Cleared(assets, name), name)
  {
    if Cleared(assets, name) != assets {
      ListedAssetIsFirst(assets, name);
      RemovingTheLast(assets, name);
      OthersAreOthers(assets, name);
      AllAreOthers(Others(assets, name), name);
    }
  }

  /** The draft at `i` of the list of releases. */
  ghost predicate IsDraftAt(p: Plan, s: Stores, i: nat, id: nat) {
    i < |s.releases| && IsOwnDraft(p, s.releases[i]) && s.releases[i].id == id
  }

  lemma EditingAssetsIsAStep(p: Plan, s: Stores, i: nat, assets: seq<Asset>)
    requires i < |s.releases| && IsOwnDraft(p, s.releases[i])
    ensures Step(p, s, WithAssets(s, i, assets))
  {
    ReplacingDraftIsAnEdit(p, s.releases, i, s.releases[i].(assets := assets));
    assert EditsDrafts(p, s, WithAssets(s, i, assets));
  }

  lemma EditingAssetsIsLegal(p: Plan, s: Stores, i: nat, q: Request)
    requires IdsUnique(s) && (q.UploadAsset? || q.DeleteAsset?) && IsDraftAt(p, s, i, q.id)
    ensures Legal(p, s, q)
    ensures IndexOf(s.releases, q.id) == Some(i)
  {
    IndexIsUnique(s, i);
    forall met | OthersMerge(p, s, met) ensures IsStep(p, met, q) {
      if Apply(q, met).Some? { EditingAssetsIsAStep(p, met, i, Apply(q, met).value.releases[i].assets); }
      if ApplyCut(q, met).Some? { EditingAssetsIsAStep(p, met, i, ApplyCut(q, met).value.releases[i].assets); }
    }
  }

  /** The run went on, and besides other people's merges only the assets of the release at `i` changed. */
  twostate predicate OnlyEditsAssets(remote: Remote, i: nat)
    requires i < |old(remote.stores.releases)|
    reads remote
  {
    && GoesOn(remote) && Extends(remote.plan, old(remote.stores.dev), remote.stores.dev)
    && |remote.stores.releases| == |old(remote.stores.releases)|
    && remote.stores == WithAssets(old(remote.stores), i, remote.stores.releases[i].assets).(dev := remote.stores.dev)
  }

  /** The request that deletes the asset `name`. */
  method SendDeleteAsset(remote: Remote, ghost i: nat, id: nat, name: string) returns (r: Result<()>)
    requires Tracked(remote) && IsDraftAt(remote.plan, remote.stores, i, id)
    requires AssetIndex(remote.stores.releases[i].assets, name).Some?
    modifies remote
    ensures OnlyEditsAssets(remote, i)
    ensures remote.stores.releases[i].assets in {old(remote.stores.releases[i].assets), Removed(old(remote.stores.releases[i].assets), name)}
    ensures r.Ok? ==> remote.stores.releases[i].assets == Removed(old(remote.stores.releases[i].assets), name)
    ensures remote.faults == old(remote.faults) ==> r.Ok?
  {
    EditingAssetsIsLegal(remote.plan, remote.stores, i, DeleteAsset(id, name));
    var sent, met := Send(remote, DeleteAsset(id, name));
    r := if sent.Ok? then Ok(()) else sent.PropagateFailure();
  }

  method DeleteAssetIfExists(remote: Remote, ghost i: nat, id: nat, name: string) returns (r: Result<()>)
    requires Tracked(remote) && IsDraftAt(remote.plan, remote.stores, i, id)
    modifies remote
    ensures OnlyEditsAssets(remote, i)
    ensures remote.stores.releases[i].assets in {old(remote.stores.releases[i].assets), Cleared(old(remote.stores.releases[i].assets), name)}
    ensures r.Ok? ==> remote.stores.releases[i].assets == Cleared(old(remote.stores.releases[i].assets), name)
    ensures remote.faults == old(remote.faults) ==> r.Ok?
  {
    var seen :- Ask(remote);
    label asked:
    IndexIsUnique(seen, i);
    var assets := seen.releases[IndexOf(seen.releases, id).value].assets;
    if AssetIndex(Listed(assets), name).None? { return Ok(()); }
    ListedAssetIsFirst(assets, name);
    r := SendDeleteAsset(remote, i, id, name);
    ExtendsTransitive(remote.plan, old(remote.stores.dev), old@asked(remote.stores.dev), remote.stores.dev);
  }

  /** One upload request: refused where the name is taken, and otherwise it leaves
      the asset, a part of it or nothing. */
  method PostAsset(remote: Remote, ghost i: nat, id: nat, name: string) returns (r: Result<()>)
    requires Tracked(remote) && IsDraftAt(remote.plan, remote.stores, i, id)
    modifies remote
    ensures OnlyEditsAssets(remote, i)
    ensures var before, after := old(remote.stores.releases[i].assets), remote.stores.releases[i].assets;
            || after == before
            || (AssetIndex(before, name).None? && after in {before + [Asset(name, true)], before + [Asset(name, false)]})
    ensures r.Ok? ==> AssetIndex(old(remote.stores.releases[i].assets), name).None?
                      && remote.stores.releases[i].assets == old(remote.stores.releases[i].assets) + [Asset(name, true)]
    ensures remote.faults == old(remote.faults) ==> r.Ok? || (r == Stopped(Refused) && AssetIndex(old(remote.stores.releases[i].assets), name).Some?)
  {
    EditingAssetsIsLegal(remote.plan, remote.stores, i, UploadAsset(id, name));
    var sent, met := Send(remote, UploadAsset(id, name));
    r := if sent.Ok? then Ok(()) else sent.PropagateFailure();
  }

  /** What an upload of `name` can make of the assets: those of other names stay, and
      a name that was there at most once still is. */
  ghost predicate Uploading(before: seq<Asset>, after: seq<Asset>, name: string) {
    Others(after, name) == Others(before, name) && (IsLastAlone(before, name) ==> IsLastAlone(after, name))
  }

  /** Whether an asset of that name is there, once it is deleted where it is `cleared`. */
  predicate IsTaken(assets: seq<Asset>, name: string, cleared: bool) {
    AssetIndex(if cleared then Cleared(assets, name) else assets, name).Some?
  }

  lemma PostedIsUploading(before: seq<Asset>, after: seq<Asset>, name: string)
    requires || after == before
             || (AssetIndex(before, name).None? && after in {before + [Asset(name, true)], before + [Asset(name, false)]})
    ensures Uploading(before, after, name)
    ensures AssetIndex(before, name).None? ==> Others(before, name) == before
  {
    OthersOfMore(before, Asset(name, true));
    OthersOfMore(before, Asset(name, false));
    if AssetIndex(before, name).None? { AllAreOthers(before, name); }
  }

  lemma ClearedIsUploading(before: seq<Asset>, after: seq<Asset>, name: string)
    requires after in {before, Cleared(before, name)}
    ensures Uploading(before, after, name)
  {
    OthersOfCleared(before, name);
    if IsLastAlone(before, name) { ClearedIsLastAlone(before, name); }
  }

  /** One attempt of an upload: all but the first delete first what the one before it
      may have left, and where that fails the upload is not sent. A transient failure
      of the upload asks for another attempt. */
  method AttemptUpload(remote: Remote, ghost i: nat, id: nat, name: string, attempt: nat) returns (r: Result<()>, sent: bool, again: bool)
    requires Tracked(remote) && IsDraftAt(remote.plan, remote.stores, i, id)
    modifies remote
    ensures OnlyEditsAssets(remote, i)
    ensures Uploading(old(remote.stores.releases[i].assets), remote.stores.releases[i].assets, name)
    ensures r.Ok? ==> remote.stores.releases[i].assets == Others(old(remote.stores.releases[i].assets), name) + [Asset(name, true)]
    ensures remote.faults == old(remote.faults) ==>
              || r.Ok?
              || (r == Stopped(Refused) && IsTaken(old(remote.stores.releases[i].assets), name, attempt > 0))
    ensures (attempt == 0 || r.Ok?) ==> sent
    ensures again <==> sent && r == Stopped(Transient)
  {
    r := Ok(());
    if attempt > 0 { r := DeleteAssetIfExists(remote, i, id, name); }
    ClearedIsUploading(old(remote.stores.releases[i].assets), remote.stores.releases[i].assets, name);
    sent, again := r.Ok?, false;
    if r.Ok? {
      label posting:
      r := PostAsset(remote, i, id, name);
      PostedIsUploading(old@posting(remote.stores.releases[i].assets), remote.stores.releases[i].assets, name);
      ExtendsTransitive(remote.plan, old(remote.stores.dev), old@posting(remote.stores.dev), remote.stores.dev);
      again := r == Stopped(Transient);
    }
  }

  /** Uploads an asset, again after each transient failure. Where the name is taken
      the first request is refused, and that ends it. `uploads` is how many upload
      requests were sent: a transient failure ends it only after the last of them,
      or when the cleanup before the next failed as well. */
  method UploadAssetWithRetries(remote: Remote, ghost i: nat, id: nat, name: string, maxAttempts: nat) returns (r: Result<()>, uploads: nat)
    requires Tracked(remote) && IsDraftAt(remote.plan, remote.stores, i, id)
    modifies remote
    ensures OnlyEditsAssets(remote, i)
    ensures Uploading(old(remote.stores.releases[i].assets), remote.stores.releases[i].assets, name)
    ensures r.Ok? ==> remote.stores.releases[i].assets == Others(old(remote.stores.releases[i].assets), name) + [Asset(name, true)]
    ensures maxAttempts > 0 && !IsTaken(old(remote.stores.releases[i].assets), name, false) && remote.faults == old(remote.faults) ==> r.Ok?
    ensures (maxAttempts > 0 ==> uploads > 0) && uploads <= maxAttempts
    ensures remote.faults >= old(remote.faults) + uploads - (if r == Stopped(Transient) then 0 else 1)
    ensures r == Stopped(Transient) ==> uploads == maxAttempts || remote.faults > old(remote.faults) + uploads
  {
    r := Stopped(Refused);
    var attempt, again := 0, true;
    uploads := 0;
    while again && attempt < maxAttempts
      invariant OnlyEditsAssets(remote, i)
      invariant Uploading(old(remote.stores.releases[i].assets), remote.stores.releases[i].assets, name)
      invariant r.Ok? ==> remote.stores.releases[i].assets == Others(old(remote.stores.releases[i].assets), name) + [Asset(name, true)]
      invariant attempt == 0 ==> again && r == Stopped(Refused) && remote.stores == old(remote.stores)
      invariant attempt > 0 ==> uploads > 0
      invariant attempt > 0 && !IsTaken(old(remote.stores.releases[i].assets), name, false) && remote.faults == old(remote.faults) ==> r.Ok?
      invariant uploads <= attempt <= maxAttempts
      invariant again ==> uploads == attempt && !r.Ok? && remote.faults >= old(remote.faults) + uploads
      invariant remote.faults >= old(remote.faults) + uploads - (if r == Stopped(Transient) then 0 else 1)
      invariant !again && r == Stopped(Transient) ==> remote.faults > old(remote.faults) + uploads
    {
      label before:
      var sent;
      r, sent, again := AttemptUpload(remote, i, id, name, attempt);
      ExtendsTransitive(remote.plan, old(remote.stores.dev), old@before(remote.stores.dev), remote.stores.dev);
      attempt := attempt + 1;
      if sent { uploads := uploads + 1; }
    }
  }

  /** Deletes the asset where it is listed, and uploads it. */
  method ReplaceAndUploadAsset(remote: Remote, ghost i: nat, id: nat, name: string) returns (r: Result<()>)
    requires Tracked(remote) && IsDraftAt(remote.plan, remote.stores, i, id)
    modifies remote
    ensures OnlyEditsAssets(remote, i)
    ensures Uploading(old(remote.stores.releases[i].assets), remote.stores.releases[i].assets, name)
    ensures r.Ok? ==> remote.stores.releases[i].assets == Others(old(remote.stores.releases[i].assets), name) + [Asset(name, true)]
    ensures !IsTaken(old(remote.stores.releases[i].assets), name, true) && remote.faults == old(remote.faults) ==> r.Ok?
  {
    r := DeleteAssetIfExists(remote, i, id, name);
    ClearedIsUploading(old(remote.stores.releases[i].assets), remote.stores.releases[i].assets, name);
    if r.Ok? {
      label deleted:
      var uploads;
      r, uploads := UploadAssetWithRetries(remote, i, id, name, 6);
      ExtendsTransitive(remote.plan, old(remote.stores.dev), old@deleted(remote.stores.dev), remote.stores.dev);
    }
  }

  function Uploaded(names: seq<string>): seq<Asset> {
    seq(|names|, k requires 0 <= k < |names| => Asset(names[k], true))
  }

  lemma NextIsNotUploaded(names: seq<string>, k: nat)
    requires k < |names| && forall i, j :: 0 <= i < j < |names| ==> names[i] != names[j]
    ensures Others(Uploaded(names[..k]), names[k]) == Uploaded(names[..k])
    ensures Uploaded(names[..k]) + [Asset(names[k], true)] == Uploaded(names[..k + 1])
    ensures !IsTaken(Uploaded(names[..k]), names[k], true)
  {
    AllAreOthers(Uploaded(names[..k]), names[k]);
  }

  lemma UploadedHoldsArchives(names: seq<string>)
    requires forall i, j :: 0 <= i < j < |names| ==> names[i] != names[j]
    ensures HoldsArchives(Uploaded(names), names)
  {
    forall i | 0 <= i < |names| ensures Asset(names[i], true) in Uploaded(names) {
      assert Uploaded(names)[i] == Asset(names[i], true);
    }
  }

  /** The next archive, after the first `k`. */
  method UploadNext(remote: Remote, ghost i: nat, id: nat, k: nat) returns (r: Result<()>)
    requires Tracked(remote) && WellFormed(remote.plan) && IsDraftAt(remote.plan, remote.stores, i, id)
    requires k < |remote.plan.archives| && remote.stores.releases[i].assets == Uploaded(remote.plan.archives[..k])
    modifies remote
    ensures OnlyEditsAssets(remote, i)
    ensures r.Ok? ==> remote.stores.releases[i].assets == Uploaded(remote.plan.archives[..k + 1])
    ensures remote.faults == old(remote.faults) ==> r.Ok?
  {
    NextIsNotUploaded(remote.plan.archives, k);
    r := ReplaceAndUploadAsset(remote, i, id, remote.plan.archives[k]);
  }

  method UploadArchives(remote: Remote, ghost i: nat, id: nat) returns (r: Result<()>)
    requires Tracked(remote) && WellFormed(remote.plan) && IsDraftAt(remote.plan, remote.stores, i, id)
    requires remote.stores.releases[i].assets == []
    modifies remote
    ensures OnlyEditsAssets(remote, i)
    ensures r.Ok? ==> HoldsArchives(remote.stores.releases[i].assets, remote.plan.archives)
    ensures remote.faults == old(remote.faults) ==> r.Ok?
  {
    var names := remote.plan.archives;
    r := Ok(());
    var k := 0;
    while k < |names| && r.Ok?
      invariant 0 <= k <= |names| && OnlyEditsAssets(remote, i)
      invariant r.Ok? ==> remote.stores.releases[i].assets == Uploaded(names[..k])
      invariant remote.faults == old(remote.faults) ==> r.Ok?
    {
      label before:
      r := UploadNext(remote, i, id, k);
      ExtendsTransitive(remote.plan, old(remote.stores.dev), old@before(remote.stores.dev), remote.stores.dev);
      k := k + 1;
    }
    if r.Ok? {
      assert names[..|names|] == names;
      UploadedHoldsArchives(names);
    }
  }

  // --- Going live ---

  lemma {:induction false} NotPublishedMeansNone(p: Plan, releases: seq<Release>, i: nat)
    requires Live(p, releases) == [] && i < |releases|
    ensures !IsLive(p, releases[i])
  {
    if i > 0 { NotPublishedMeansNone(p, releases[1..], i - 1); }
  }

  /** `s` once the draft at `i` is live under the tag. */
  function WentLive(p: Plan, s: Stores, i: nat): Stores
    requires i < |s.releases|
  {
    s.(releases := s.releases[i := s.releases[i].(draft := false)],
       tags := if p.tag in s.tags then s.tags else s.tags[p.tag := p.releaseCommit])
  }

  ghost predicate ReadyToPublish(p: Plan, s: Stores, i: nat, id: nat) {
    && !Published(p, s) && HubsTagged(p, s) && IsDraftAt(p, s, i, id)
    && s.releases[i].target == p.releaseCommit && HoldsArchives(s.releases[i].assets, p.archives)
  }

  /** The publish request on a draft that is ready: it is not refused, and is a step. */
  lemma PublishTakesEffect(p: Plan, s: Stores, i: nat, id: nat)
    requires IdsUnique(s) && ReadyToPublish(p, s, i, id)
    ensures Apply(PublishRelease(id), s) == Some(WentLive(p, s, i)) && Step(p, s, WentLive(p, s, i))
  {
    IndexIsUnique(s, i);
    forall j | 0 <= j < |s.releases| ensures !IsLive(p, s.releases[j]) {
      NotPublishedMeansNone(p, s.releases, j);
    }
    assert GoesLive(p, s, WentLive(p, s, i));
  }

  lemma PublishingIsLegal(p: Plan, s: Stores, i: nat, id: nat)
    requires IdsUnique(s) && ReadyToPublish(p, s, i, id)
    ensures Legal(p, s, PublishRelease(id))
    ensures forall met :: OthersMerge(p, s, met) ==> Apply(PublishRelease(id), met) == Some(WentLive(p, met, i))
    ensures Live(p, WentLive(p, s, i).releases) != []
  {
    GoingLiveAddsOne(p, s.releases, i);
    var q := PublishRelease(id);
    forall met | OthersMerge(p, s, met) ensures IsStep(p, met, q) && Apply(q, met) == Some(WentLive(p, met, i)) {
      PublishTakesEffect(p, met, i, id);
    }
  }

  /** The publish request, once the draft holds every archive. */
  method PublishDraft(remote: Remote, ghost i: nat, id: nat) returns (r: Result<()>)
    requires Tracked(remote) && ReadyToPublish(remote.plan, remote.stores, i, id)
    modifies remote
    ensures GoesOn(remote) && Extends(remote.plan, old(remote.stores.dev), remote.stores.dev)
    ensures remote.stores in {old(remote.stores).(dev := remote.stores.dev),
                              WentLive(remote.plan, old(remote.stores), i).(dev := remote.stores.dev)}
    ensures r.Ok? ==> Published(remote.plan, remote.stores)
    ensures remote.faults == old(remote.faults) ==> r.Ok?
  {
    PublishingIsLegal(remote.plan, remote.stores, i, id);
    var sent, met := Send(remote, PublishRelease(id));
    r := if sent.Ok? then Ok(()) else sent.PropagateFailure();
  }

  /** What the drafts and the publish request can make of the stores: only drafts
      changed and nothing is live, or the release is live and stays. */
  ghost predicate DraftsOrLive(p: Plan, s: Stores, t: Stores) {
    && t == s.(dev := t.dev, releases := t.releases, nextId := t.nextId, tags := t.tags)
    && (if Published(p, t) then t.tags == (if p.tag in s.tags then s.tags else s.tags[p.tag := p.releaseCommit])
        else t.tags == s.tags)
  }

  lemma EditedAssetsAreDrafts(p: Plan, s: Stores, t: Stores, i: nat)
    requires i < |s.releases| == |t.releases| && IsOwnDraft(p, s.releases[i])
    requires t == WithAssets(s, i, t.releases[i].assets).(dev := t.dev)
    ensures Kept(p, t.releases) == Kept(p, s.releases) && Live(p, t.releases) == Live(p, s.releases)
  {
    ReplacingDraftIsAnEdit(p, s.releases, i, t.releases[i]);
    LiveIsKept(p, s.releases);
    LiveIsKept(p, t.releases);
  }

  lemma WentLiveIsPublished(p: Plan, s: Stores, i: nat)
    requires i < |s.releases| && IsOwnDraft(p, s.releases[i]) && Live(p, s.releases) == []
    ensures Live(p, WentLive(p, s, i).releases) == [s.releases[i].(draft := false)]
  {
    GoingLiveAddsOne(p, s.releases, i);
  }

  /** Uploads the archives and publishes. */
  method UploadAndPublish(remote: Remote, ghost i: nat, id: nat) returns (r: Result<()>)
    requires Tracked(remote) && WellFormed(remote.plan)
    requires !Published(remote.plan, remote.stores) && HubsTagged(remote.plan, remote.stores)
    requires i < |remote.stores.releases|
    requires remote.stores.releases[i] == Release(id, remote.plan.tag, true, remote.plan.releaseCommit, [])
    modifies remote
    ensures GoesOn(remote) && Extends(remote.plan, old(remote.stores.dev), remote.stores.dev)
    ensures DraftsOrLive(remote.plan, old(remote.stores), remote.stores)
    ensures i < |remote.stores.releases| && remote.stores.releases[i].id == id && remote.stores.releases[i].tag == remote.plan.tag
    ensures remote.stores.releases[i].draft <==> !Published(remote.plan, remote.stores)
    ensures r.Ok? ==> Published(remote.plan, remote.stores)
    ensures remote.faults == old(remote.faults) ==> r.Ok?
  {
    r := UploadArchives(remote, i, id);
    EditedAssetsAreDrafts(remote.plan, old(remote.stores), remote.stores, i);
    if r.Ok? {
      label uploaded:
      WentLiveIsPublished(remote.plan, remote.stores, i);
      r := PublishDraft(remote, i, id);
      ExtendsTransitive(remote.plan, old(remote.stores.dev), old@uploaded(remote.stores.dev), remote.stores.dev);
    }
  }

  /** Uploads the archives and publishes; on a failure that leaves the process
      running, the draft is deleted, never a release that went live. */
  method UploadArchivesAndPublish(remote: Remote, ghost i: nat, id: nat) returns (r: Result<()>)
    requires Tracked(remote) && WellFormed(remote.plan)
    requires !Published(remote.plan, remote.stores) && HubsTagged(remote.plan, remote.stores)
    requires i < |remote.stores.releases|
    requires remote.stores.releases[i] == Release(id, remote.plan.tag, true, remote.plan.releaseCommit, [])
    modifies remote
    ensures GoesOn(remote) && Extends(remote.plan, old(remote.stores.dev), remote.stores.dev)
    ensures DraftsOrLive(remote.plan, old(remote.stores), remote.stores)
    ensures r.Ok? ==> Published(remote.plan, remote.stores)
    ensures r.Stopped? && IsThere(remote.stores.releases, id, true) ==> remote.faults >= old(remote.faults) + 2
    ensures remote.faults == old(remote.faults) ==> r.Ok?
  {
    r := UploadAndPublish(remote, i, id);
    if r.Stopped? {
      label failed:
      IdNamesOne(remote.stores, i);
      var deleted := DeleteDraftRelease(remote, id);
      ExtendsTransitive(remote.plan, old(remote.stores.dev), old@failed(remote.stores.dev), remote.stores.dev);
      LiveIsKept(remote.plan, old@failed(remote.stores.releases));
      LiveIsKept(remote.plan, remote.stores.releases);
      if deleted.Dead? { r := Dead; }
    }
  }
}
