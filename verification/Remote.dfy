/** The remote as a publish meets it: every request is one atomic effect on the
    stores, other people's merges land in between, and a request can fail
    before its effect or lose its reply after it, with the process or without. */
module RemoteRequests {
  import opened Wrappers
  import opened CommitGraph
  import opened ReleaseStores

  datatype Stop =
    | Transient            // a dropped connection, a timeout or a 5xx
    | Refused              // any other failed request
    | NotOnDev | UnpushedCommits | DevRewritten
    | SeveralNotesCommits | NotesFileChanged | MainElsewhere
    | PublishedElsewhere | NotesWithoutRelease
    | TagNamesNoCommit | HubTaggedElsewhere
    | NothingToCommit | MergeConflict
    | DevDrift | StaleRun | TagTaken

  /** `Dead` is a process that is gone: nothing after it runs, no cleanup either. */
  datatype Result<+T> = Ok(value: T) | Stopped(why: Stop) | Dead {
    predicate IsFailure() { !Ok? }
    function PropagateFailure<U>(): Result<U> requires IsFailure() {
      if Dead? then Dead else Stopped(why)
    }
    function Extract(): T requires Ok? { value }
  }

  datatype Request =
    | PushDev(commit: Commit) | PushMain(commit: Commit)
    | CreateDraft(tag: string, target: Commit)
    | DeleteRelease(id: nat) | PublishRelease(id: nat)
    | UploadAsset(id: nat, name: string) | DeleteAsset(id: nat, name: string)
    | CreateHubRef(hub: string, ref: GitObject)

  /** What becomes of one request. `Cut` is an upload that leaves a part of the asset. */
  datatype Fate = Delivered | ReplyLost | Dropped | Denied | Cut | KilledBefore | KilledAfter

  /** What happens at one request: a commit `dev` is to be moved to, and the request's fate. */
  datatype Turn = Turn(merge: Option<Commit>, fate: Fate)

  // --- The effects ---

  function Ids(releases: seq<Release>): (ids: seq<nat>)
    ensures |ids| == |releases| && forall i :: 0 <= i < |releases| ==> ids[i] == releases[i].id
  {
    seq(|releases|, i requires 0 <= i < |releases| => releases[i].id)
  }

  function IndexOf(releases: seq<Release>, id: nat): (r: Option<nat>)
    ensures r.Some? ==> r.value < |releases| && releases[r.value].id == id
    ensures r.None? ==> forall i :: 0 <= i < |releases| ==> releases[i].id != id
  {
    Position(Ids(releases), id)
  }

  function Without(releases: seq<Release>, id: nat): seq<Release> {
    if releases == [] then []
    else (if releases[0].id == id then [] else [releases[0]]) + Without(releases[1..], id)
  }

  function Names(assets: seq<Asset>): (names: seq<string>)
    ensures |names| == |assets| && forall i :: 0 <= i < |assets| ==> names[i] == assets[i].name
  {
    seq(|assets|, i requires 0 <= i < |assets| => assets[i].name)
  }

  function AssetIndex(assets: seq<Asset>, name: string): (r: Option<nat>)
    ensures r.Some? ==> r.value < |assets| && assets[r.value].name == name
    ensures r.None? ==> forall i :: 0 <= i < |assets| ==> assets[i].name != name
  {
    Position(Names(assets), name)
  }

  /** A draft goes live under its tag, which is created at the draft's target
      unless it exists: then the release attaches to it where it is. */
  function Publish(s: Stores, i: nat): Option<Stores>
    requires i < |s.releases|
  {
    var r := s.releases[i];
    if r.draft && (exists j :: 0 <= j < |s.releases| && !s.releases[j].draft && s.releases[j].tag == r.tag) then None
    else Some(s.(releases := s.releases[i := r.(draft := false)],
                 tags := if r.tag in s.tags then s.tags else s.tags[r.tag := r.target]))
  }

  function WithAssets(s: Stores, i: nat, assets: seq<Asset>): Stores
    requires i < |s.releases|
  {
    s.(releases := s.releases[i := s.releases[i].(assets := assets)])
  }

  /** The stores once `q` took effect on `s`, or None where the server refuses it:
      a push that is no fast-forward, a release that is not there, an asset name
      or a ref already taken. */
  function Apply(q: Request, s: Stores): Option<Stores> {
    match q
    case PushDev(c) => if IsAncestor(s.dev, c) then Some(s.(dev := c)) else None
    case PushMain(c) => if IsAncestor(s.main, c) then Some(s.(main := c)) else None
    case CreateDraft(tag, target) =>
      Some(s.(releases := s.releases + [Release(s.nextId, tag, true, target, [])], nextId := s.nextId + 1))
    case CreateHubRef(hub, ref) =>
      if hub in s.hubs then None else Some(s.(hubs := s.hubs[hub := ref]))
    case DeleteRelease(id) =>
      if IndexOf(s.releases, id).None? then None else Some(s.(releases := Without(s.releases, id)))
    case PublishRelease(id) =>
      var i := IndexOf(s.releases, id);
      if i.None? then None else Publish(s, i.value)
    case UploadAsset(id, name) => AddAsset(s, id, Asset(name, true))
    case DeleteAsset(id, name) =>
      var i := IndexOf(s.releases, id);
      if i.None? then None else
      var assets := s.releases[i.value].assets;
      var k := AssetIndex(assets, name);
      if k.None? then None else Some(WithAssets(s, i.value, assets[..k.value] + assets[k.value + 1..]))
  }

  function AddAsset(s: Stores, id: nat, asset: Asset): Option<Stores> {
    var i := IndexOf(s.releases, id);
    if i.None? then None else
    var assets := s.releases[i.value].assets;
    if AssetIndex(assets, asset.name).Some? then None
    else Some(WithAssets(s, i.value, assets + [asset]))
  }

  /** What a request cut short leaves: of an upload, a part of the asset. */
  function ApplyCut(q: Request, s: Stores): Option<Stores> {
    if q.UploadAsset? then AddAsset(s, q.id, Asset(q.name, false)) else None
  }

  // --- Facts about the effects ---

  lemma {:induction false} WithoutHolds(releases: seq<Release>, id: nat)
    ensures forall r :: r in Without(releases, id) <==> r in releases && r.id != id
  {
    if releases != [] { WithoutHolds(releases[1..], id); }
  }

  lemma {:induction false} WithoutKeepsDistinct(releases: seq<Release>, id: nat)
    requires forall i, j :: 0 <= i < j < |releases| ==> releases[i].id != releases[j].id
    ensures forall i, j :: 0 <= i < j < |Without(releases, id)| ==> Without(releases, id)[i].id != Without(releases, id)[j].id
  {
    if releases != [] {
      WithoutKeepsDistinct(releases[1..], id);
      WithoutHolds(releases[1..], id);
    }
  }

  lemma WithoutKeepsIdsUnique(s: Stores, id: nat)
    requires IdsUnique(s)
    ensures IdsUnique(s.(releases := Without(s.releases, id)))
  {
    WithoutHolds(s.releases, id);
    WithoutKeepsDistinct(s.releases, id);
    var rest := Without(s.releases, id);
    forall i | 0 <= i < |rest| ensures rest[i].id < s.nextId {
      assert rest[i] in s.releases;
    }
  }

  lemma EditKeepsIdsUnique(s: Stores, t: Stores, i: nat)
    requires IdsUnique(s) && i < |s.releases| == |t.releases| && t.nextId == s.nextId
    requires t.releases[i].id == s.releases[i].id && t.releases == s.releases[i := t.releases[i]]
    ensures IdsUnique(t)
  {
  }

  lemma AddingAssetKeepsIdsUnique(s: Stores, id: nat, asset: Asset)
    requires IdsUnique(s)
    ensures AddAsset(s, id, asset).Some? ==> IdsUnique(AddAsset(s, id, asset).value)
  {
    var t := AddAsset(s, id, asset);
    if t.Some? { EditKeepsIdsUnique(s, t.value, IndexOf(s.releases, id).value); }
  }

  lemma EditingKeepsIdsUnique(q: Request, s: Stores)
    requires IdsUnique(s) && (q.PublishRelease? || q.DeleteAsset?)
    ensures Apply(q, s).Some? ==> IdsUnique(Apply(q, s).value)
  {
    var t := Apply(q, s);
    if t.Some? { EditKeepsIdsUnique(s, t.value, IndexOf(s.releases, q.id).value); }
  }

  lemma ApplyKeepsIdsUnique(q: Request, s: Stores)
    requires IdsUnique(s)
    ensures Apply(q, s).Some? ==> IdsUnique(Apply(q, s).value)
    ensures ApplyCut(q, s).Some? ==> IdsUnique(ApplyCut(q, s).value)
  {
    match q
    case DeleteRelease(id) => WithoutKeepsIdsUnique(s, id);
    case PublishRelease(_) => EditingKeepsIdsUnique(q, s);
    case DeleteAsset(_, _) => EditingKeepsIdsUnique(q, s);
    case UploadAsset(id, name) =>
      AddingAssetKeepsIdsUnique(s, id, Asset(name, true));
      AddingAssetKeepsIdsUnique(s, id, Asset(name, false));
    case _ =>
  }

  lemma IndexIsUnique(s: Stores, i: nat)
    requires IdsUnique(s) && i < |s.releases|
    ensures IndexOf(s.releases, s.releases[i].id) == Some(i)
  {
    var k := IndexOf(s.releases, s.releases[i].id);
  }

  /** A request that had no effect of its own: `after` adds the stores it met. */
  ghost predicate Met(p: Plan, before: seq<Stores>, after: seq<Stores>) {
    && before != [] && |after| > |before| && after[..|before|] == before
    && OthersMerge(p, before[|before| - 1], after[|before|])
  }

  class Remote {
    const plan: Plan
    const net: nat -> Turn
    ghost const start: Stores
    var requests: nat
    var stores: Stores
    /** Every state the stores were in since `start`, this one last. */
    ghost var past: seq<Stores>
    /** How many requests failed: they or their replies were lost, or a push of `dev`
        met a merge that landed with it. */
    ghost var faults: nat

    constructor (plan: Plan, net: nat -> Turn, stores: Stores)
      requires IdsUnique(stores)
      ensures Valid() && this.plan == plan && this.stores == stores && start == stores && past == [stores] && faults == 0
    {
      this.plan, this.net, this.stores, start := plan, net, stores, stores;
      requests, past, faults := 0, [stores], 0;
    }

    ghost predicate Valid()
      reads this
    {
      past != [] && past[0] == start && past[|past| - 1] == stores && IdsUnique(stores)
    }

    /** The next request reaches the remote, or fails to. */
    method Arrive() returns (fate: Fate)
      requires Valid()
      modifies this
      ensures Valid() && faults == old(faults) + (if fate.Delivered? then 0 else 1)
      ensures past == old(past) + [stores] && OthersMerge(plan, old(stores), stores)
    {
      var turn := net(requests);
      requests := requests + 1;
      fate := turn.fate;
      if turn.merge.Some? && Extends(plan, stores.dev, turn.merge.value) {
        stores := stores.(dev := turn.merge.value);
      }
      past := past + [stores];
      if !fate.Delivered? { faults := faults + 1; }
    }

    /** A request that reads: it sees the stores as they are when it arrives. */
    method Ask() returns (r: Result<Stores>)
      requires Valid()
      modifies this
      ensures Valid() && faults >= old(faults) && (faults == old(faults) ==> r.Ok?)
      ensures past == old(past) + [stores] && OthersMerge(plan, old(stores), stores)
      ensures r.Ok? ==> r.value == stores
      ensures r.Stopped? ==> r.why in {Transient, Refused}
    {
      var fate := Arrive();
      r := match fate
           case Delivered => Ok(stores)
           case KilledBefore => Dead
           case KilledAfter => Dead
           case Denied => Stopped(Refused)
           case _ => Stopped(Transient);
    }

    /** A request that writes. It takes effect in full, in part (an upload cut
        short) or not at all, and its sender learns of a full effect or of none. */
    method Send(q: Request) returns (r: Result<Stores>)
      requires Valid()
      modifies this
      ensures Valid() && faults >= old(faults)
      ensures Met(plan, old(past), past)
      ensures faults == old(faults) ==>
                || r.Ok?
                || (r == Stopped(Refused) && Apply(q, past[|old(past)|]).None? && (q.PushDev? ==> past[|old(past)|] == old(stores)))
      ensures var s := past[|old(past)|];
              || past == old(past) + [s]
              || (past == old(past) + [s, stores] && Apply(q, s) == Some(stores))
              || (past == old(past) + [s, stores] && ApplyCut(q, s) == Some(stores) && !r.Ok?)
      ensures r.Ok? ==> past == old(past) + [past[|old(past)|], stores] && r.value == stores
                        && Apply(q, past[|old(past)|]) == Some(stores)
      ensures r.Stopped? ==> r.why in {Transient, Refused}
    {
      var fate := Arrive();
      ApplyKeepsIdsUnique(q, stores);
      var applied := Apply(q, stores);
      var part := ApplyCut(q, stores);
      match fate {
        case KilledBefore => return Dead;
        case Dropped => return Stopped(Transient);
        case Denied => return Stopped(Refused);
        case Cut =>
          if part.Some? {
            stores := part.value;
            past := past + [stores];
          }
          return Stopped(Transient);
        case _ =>
      }
      if applied.None? {
        if q.PushDev? && stores != old(stores) { faults := faults + 1; }
        return if fate.KilledAfter? then Dead else Stopped(Refused);
      }
      stores := applied.value;
      past := past + [stores];
      r := match fate
           case Delivered => Ok(stores)
           case ReplyLost => Stopped(Transient)
           case _ => Dead;
    }
  }
}
