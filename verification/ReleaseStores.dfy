/** The remote stores a release publish writes (scripts/functions/parallel_release.py):
    the `dev` and `main` branches, the git tags, the GitHub releases with their
    assets, and the tag of the release in each hub. `Step` lists every change
    they take while a release is published, and `Safe` is what all of those
    changes keep. */
module ReleaseStores {
  import opened Wrappers
  import opened CommitGraph

  /** What a ref names: a commit, or a tag object that names something in turn. */
  datatype GitObject = CommitObject(sha: string) | TagObject(target: GitObject) | OtherObject(kind: string)

  datatype HubPin = HubPin(hub: string, commit: string)

  /** The release plan with the hub set: what one publish works from. */
  datatype Plan = Plan(tag: string, releaseCommit: Commit, notesFile: Path,
                       hubs: seq<HubPin>, archives: seq<string>)

  datatype Asset = Asset(name: string, complete: bool)

  datatype Release = Release(id: nat, tag: string, draft: bool, target: Commit, assets: seq<Asset>)

  /** `hubs` maps each hub that carries the tag of the release to what it names there. */
  datatype Stores = Stores(dev: Commit, main: Commit, tags: map<string, Commit>,
                           releases: seq<Release>, nextId: nat, hubs: map<string, GitObject>)

  ghost predicate WellFormed(p: Plan) {
    && (forall i, j :: 0 <= i < j < |p.hubs| ==> p.hubs[i].hub != p.hubs[j].hub)
    && (forall i, j :: 0 <= i < j < |p.archives| ==> p.archives[i] != p.archives[j])
  }

  // --- Reading the stores ---

  predicate IsNotesCommit(p: Plan, c: Commit) {
    c.parents == [p.releaseCommit] && ChangedPaths(p.releaseCommit, c) == {p.notesFile}
  }

  /** The commits `dev` took since the plan's commit that change the notes file. */
  function NotesChanges(p: Plan, dev: Commit): set<Commit> {
    CommitsChanging(p.releaseCommit, dev, p.notesFile)
  }

  function NotesOn(p: Plan, dev: Commit): set<Commit> {
    set c | c in NotesChanges(p, dev) && IsNotesCommit(p, c)
  }

  predicate IsLive(p: Plan, r: Release) {
    !r.draft && r.tag == p.tag
  }

  predicate IsOwnDraft(p: Plan, r: Release) {
    r.draft && r.tag == p.tag
  }

  /** The live releases of the plan's tag. */
  function Live(p: Plan, releases: seq<Release>): seq<Release> {
    if releases == [] then []
    else (if IsLive(p, releases[0]) then [releases[0]] else []) + Live(p, releases[1..])
  }

  predicate Published(p: Plan, s: Stores) {
    Live(p, s.releases) != []
  }

  /** The commit a tag names, followed through its tag objects. */
  function Peeled(o: GitObject): Option<string> {
    match o
    case CommitObject(sha) => Some(sha)
    case TagObject(target) => Peeled(target)
    case OtherObject(_) => None
  }

  predicate TaggedAt(s: Stores, pin: HubPin) {
    pin.hub in s.hubs && Peeled(s.hubs[pin.hub]) == Some(pin.commit)
  }

  ghost predicate HubsTagged(p: Plan, s: Stores) {
    forall i :: 0 <= i < |p.hubs| ==> TaggedAt(s, p.hubs[i])
  }

  /** No hub carries the tag at another commit than the one the set records. */
  ghost predicate HubsAgree(p: Plan, s: Stores) {
    forall i :: 0 <= i < |p.hubs| && p.hubs[i].hub in s.hubs ==> TaggedAt(s, p.hubs[i])
  }

  /** Each archive exactly once, complete, and nothing else. */
  ghost predicate HoldsArchives(assets: seq<Asset>, archives: seq<string>) {
    && (forall i :: 0 <= i < |archives| ==> Asset(archives[i], true) in assets)
    && (forall i :: 0 <= i < |assets| ==> assets[i].complete && assets[i].name in archives)
    && (forall i, j :: 0 <= i < j < |assets| ==> assets[i].name != assets[j].name)
  }

  /** The releases that are none of the plan's drafts, in their order. */
  function Kept(p: Plan, releases: seq<Release>): seq<Release> {
    if releases == [] then []
    else (if IsOwnDraft(p, releases[0]) then [] else [releases[0]]) + Kept(p, releases[1..])
  }

  /** Release ids are unique, and new ones are taken above them. */
  ghost predicate IdsUnique(s: Stores) {
    && (forall i :: 0 <= i < |s.releases| ==> s.releases[i].id < s.nextId)
    && (forall i, j :: 0 <= i < j < |s.releases| ==> s.releases[i].id != s.releases[j].id)
  }

  // --- What changes the stores ---

  /** `dev` taking other people's merges: it only moves forward, and nothing new
      on it touches the notes file of the release. */
  predicate Extends(p: Plan, dev: Commit, later: Commit) {
    && IsAncestor(dev, later)
    && Read(later.tree, p.notesFile) == Read(dev.tree, p.notesFile)
    && (forall c :: c in Ancestors(later) && c !in Ancestors(dev) && !IsMerge(c) ==> !Changes(c, p.notesFile))
  }

  ghost predicate OthersMerge(p: Plan, s: Stores, t: Stores) {
    t == s.(dev := t.dev) && Extends(p, s.dev, t.dev)
  }

  ghost predicate TagsHub(p: Plan, s: Stores, t: Stores) {
    && !Published(p, s)
    && exists i :: 0 <= i < |p.hubs| && p.hubs[i].hub !in s.hubs
         && t == s.(hubs := s.hubs[p.hubs[i].hub := TagObject(CommitObject(p.hubs[i].commit))])
  }

  ghost predicate EditsDrafts(p: Plan, s: Stores, t: Stores) {
    && t == s.(releases := t.releases, nextId := t.nextId)
    && Kept(p, t.releases) == Kept(p, s.releases)
  }

  ghost predicate GoesLive(p: Plan, s: Stores, t: Stores) {
    && !Published(p, s) && HubsTagged(p, s)
    && exists i :: 0 <= i < |s.releases| && IsOwnDraft(p, s.releases[i])
         && s.releases[i].target == p.releaseCommit
         && HoldsArchives(s.releases[i].assets, p.archives)
         && t == s.(releases := s.releases[i := s.releases[i].(draft := false)],
                    tags := if p.tag in s.tags then s.tags else s.tags[p.tag := p.releaseCommit])
  }

  /** The notes commit reaching `dev`: `dev` itself, or merged into it. */
  ghost predicate TakesNotes(p: Plan, s: Stores, t: Stores, notes: Commit) {
    && Published(p, s) && IsNotesCommit(p, notes) && NotesChanges(p, s.dev) == {}
    && t == s.(dev := t.dev)
    && IsAncestor(s.dev, t.dev)
    && (t.dev == notes || t.dev.parents == [s.dev, notes])
    && Read(t.dev.tree, p.notesFile) == Read(notes.tree, p.notesFile)
  }

  ghost predicate AlignsMain(p: Plan, s: Stores, t: Stores) {
    && Published(p, s)
    && exists notes :: notes in NotesOn(p, s.dev) && IsAncestor(s.main, notes) && t == s.(main := notes)
  }

  ghost predicate Step(p: Plan, s: Stores, t: Stores) {
    || OthersMerge(p, s, t)
    || TagsHub(p, s, t)
    || EditsDrafts(p, s, t)
    || GoesLive(p, s, t)
    || (exists notes :: TakesNotes(p, s, t, notes))
    || AlignsMain(p, s, t)
  }

  /** A history of the stores, every change of which is one of the steps. */
  ghost predicate Run(p: Plan, past: seq<Stores>) {
    && past != []
    && forall i :: 0 <= i < |past| - 1 ==> Step(p, past[i], past[i + 1])
  }

  lemma RunGoesOn(p: Plan, past: seq<Stores>, s: Stores)
    requires Run(p, past) && Step(p, past[|past| - 1], s)
    ensures Run(p, past + [s])
  {
    var longer := past + [s];
    forall i | 0 <= i < |longer| - 1 ensures Step(p, longer[i], longer[i + 1]) {
      if i < |past| - 1 { assert longer[i] == past[i] && longer[i + 1] == past[i + 1]; }
    }
  }

  // --- What every step keeps ---

  /** `dev` holds the release commit and at most one commit that writes the
      notes, which is a notes commit; `main` is on the way to it or at it. */
  ghost predicate BranchesSafe(p: Plan, s: Stores) {
    && IsAncestor(p.releaseCommit, s.dev)
    && NotesChanges(p, s.dev) == NotesOn(p, s.dev)
    && (forall a, b :: a in NotesOn(p, s.dev) && b in NotesOn(p, s.dev) ==> a == b)
    && (NotesOn(p, s.dev) == {} ==> Read(s.dev.tree, p.notesFile) == Read(p.releaseCommit.tree, p.notesFile))
    && (IsAncestor(s.main, p.releaseCommit) || s.main in NotesOn(p, s.dev))
  }

  /** Of the plan's tag there is at most one live release, with the archives,
      at the plan's commit, and the git tag exists exactly when it does. */
  ghost predicate ReleaseSafe(p: Plan, s: Stores) {
    && (p.tag in s.tags <==> Published(p, s))
    && (p.tag in s.tags ==> s.tags[p.tag] == p.releaseCommit)
    && |Live(p, s.releases)| <= 1
    && forall r :: r in Live(p, s.releases) ==> r.target == p.releaseCommit && HoldsArchives(r.assets, p.archives)
  }

  /** Notes only after the release is live, live only after every hub is tagged. */
  ghost predicate InOrder(p: Plan, s: Stores) {
    && (NotesOn(p, s.dev) != {} ==> Published(p, s))
    && (Published(p, s) ==> HubsTagged(p, s))
  }

  ghost predicate Safe(p: Plan, s: Stores) {
    BranchesSafe(p, s) && ReleaseSafe(p, s) && InOrder(p, s)
  }

  /** What the prepare stage leaves: an unused tag, `main` behind the plan's commit,
      and `dev` at or past it without notes. Drafts of the tag may be left from
      earlier runs, and a hub may carry the tag. */
  ghost predicate Prepared(p: Plan, s: Stores) {
    && WellFormed(p)
    && Extends(p, p.releaseCommit, s.dev)
    && IsAncestor(s.main, p.releaseCommit)
    && p.tag !in s.tags && !Published(p, s)
  }

  /** The release is out: live at the plan's commit, every hub tagged, one notes
      commit on `dev`, and `main` at it. */
  ghost predicate Released(p: Plan, s: Stores) {
    && Published(p, s) && p.tag in s.tags && s.tags[p.tag] == p.releaseCommit
    && HubsTagged(p, s)
    && NotesChanges(p, s.dev) == {s.main} && IsNotesCommit(p, s.main)
  }

  // --- dev moving forward ---

  lemma ExtendsTransitive(p: Plan, a: Commit, b: Commit, c: Commit)
    requires Extends(p, a, b) && Extends(p, b, c)
    ensures Extends(p, a, c)
  {
    AncestorTransitive(a, b, c);
  }

  lemma ExtendingKeepsNotes(p: Plan, dev: Commit, later: Commit)
    requires Extends(p, dev, later)
    ensures NotesChanges(p, later) == NotesChanges(p, dev)
    ensures NotesOn(p, later) == NotesOn(p, dev)
  {
    AncestorsGrow(dev, later);
  }

  lemma NotesCommitChangesNotes(p: Plan, notes: Commit)
    requires IsNotesCommit(p, notes)
    ensures Changes(notes, p.notesFile) && !IsMerge(notes)
    ensures Ancestors(notes) == {notes} + Ancestors(p.releaseCommit)
    ensures notes !in Ancestors(p.releaseCommit)
  {
    AncestorsOfChild(notes, p.releaseCommit);
    assert p.notesFile in ChangedPaths(p.releaseCommit, notes);
  }

  /** However the notes reach `dev`, they are the one change to the notes file on it. */
  lemma TakenNotesAreAlone(p: Plan, s: Stores, t: Stores, notes: Commit)
    requires IsAncestor(p.releaseCommit, s.dev) && TakesNotes(p, s, t, notes)
    ensures NotesChanges(p, t.dev) == {notes} == NotesOn(p, t.dev)
    ensures IsAncestor(notes, t.dev)
  {
    NotesCommitChangesNotes(p, notes);
    AncestorsGrow(p.releaseCommit, s.dev);
    if t.dev != notes {
      AncestorsOfMerge(t.dev, s.dev, notes);
      assert IsMerge(t.dev);
    }
    forall c | c in NotesChanges(p, t.dev) ensures c == notes {
      assert c !in NotesChanges(p, s.dev);
    }
    assert notes in NotesChanges(p, t.dev);
  }

  // --- The releases ---

  lemma {:induction false} LiveAppends(p: Plan, a: seq<Release>, b: seq<Release>)
    ensures Live(p, a + b) == Live(p, a) + Live(p, b)
  {
    if a == [] {
      assert a + b == b;
    } else {
      assert (a + b)[1..] == a[1..] + b;
      LiveAppends(p, a[1..], b);
    }
  }

  /** The live releases are those of the tag that are no drafts. */
  lemma {:induction false} LiveHolds(p: Plan, releases: seq<Release>)
    ensures forall r :: r in Live(p, releases) <==> r in releases && !r.draft && r.tag == p.tag
  {
    if releases != [] { LiveHolds(p, releases[1..]); }
  }

  /** What is kept is everything but the drafts of the tag, as often as it was there. */
  lemma {:induction false} KeptHolds(p: Plan, releases: seq<Release>, r: Release)
    ensures multiset(Kept(p, releases))[r] == if r.draft && r.tag == p.tag then 0 else multiset(releases)[r]
  {
    if releases != [] {
      KeptHolds(p, releases[1..], r);
      assert releases == [releases[0]] + releases[1..];
    }
  }

  lemma {:induction false} LiveIsKept(p: Plan, releases: seq<Release>)
    ensures Live(p, Kept(p, releases)) == Live(p, releases)
  {
    if releases != [] {
      LiveIsKept(p, releases[1..]);
      var rest := Kept(p, releases[1..]);
      if !IsOwnDraft(p, releases[0]) {
        assert Kept(p, releases)[1..] == rest;
      } else {
        assert Kept(p, releases) == rest;
      }
    }
  }

  lemma EditingDraftsKeepsLive(p: Plan, s: Stores, t: Stores)
    requires EditsDrafts(p, s, t)
    ensures Live(p, t.releases) == Live(p, s.releases)
  {
    LiveIsKept(p, s.releases);
    LiveIsKept(p, t.releases);
  }

  lemma GoingLiveAddsOne(p: Plan, releases: seq<Release>, i: nat)
    requires i < |releases| && IsOwnDraft(p, releases[i]) && Live(p, releases) == []
    ensures Live(p, releases[i := releases[i].(draft := false)]) == [releases[i].(draft := false)]
  {
    var live := releases[i].(draft := false);
    assert releases == releases[..i] + [releases[i]] + releases[i + 1..];
    assert releases[i := live] == releases[..i] + [live] + releases[i + 1..];
    LiveAppends(p, releases[..i] + [releases[i]], releases[i + 1..]);
    LiveAppends(p, releases[..i], [releases[i]]);
    LiveAppends(p, releases[..i] + [live], releases[i + 1..]);
    LiveAppends(p, releases[..i], [live]);
  }

  // --- The invariant ---

  lemma PreparedIsSafe(p: Plan, s: Stores)
    requires Prepared(p, s)
    ensures Safe(p, s)
  {
    ExtendingKeepsNotes(p, p.releaseCommit, s.dev);
  }

  lemma MergesKeepSafe(p: Plan, s: Stores, t: Stores)
    requires Safe(p, s) && OthersMerge(p, s, t)
    ensures Safe(p, t)
  {
    ExtendingKeepsNotes(p, s.dev, t.dev);
    AncestorTransitive(p.releaseCommit, s.dev, t.dev);
  }

  lemma GoingLiveKeepsSafe(p: Plan, s: Stores, t: Stores)
    requires Safe(p, s) && GoesLive(p, s, t)
    ensures Safe(p, t)
  {
    var i :| 0 <= i < |s.releases| && IsOwnDraft(p, s.releases[i])
      && s.releases[i].target == p.releaseCommit
      && HoldsArchives(s.releases[i].assets, p.archives)
      && t == s.(releases := s.releases[i := s.releases[i].(draft := false)],
                 tags := if p.tag in s.tags then s.tags else s.tags[p.tag := p.releaseCommit]);
    GoingLiveAddsOne(p, s.releases, i);
  }

  lemma TakingNotesKeepsSafe(p: Plan, s: Stores, t: Stores, notes: Commit)
    requires Safe(p, s) && TakesNotes(p, s, t, notes)
    ensures Safe(p, t)
  {
    TakenNotesAreAlone(p, s, t, notes);
    AncestorTransitive(p.releaseCommit, s.dev, t.dev);
  }

  lemma StepKeepsSafe(p: Plan, s: Stores, t: Stores)
    requires Safe(p, s) && Step(p, s, t)
    ensures Safe(p, t)
  {
    if OthersMerge(p, s, t) {
      MergesKeepSafe(p, s, t);
    } else if EditsDrafts(p, s, t) {
      EditingDraftsKeepsLive(p, s, t);
    } else if GoesLive(p, s, t) {
      GoingLiveKeepsSafe(p, s, t);
    } else if notes :| TakesNotes(p, s, t, notes) {
      TakingNotesKeepsSafe(p, s, t, notes);
    }
  }

  /** Safety over whole runs: every state of every run from a prepared release. */
  lemma {:induction false} RunIsSafe(p: Plan, past: seq<Stores>, i: nat)
    requires Run(p, past) && Safe(p, past[0]) && i < |past|
    ensures Safe(p, past[i])
  {
    if i > 0 {
      RunIsSafe(p, past, i - 1);
      assert Step(p, past[i - 1], past[i - 1 + 1]);
      StepKeepsSafe(p, past[i - 1], past[i]);
    }
  }

  // --- What a run never takes back ---

  /** Both branches move forward, tags stay where they are, and what is live stays live. */
  ghost predicate Forward(p: Plan, s: Stores, t: Stores) {
    && IsAncestor(s.dev, t.dev) && IsAncestor(s.main, t.main)
    && (forall h :: h in s.hubs ==> h in t.hubs && t.hubs[h] == s.hubs[h])
    && (forall g :: g in s.tags ==> g in t.tags && t.tags[g] == s.tags[g])
    && (Published(p, s) ==> Live(p, t.releases) == Live(p, s.releases))
  }

  lemma StepMovesForward(p: Plan, s: Stores, t: Stores)
    requires Step(p, s, t)
    ensures Forward(p, s, t)
  {
    if EditsDrafts(p, s, t) { EditingDraftsKeepsLive(p, s, t); }
  }

  lemma ForwardTransitive(p: Plan, a: Stores, b: Stores, c: Stores)
    requires Forward(p, a, b) && Forward(p, b, c)
    ensures Forward(p, a, c)
  {
    AncestorTransitive(a.dev, b.dev, c.dev);
    AncestorTransitive(a.main, b.main, c.main);
  }

  lemma {:induction false} RunMovesForward(p: Plan, past: seq<Stores>, i: nat, j: nat)
    requires Run(p, past) && i <= j < |past|
    ensures Forward(p, past[i], past[j])
  {
    if i < j {
      RunMovesForward(p, past, i, j - 1);
      assert Step(p, past[j - 1], past[j - 1 + 1]);
      StepMovesForward(p, past[j - 1], past[j]);
      ForwardTransitive(p, past[i], past[j - 1], past[j]);
    }
  }

  /** Once `main` has moved, its history is exactly the release commit's plus the
      notes commit: none of the merges `dev` took since the build is on it. */
  lemma MainIsWhatShipped(p: Plan, past: seq<Stores>, i: nat)
    requires Run(p, past) && Prepared(p, past[0]) && i < |past|
    ensures IsAncestor(p.releaseCommit, past[i].dev)
    ensures past[i].main == past[0].main
         || (IsNotesCommit(p, past[i].main)
             && Ancestors(past[i].main) == Ancestors(p.releaseCommit) + {past[i].main}
             && IsAncestor(past[i].main, past[i].dev))
  {
    PreparedIsSafe(p, past[0]);
    RunIsSafe(p, past, i);
    if past[i].main != past[0].main {
      MainMovesToNotes(p, past, i);
      NotesCommitChangesNotes(p, past[i].main);
    }
  }

  lemma NotesStay(p: Plan, s: Stores, t: Stores, notes: Commit)
    requires notes in NotesOn(p, s.dev) && IsAncestor(s.dev, t.dev)
    ensures notes in NotesOn(p, t.dev)
  {
    AncestorTransitive(notes, s.dev, t.dev);
  }

  /** A step leaves `main`, or moves it to the notes commit on `dev`. */
  lemma StepMovesMainToNotes(p: Plan, s: Stores, t: Stores)
    requires Step(p, s, t)
    ensures t.main == s.main || t.main in NotesOn(p, t.dev)
  {
  }

  lemma {:induction false} MainMovesToNotes(p: Plan, past: seq<Stores>, i: nat)
    requires Run(p, past) && i < |past|
    ensures past[i].main == past[0].main || past[i].main in NotesOn(p, past[i].dev)
  {
    if i > 0 {
      MainMovesToNotes(p, past, i - 1);
      assert Step(p, past[i - 1], past[i - 1 + 1]);
      StepMovesMainToNotes(p, past[i - 1], past[i]);
      if past[i].main == past[i - 1].main && past[i].main != past[0].main {
        StepMovesForward(p, past[i - 1], past[i]);
        NotesStay(p, past[i - 1], past[i], past[i].main);
      }
    }
  }

  /** The order of a publish, in every state of every run from a prepared release. */
  lemma RunKeepsOrder(p: Plan, past: seq<Stores>, i: nat)
    requires Run(p, past) && Prepared(p, past[0]) && i < |past|
    ensures NotesOn(p, past[i].dev) != {} ==>
              Published(p, past[i]) && p.tag in past[i].tags && past[i].tags[p.tag] == p.releaseCommit
    ensures Published(p, past[i]) ==>
              HubsTagged(p, past[i])
              && (exists r :: Live(p, past[i].releases) == [r] && r.target == p.releaseCommit && HoldsArchives(r.assets, p.archives))
    ensures forall a, b :: a in NotesOn(p, past[i].dev) && b in NotesOn(p, past[i].dev) ==> a == b
  {
    PreparedIsSafe(p, past[0]);
    RunIsSafe(p, past, i);
    var live := Live(p, past[i].releases);
    if live != [] { assert live == [live[0]]; }
  }

  // --- A hub that carries the tag elsewhere ---

  lemma StepKeepsHubsAgree(p: Plan, s: Stores, t: Stores)
    requires WellFormed(p) && Step(p, s, t) && HubsAgree(p, s)
    ensures HubsAgree(p, t)
  {
    if TagsHub(p, s, t) {
      var i :| 0 <= i < |p.hubs| && p.hubs[i].hub !in s.hubs
        && t == s.(hubs := s.hubs[p.hubs[i].hub := TagObject(CommitObject(p.hubs[i].commit))]);
      forall j | 0 <= j < |p.hubs| && p.hubs[j].hub in t.hubs ensures TaggedAt(t, p.hubs[j]) {
        if j != i { assert p.hubs[j].hub != p.hubs[i].hub; }
      }
    }
  }

  /** Whether every hub's tag is in its place is decided at the start of a run. */
  lemma {:induction false} RunKeepsHubsAgree(p: Plan, past: seq<Stores>, i: nat)
    requires WellFormed(p) && Run(p, past) && i < |past|
    ensures HubsAgree(p, past[i]) <==> HubsAgree(p, past[0])
  {
    RunMovesForward(p, past, 0, i);
    if i > 0 {
      RunKeepsHubsAgree(p, past, i - 1);
      assert Step(p, past[i - 1], past[i - 1 + 1]);
      if HubsAgree(p, past[i - 1]) { StepKeepsHubsAgree(p, past[i - 1], past[i]); }
    }
  }

  /** With a hub tagged elsewhere at the start nothing ships: in every state of every
      run there is no release, no tag and no notes commit, and `main` has not moved. */
  lemma MisplacedTagShipsNothing(p: Plan, past: seq<Stores>, i: nat)
    requires Run(p, past) && Prepared(p, past[0]) && !HubsAgree(p, past[0]) && i < |past|
    ensures !Published(p, past[i]) && p.tag !in past[i].tags
    ensures NotesOn(p, past[i].dev) == {} && past[i].main == past[0].main
  {
    PreparedIsSafe(p, past[0]);
    RunIsSafe(p, past, i);
    RunKeepsHubsAgree(p, past, i);
    MainMovesToNotes(p, past, i);
  }
}
