/** The publish stage (scripts/functions/parallel_release.py, with the branch
    checks of scripts/functions/release_line.py). */
module Publish {
  import opened Wrappers
  import opened CommitGraph
  import opened ReleaseStores
  import opened RemoteRequests
  import opened Tracking
  import opened HubTagging
  import opened DraftUpload

  /** The clone a publish runs in, with the remote branches as last fetched. */
  class Checkout {
    var onDev: bool
    var head: Commit
    var originDev: Commit
    var originMain: Commit

    constructor (dev: Commit, main: Commit)
      ensures onDev && head == originDev == dev && originMain == main
    {
      onDev, head, originDev, originMain := true, dev, dev, main;
    }
  }

  // --- The branch check ---

  /** Brings `dev`, checked out, up to the remote. */
  method UpdateReleaseBranch(remote: Remote, checkout: Checkout) returns (r: Result<Commit>)
    requires Tracked(remote)
    modifies remote, checkout
    ensures OnlyWatches(remote) && checkout.onDev == old(checkout.onDev)
    ensures r.Ok? ==> checkout.onDev && r.value == checkout.head == checkout.originDev == remote.stores.dev
                      && checkout.originMain == remote.stores.main && IsAncestor(old(checkout.head), remote.stores.dev)
    ensures checkout.head == old(checkout.head) || r.Ok?
    ensures (!checkout.onDev ==> r == Stopped(NotOnDev)) && (r == Stopped(UnpushedCommits) ==> !IsAncestor(checkout.head, remote.stores.dev))
    ensures remote.faults == old(remote.faults) && checkout.onDev && IsAncestor(old(checkout.head), remote.stores.dev) ==> r.Ok?
  {
    if !checkout.onDev { return Stopped(NotOnDev); }
    var asked := Ask(remote);
    var seen :- asked;
    checkout.originDev, checkout.originMain := seen.dev, seen.main;
    if checkout.head == seen.dev { return Ok(seen.dev); }
    if !IsAncestor(checkout.head, seen.dev) { return Stopped(UnpushedCommits); }
    checkout.head := seen.dev;
    return Ok(seen.dev);
  }

  /** The notes commit of the plan on `dev`, or None while `dev` changed nothing
      of the notes file. */
  method FindReleaseNotesCommit(p: Plan, dev: Commit) returns (r: Result<Option<Commit>>)
    ensures r.Ok? <==> |NotesOn(p, dev)| == 1 || NotesChanges(p, dev) == {}
    ensures r.Ok? ==> NotesOn(p, dev) == match r.value case Some(n) => {n} case None => {}
    ensures r.Ok? && r.value.None? ==> NotesChanges(p, dev) == {}
    ensures r == Stopped(SeveralNotesCommits) <==> |NotesOn(p, dev)| > 1
    ensures r == Stopped(NotesFileChanged) <==> NotesOn(p, dev) == {} && NotesChanges(p, dev) != {}
  {
    var notes := NotesOn(p, dev);
    if |notes| > 1 { return Stopped(SeveralNotesCommits); }
    if notes != {} {
      var n :| n in notes;
      assert |notes - {n}| == 0;
      return Ok(Some(n));
    }
    if NotesChanges(p, dev) != {} { return Stopped(NotesFileChanged); }
    return Ok(None);
  }

  /** Whether a publish whose clone is at `head` may go on from these branches. */
  ghost predicate BranchesPass(p: Plan, head: Commit, dev: Commit, main: Commit) {
    && IsAncestor(head, dev) && IsAncestor(p.releaseCommit, dev)
    && (|NotesOn(p, dev)| == 1 || NotesChanges(p, dev) == {})
    && (if NotesOn(p, dev) == {} then IsAncestor(main, p.releaseCommit)
        else exists n :: n in NotesOn(p, dev) && IsAncestor(main, n))
  }

  /** What a publish checks before it writes anything; the notes commit it found. */
  method CheckBranches(remote: Remote, checkout: Checkout) returns (r: Result<Option<Commit>>)
    requires Tracked(remote)
    modifies remote, checkout
    ensures OnlyWatches(remote) && checkout.onDev == old(checkout.onDev)
    ensures r.Ok? ==> BranchesPass(remote.plan, old(checkout.head), remote.stores.dev, remote.stores.main)
    ensures r.Ok? ==> checkout.onDev && checkout.head == remote.stores.dev && checkout.originMain == remote.stores.main
    ensures r.Ok? ==> NotesOn(remote.plan, remote.stores.dev) == match r.value case Some(n) => {n} case None => {}
    ensures r.Ok? && r.value.None? ==> NotesChanges(remote.plan, remote.stores.dev) == {}
    ensures BranchesPass(remote.plan, old(checkout.head), remote.stores.dev, remote.stores.main) ==>
              remote.faults == old(remote.faults) && checkout.onDev ==> r.Ok?
  {
    var p := remote.plan;
    var dev :- UpdateReleaseBranch(remote, checkout);
    if !IsAncestor(p.releaseCommit, dev) { return Stopped(DevRewritten); }
    var notes :- FindReleaseNotesCommit(p, dev);
    var target := if notes.Some? then notes.value else p.releaseCommit;
    if !IsAncestor(checkout.originMain, target) { return Stopped(MainElsewhere); }
    return Ok(notes);
  }

  // --- The release ---

  /** Whether a live release of the tag is there; its tag must be at the plan's commit. */
  method FindPublishedRelease(remote: Remote) returns (r: Result<bool>)
    requires Tracked(remote)
    modifies remote
    ensures OnlyWatches(remote)
    ensures r.Ok? ==> r.value == Published(remote.plan, remote.stores)
    ensures r == Ok(true) ==> remote.plan.tag in remote.stores.tags && remote.stores.tags[remote.plan.tag] == remote.plan.releaseCommit
    ensures r == Stopped(PublishedElsewhere) ==>
              Published(remote.plan, remote.stores) && remote.plan.tag in remote.stores.tags
              && remote.stores.tags[remote.plan.tag] != remote.plan.releaseCommit
    ensures remote.faults == old(remote.faults) && ReleaseSafe(remote.plan, old(remote.stores)) ==> r.Ok?
  {
    var p := remote.plan;
    var seen :- Ask(remote);
    if !Published(p, seen) { return Ok(false); }
    label found:
    var asked := Ask(remote);
    ExtendsTransitive(p, old(remote.stores.dev), old@found(remote.stores.dev), remote.stores.dev);
    var fetched :- asked;
    if p.tag !in fetched.tags { return Stopped(Refused); }
    if fetched.tags[p.tag] != p.releaseCommit { return Stopped(PublishedElsewhere); }
    return Ok(true);
  }

  /** What the steps up to the live release can make of the stores. */
  ghost predicate UpToLive(p: Plan, s: Stores, t: Stores) {
    && Extends(p, s.dev, t.dev) && t.main == s.main
    && (Published(p, s) ==> OthersMerge(p, s, t))
    && (!Published(p, t) ==> t.tags == s.tags)
    && (Published(p, t) && !Published(p, s) ==>
          t.tags == if p.tag in s.tags then s.tags else s.tags[p.tag := p.releaseCommit])
  }

  /** Tags the hubs, checks the install, and publishes from a new draft. */
  method PublishNewRelease(remote: Remote) returns (r: Result<()>)
    requires Tracked(remote) && WellFormed(remote.plan) && !Published(remote.plan, remote.stores)
    modifies remote
    ensures GoesOn(remote) && UpToLive(remote.plan, old(remote.stores), remote.stores)
    ensures !HubsAgree(remote.plan, old(remote.stores)) ==> !r.Ok? && OthersMerge(remote.plan, old(remote.stores), remote.stores)
    ensures r.Ok? ==> Published(remote.plan, remote.stores)
    ensures remote.faults == old(remote.faults) && HubsAgree(remote.plan, old(remote.stores)) ==> r.Ok?
  {
    var p := remote.plan;
    r := TagReleaseHubs(remote);
    if r.Ok? {
      label tagged:
      var draft := PrepareDraft(remote);
      ExtendsTransitive(p, old(remote.stores.dev), old@tagged(remote.stores.dev), remote.stores.dev);
      KeptSameLive(p, old@tagged(remote.stores.releases), remote.stores.releases);
      if draft.Ok? {
        label drafted:
        r := UploadArchivesAndPublish(remote, |remote.stores.releases| - 1, draft.value);
        ExtendsTransitive(p, old(remote.stores.dev), old@drafted(remote.stores.dev), remote.stores.dev);
      } else {
        r := draft.PropagateFailure();
      }
    }
  }

  lemma KeptSameLive(p: Plan, a: seq<Release>, b: seq<Release>)
    requires Kept(p, a) == Kept(p, b)
    ensures Live(p, a) == Live(p, b)
  {
    LiveIsKept(p, a);
    LiveIsKept(p, b);
  }

  /** The install check, then the draft. */
  method PrepareDraft(remote: Remote) returns (r: Result<nat>)
    requires Tracked(remote)
    modifies remote
    ensures OnlyEditsDrafts(remote)
    ensures r.Ok? ==> IsFreshDraft(remote.plan, remote.stores, r.value)
    ensures remote.faults == old(remote.faults) ==> r.Ok?
  {
    var installed := Ask(remote);
    if !installed.Ok? { return installed.PropagateFailure(); }
    label checked:
    r := CreateDraftRelease(remote);
    ExtendsTransitive(remote.plan, old(remote.stores.dev), old@checked(remote.stores.dev), remote.stores.dev);
  }

  /** The live release of the plan, published unless an earlier attempt did. */
  method PublishReleaseUnlessPublished(remote: Remote, notesCommitted: bool) returns (r: Result<()>)
    requires Tracked(remote) && WellFormed(remote.plan)
    modifies remote
    ensures GoesOn(remote) && UpToLive(remote.plan, old(remote.stores), remote.stores)
    ensures !HubsAgree(remote.plan, old(remote.stores)) ==> OthersMerge(remote.plan, old(remote.stores), remote.stores)
    ensures notesCommitted && !Published(remote.plan, old(remote.stores)) ==>
              !r.Ok? && OthersMerge(remote.plan, old(remote.stores), remote.stores)
    ensures r.Ok? ==> Published(remote.plan, remote.stores)
    ensures r.Ok? ==> Published(remote.plan, old(remote.stores)) || HubsAgree(remote.plan, old(remote.stores))
    ensures Safe(remote.plan, old(remote.stores))
            && (Published(remote.plan, old(remote.stores)) || (!notesCommitted && HubsAgree(remote.plan, old(remote.stores)))) ==>
              remote.faults == old(remote.faults) ==> r.Ok?
  {
    var p := remote.plan;
    var found :- FindPublishedRelease(remote);
    if found { return Ok(()); }
    if notesCommitted { return Stopped(NotesWithoutRelease); }
    label looked:
    var staged := Ask(remote);
    ExtendsTransitive(p, old(remote.stores.dev), old@looked(remote.stores.dev), remote.stores.dev);
    if !staged.Ok? { return staged.PropagateFailure(); }
    label ready:
    r := PublishNewRelease(remote);
    ExtendsTransitive(p, old(remote.stores.dev), old@ready(remote.stores.dev), remote.stores.dev);
  }

  // --- The notes ---

  /** A three-way merge, file by file: what one side changed is taken, and a file
      both sides changed differently is a conflict. */
  function MergeFile(base: Option<string>, ours: Option<string>, theirs: Option<string>): Option<Option<string>> {
    if theirs == base || theirs == ours then Some(ours)
    else if ours == base then Some(theirs)
    else None
  }

  predicate Conflicts(base: Commit, ours: Commit, theirs: Commit) {
    exists f :: f in base.tree.Keys + ours.tree.Keys + theirs.tree.Keys
                && MergeFile(Read(base.tree, f), Read(ours.tree, f), Read(theirs.tree, f)).None?
  }

  function MergeTrees(base: Commit, ours: Commit, theirs: Commit): map<Path, string>
    requires !Conflicts(base, ours, theirs)
  {
    map f | f in ours.tree.Keys + theirs.tree.Keys
            && MergeFile(Read(base.tree, f), Read(ours.tree, f), Read(theirs.tree, f)).value.Some?
      :: MergeFile(Read(base.tree, f), Read(ours.tree, f), Read(theirs.tree, f)).value.value
  }

  /** Every commit both `dev` and the notes commit hold is one the release commit
      holds, and both hold it: it is the one base of their merge. */
  lemma MergeBaseIsReleaseCommit(p: Plan, dev: Commit, notes: Commit)
    requires IsAncestor(p.releaseCommit, dev) && IsNotesCommit(p, notes) && !IsAncestor(notes, dev)
    ensures Ancestors(dev) * Ancestors(notes) == Ancestors(p.releaseCommit)
  {
    NotesCommitChangesNotes(p, notes);
    AncestorsGrow(p.releaseCommit, dev);
  }

  /** Merging the notes changes the notes file and nothing else of `dev`, and
      conflicts only when `dev` has a notes file of its own. */
  lemma MergeOfNotes(p: Plan, dev: Commit, notes: Commit)
    requires IsNotesCommit(p, notes)
    ensures Read(dev.tree, p.notesFile) == Read(p.releaseCommit.tree, p.notesFile) ==> !Conflicts(p.releaseCommit, dev, notes)
    ensures !Conflicts(p.releaseCommit, dev, notes) ==>
              forall f :: Read(MergeTrees(p.releaseCommit, dev, notes), f)
                          == if f == p.notesFile then Read(notes.tree, f) else Read(dev.tree, f)
  {
    var base := p.releaseCommit;
    forall f | f != p.notesFile ensures Read(notes.tree, f) == Read(base.tree, f) {
      assert f !in ChangedPaths(base, notes);
    }
    assert p.notesFile in ChangedPaths(base, notes);
    if !Conflicts(base, dev, notes) {
      forall f ensures Read(MergeTrees(base, dev, notes), f) == if f == p.notesFile then Read(notes.tree, f) else Read(dev.tree, f) {
        assert f in base.tree.Keys + dev.tree.Keys + notes.tree.Keys ==>
          MergeFile(Read(base.tree, f), Read(dev.tree, f), Read(notes.tree, f)).Some?;
      }
    }
  }

  /** `merged` is `notes` brought into `dev`: a fast-forward, or a merge commit. */
  ghost predicate IsMerged(p: Plan, dev: Commit, notes: Commit, merged: Commit) {
    && (merged == notes || merged.parents == [dev, notes])
    && IsAncestor(dev, merged)
    && Read(merged.tree, p.notesFile) == Read(notes.tree, p.notesFile)
  }

  /** Merges the notes commit into the branch checked out. */
  method MergeIntoCurrentBranch(p: Plan, checkout: Checkout, notes: Commit, stamp: nat) returns (r: Result<()>)
    requires IsNotesCommit(p, notes) && IsAncestor(p.releaseCommit, checkout.head) && NotesChanges(p, checkout.head) == {}
    modifies checkout
    ensures checkout.onDev == old(checkout.onDev) && checkout.originMain == old(checkout.originMain)
    ensures r.Ok? ==> IsMerged(p, old(checkout.head), notes, checkout.head)
    ensures r.Ok? ==> forall f :: f != p.notesFile && !IsAncestor(old(checkout.head), p.releaseCommit) ==>
              Read(checkout.head.tree, f) == Read(old(checkout.head).tree, f)
    ensures r.Ok? <== Read(old(checkout.head).tree, p.notesFile) == Read(p.releaseCommit.tree, p.notesFile)
  {
    var dev := checkout.head;
    NotesCommitChangesNotes(p, notes);
    if IsAncestor(dev, notes) {
      checkout.head := notes;
      assert IsAncestor(dev, p.releaseCommit);
      return Ok(());
    }
    assert notes !in NotesChanges(p, dev);
    MergeOfNotes(p, dev, notes);
    if Conflicts(p.releaseCommit, dev, notes) { return Stopped(MergeConflict); }
    checkout.head := Commit([dev, notes], MergeTrees(p.releaseCommit, dev, notes), stamp);
    AncestorsOfMerge(checkout.head, dev, notes);
    return Ok(());
  }

  lemma NotesAreNewTo(p: Plan, dev: Commit, later: Commit, notes: Commit)
    requires Extends(p, dev, later) && IsNotesCommit(p, notes) && NotesChanges(p, dev) == {}
    ensures !IsAncestor(notes, later)
  {
    NotesCommitChangesNotes(p, notes);
    ExtendingKeepsNotes(p, dev, later);
    assert notes !in NotesChanges(p, later);
  }

  /** A push of the merged notes that goes through is a fast-forward of the very
      `dev` they were merged into. */
  lemma PushMeansUnmoved(p: Plan, dev: Commit, later: Commit, notes: Commit, merged: Commit)
    requires IsAncestor(p.releaseCommit, dev) && IsNotesCommit(p, notes) && NotesChanges(p, dev) == {}
    requires IsMerged(p, dev, notes, merged) && Extends(p, dev, later) && IsAncestor(later, merged)
    ensures later == dev
  {
    NotesAreNewTo(p, dev, later, notes);
    NotesCommitChangesNotes(p, notes);
    AncestorsGrow(p.releaseCommit, dev);
    if merged == notes {
      AncestorAntisymmetric(dev, later);
    } else {
      AncestorsOfMerge(merged, dev, notes);
      AncestorAntisymmetric(dev, later);
    }
  }

  lemma PushingNotesIsLegal(p: Plan, s: Stores, notes: Commit, merged: Commit)
    requires IsAncestor(p.releaseCommit, s.dev) && IsNotesCommit(p, notes) && NotesChanges(p, s.dev) == {}
    requires Published(p, s) && IsMerged(p, s.dev, notes, merged)
    ensures Legal(p, s, PushDev(merged))
  {
    var q := PushDev(merged);
    forall met | OthersMerge(p, s, met) ensures IsStep(p, met, q) {
      if IsAncestor(met.dev, merged) {
        PushMeansUnmoved(p, s.dev, met.dev, notes, merged);
        assert TakesNotes(p, met, met.(dev := merged), notes);
      }
    }
  }

  /** Merges the notes commit into `dev` as it is now, and pushes it. */
  method MergeReleaseNotesIntoDev(remote: Remote, checkout: Checkout, notes: Commit, stamp: nat) returns (r: Result<()>)
    requires Tracked(remote) && Published(remote.plan, remote.stores) && IsNotesCommit(remote.plan, notes)
    requires IsAncestor(remote.plan.releaseCommit, remote.stores.dev) && NotesChanges(remote.plan, remote.stores.dev) == {}
    modifies remote, checkout
    ensures GoesOn(remote) && remote.stores == old(remote.stores).(dev := remote.stores.dev)
    ensures IsAncestor(old(remote.stores.dev), remote.stores.dev)
    ensures NotesOn(remote.plan, remote.stores.dev) <= {notes}
    ensures r.Ok? ==> notes in NotesOn(remote.plan, remote.stores.dev) && checkout.originMain == remote.stores.main
    ensures old(checkout.onDev) && IsAncestor(old(checkout.head), old(remote.stores.dev))
            && Read(old(remote.stores.dev).tree, remote.plan.notesFile) == Read(remote.plan.releaseCommit.tree, remote.plan.notesFile) ==>
              remote.faults == old(remote.faults) ==> r.Ok?
  {
    var p := remote.plan;
    var updated := UpdateReleaseBranch(remote, checkout);
    if IsAncestor(old(checkout.head), old(remote.stores.dev)) {
      AncestorTransitive(old(checkout.head), old(remote.stores.dev), remote.stores.dev);
    }
    ExtendingKeepsNotes(p, old(remote.stores.dev), remote.stores.dev);
    if !updated.Ok? { return updated.PropagateFailure(); }
    label fetched:
    AncestorTransitive(p.releaseCommit, old(remote.stores.dev), remote.stores.dev);
    r := MergeIntoCurrentBranch(p, checkout, notes, stamp);
    if r.Ok? {
      PushingNotesIsLegal(p, remote.stores, notes, checkout.head);
      r := PushMergedNotes(remote, notes, checkout.head);
      AncestorTransitive(old(remote.stores.dev), old@fetched(remote.stores.dev), remote.stores.dev);
    }
  }

  method PushMergedNotes(remote: Remote, ghost notes: Commit, merged: Commit) returns (r: Result<()>)
    requires Tracked(remote) && Published(remote.plan, remote.stores) && IsNotesCommit(remote.plan, notes)
    requires IsAncestor(remote.plan.releaseCommit, remote.stores.dev) && NotesChanges(remote.plan, remote.stores.dev) == {}
    requires IsMerged(remote.plan, remote.stores.dev, notes, merged)
    modifies remote
    ensures GoesOn(remote) && remote.stores == old(remote.stores).(dev := remote.stores.dev)
    ensures IsAncestor(old(remote.stores.dev), remote.stores.dev)
    ensures NotesOn(remote.plan, remote.stores.dev) <= {notes}
    ensures r.Ok? ==> notes in NotesOn(remote.plan, remote.stores.dev)
    ensures remote.faults == old(remote.faults) ==> r.Ok?
  {
    PushingNotesIsLegal(remote.plan, remote.stores, notes, merged);
    var sent, met := Send(remote, PushDev(merged));
    AncestorTransitive(remote.plan.releaseCommit, old(remote.stores.dev), met.dev);
    ExtendingKeepsNotes(remote.plan, old(remote.stores.dev), met.dev);
    if remote.stores != met || sent.Ok? {
      PushMeansUnmoved(remote.plan, old(remote.stores.dev), met.dev, notes, merged);
      TakenNotesAreAlone(remote.plan, met, remote.stores, notes);
    }
    r := if sent.Ok? then Ok(()) else sent.PropagateFailure();
  }

  /** Commits the notes on top of the plan's commit, in a worktree of its own. */
  method CommitReleaseNotes(p: Plan, text: string, stamp: nat) returns (r: Result<Commit>)
    ensures r.Ok? ==> IsNotesCommit(p, r.value) && Read(r.value.tree, p.notesFile) == Some(text)
    ensures r.Ok? <==> Read(p.releaseCommit.tree, p.notesFile) != Some(text)
  {
    if Read(p.releaseCommit.tree, p.notesFile) == Some(text) { return Stopped(NothingToCommit); }
    var notes := Commit([p.releaseCommit], p.releaseCommit.tree[p.notesFile := text], stamp);
    assert ChangedPaths(p.releaseCommit, notes) == {p.notesFile} by {
      assert p.notesFile in ChangedPaths(p.releaseCommit, notes);
      forall f | f in ChangedPaths(p.releaseCommit, notes) ensures f == p.notesFile {
        assert f != p.notesFile ==> Read(notes.tree, f) == Read(p.releaseCommit.tree, f);
      }
    }
    return Ok(notes);
  }

  /** Whether the notes are not the very text the plan's commit holds: then there is
      something to commit. */
  predicate NotesDiffer(p: Plan, text: string) {
    Read(p.releaseCommit.tree, p.notesFile) != Some(text)
  }

  /** Of the notes commits on `after`, those that are not on `before` hold the text. */
  ghost predicate OnlyAdds(p: Plan, before: Commit, after: Commit, text: string) {
    forall n :: n in NotesOn(p, after) ==> n in NotesOn(p, before) || Read(n.tree, p.notesFile) == Some(text)
  }

  /** Writes the notes of the live release and brings them to `dev`. */
  method AddReleaseNotes(remote: Remote, checkout: Checkout, text: string, stamp: nat) returns (r: Result<Commit>)
    requires Tracked(remote) && Published(remote.plan, remote.stores)
    requires IsAncestor(remote.plan.releaseCommit, remote.stores.dev) && NotesChanges(remote.plan, remote.stores.dev) == {}
    modifies remote, checkout
    ensures GoesOn(remote) && remote.stores == old(remote.stores).(dev := remote.stores.dev)
    ensures r.Ok? ==> r.value in NotesOn(remote.plan, remote.stores.dev) && checkout.originMain == remote.stores.main
    ensures OnlyAdds(remote.plan, old(remote.stores.dev), remote.stores.dev, text)
    ensures !NotesDiffer(remote.plan, text) ==> !r.Ok? && OthersMerge(remote.plan, old(remote.stores), remote.stores)
    ensures old(checkout.onDev) && IsAncestor(old(checkout.head), old(remote.stores.dev)) && NotesDiffer(remote.plan, text)
            && Read(old(remote.stores.dev).tree, remote.plan.notesFile) == Read(remote.plan.releaseCommit.tree, remote.plan.notesFile) ==>
              remote.faults == old(remote.faults) ==> r.Ok?
  {
    var p := remote.plan;
    var details := Ask(remote);
    ExtendingKeepsNotes(p, old(remote.stores.dev), remote.stores.dev);
    if !details.Ok? { return details.PropagateFailure(); }
    label read:
    AncestorTransitive(p.releaseCommit, old(remote.stores.dev), remote.stores.dev);
    if IsAncestor(checkout.head, old(remote.stores.dev)) {
      AncestorTransitive(checkout.head, old(remote.stores.dev), remote.stores.dev);
    }
    r := CommitReleaseNotes(p, text, stamp);
    if r.Ok? {
      var merged := MergeReleaseNotesIntoDev(remote, checkout, r.value, stamp);
      if !merged.Ok? { r := merged.PropagateFailure(); }
    }
  }

  lemma AligningIsLegal(p: Plan, s: Stores, notes: Commit)
    requires Published(p, s) && notes in NotesOn(p, s.dev)
    ensures Legal(p, s, PushMain(notes))
  {
    var q := PushMain(notes);
    forall met | OthersMerge(p, s, met) ensures IsStep(p, met, q) {
      ExtendingKeepsNotes(p, s.dev, met.dev);
      if IsAncestor(met.main, notes) { assert AlignsMain(p, met, met.(main := notes)); }
    }
  }

  /** Fast-forwards `main` to the notes commit, unless it was fetched there. */
  method AlignMain(remote: Remote, originMain: Commit, notes: Commit) returns (r: Result<()>)
    requires Tracked(remote) && Published(remote.plan, remote.stores) && notes in NotesOn(remote.plan, remote.stores.dev)
    requires originMain == remote.stores.main
    modifies remote
    ensures GoesOn(remote) && Extends(remote.plan, old(remote.stores.dev), remote.stores.dev)
    ensures remote.stores == old(remote.stores).(dev := remote.stores.dev, main := remote.stores.main)
    ensures remote.stores.main == old(remote.stores.main) || remote.stores.main == notes
    ensures r.Ok? ==> remote.stores.main == notes
    ensures IsAncestor(originMain, notes) && remote.faults == old(remote.faults) ==> r.Ok?
  {
    if originMain == notes { return Ok(()); }
    AligningIsLegal(remote.plan, remote.stores, notes);
    var sent, met := Send(remote, PushMain(notes));
    r := if sent.Ok? then Ok(()) else sent.PropagateFailure();
  }

  /** Commits the notes and merges them into `dev`, then aligns `main`, each
      unless an earlier attempt did. */
  method CommitNotesAndAlignMain(remote: Remote, checkout: Checkout, notesCommit: Option<Commit>, text: string, stamp: nat) returns (r: Result<()>)
    requires Tracked(remote) && Published(remote.plan, remote.stores)
    requires IsAncestor(remote.plan.releaseCommit, remote.stores.dev)
    requires NotesOn(remote.plan, remote.stores.dev) == match notesCommit case Some(n) => {n} case None => {}
    requires notesCommit.None? ==> NotesChanges(remote.plan, remote.stores.dev) == {}
    requires checkout.originMain == remote.stores.main
    modifies remote, checkout
    ensures GoesOn(remote)
    ensures remote.stores == old(remote.stores).(dev := remote.stores.dev, main := remote.stores.main)
    ensures notesCommit.Some? ==>
              Extends(remote.plan, old(remote.stores.dev), remote.stores.dev) && remote.stores.main in {old(remote.stores.main), notesCommit.value}
    ensures r.Ok? ==> remote.stores.main in NotesOn(remote.plan, remote.stores.dev)
    ensures OnlyAdds(remote.plan, old(remote.stores.dev), remote.stores.dev, text)
    ensures notesCommit.None? && !NotesDiffer(remote.plan, text) ==>
              !r.Ok? && OthersMerge(remote.plan, old(remote.stores), remote.stores)
    ensures old(checkout.onDev) && IsAncestor(old(checkout.head), old(remote.stores.dev))
            && IsAncestor(old(remote.stores.main), if notesCommit.Some? then notesCommit.value else remote.plan.releaseCommit)
            && (notesCommit.Some? || NotesDiffer(remote.plan, text))
            && (notesCommit.Some? || Read(old(remote.stores.dev).tree, remote.plan.notesFile) == Read(remote.plan.releaseCommit.tree, remote.plan.notesFile)) ==>
              remote.faults == old(remote.faults) ==> r.Ok?
  {
    var p := remote.plan;
    var notes := Ok(p.releaseCommit);
    if notesCommit.Some? {
      notes := Ok(notesCommit.value);
    } else {
      notes := AddReleaseNotes(remote, checkout, text, stamp);
    }
    if notes.Ok? {
      label aligning:
      r := AlignMain(remote, checkout.originMain, notes.value);
      ExtendingKeepsNotes(p, old@aligning(remote.stores.dev), remote.stores.dev);
    } else {
      r := notes.PropagateFailure();
    }
  }

  // --- The publish ---

  lemma SafeBranchesPass(p: Plan, head: Commit, s: Stores)
    requires BranchesSafe(p, s) && IsAncestor(head, s.dev)
    ensures BranchesPass(p, head, s.dev, s.main)
  {
    var notes := NotesOn(p, s.dev);
    if notes != {} {
      var n :| n in notes;
      assert notes == {n};
      NotesCommitChangesNotes(p, n);
    } else {
      assert IsAncestor(s.main, p.releaseCommit);
    }
  }

  lemma TrackedIsSafe(remote: Remote)
    requires Tracked(remote) && Prepared(remote.plan, remote.start)
    ensures Safe(remote.plan, remote.stores)
  {
    PreparedIsSafe(remote.plan, remote.start);
    RunIsSafe(remote.plan, remote.past, |remote.past| - 1);
  }

  /** Whether an attempt from these stores can end with the release out: the release
      is live or no hub carries the tag elsewhere, and the notes are on `dev` or are
      not what the plan's commit holds already. */
  ghost predicate CanFinish(p: Plan, s: Stores, text: string) {
    (Published(p, s) || HubsAgree(p, s)) && (NotesOn(p, s.dev) != {} || NotesDiffer(p, text))
  }

  /** The steps after the branch check. */
  method PublishChecked(remote: Remote, checkout: Checkout, notesCommit: Option<Commit>, text: string, stamp: nat) returns (r: Result<()>)
    requires Tracked(remote) && WellFormed(remote.plan)
    requires checkout.onDev && checkout.head == remote.stores.dev && checkout.originMain == remote.stores.main
    requires IsAncestor(remote.plan.releaseCommit, remote.stores.dev)
    requires NotesOn(remote.plan, remote.stores.dev) == match notesCommit case Some(n) => {n} case None => {}
    requires notesCommit.None? ==> NotesChanges(remote.plan, remote.stores.dev) == {}
    modifies remote, checkout
    ensures GoesOn(remote)
    ensures r.Ok? ==> Published(remote.plan, remote.stores) && remote.stores.main in NotesOn(remote.plan, remote.stores.dev)
    ensures Published(remote.plan, old(remote.stores)) && notesCommit == Some(old(remote.stores.main)) ==>
              OthersMerge(remote.plan, old(remote.stores), remote.stores)
    ensures r.Ok? ==> CanFinish(remote.plan, old(remote.stores), text)
    ensures OnlyAdds(remote.plan, old(remote.stores.dev), remote.stores.dev, text)
    ensures notesCommit.None? && !NotesDiffer(remote.plan, text) ==> NotesOn(remote.plan, remote.stores.dev) == {}
    ensures Safe(remote.plan, old(remote.stores)) && CanFinish(remote.plan, old(remote.stores), text) ==>
              remote.faults == old(remote.faults) ==> r.Ok?
  {
    var p := remote.plan;
    assert notesCommit.Some? ==> notesCommit.value in NotesOn(p, remote.stores.dev);
    r := PublishReleaseUnlessPublished(remote, notesCommit.Some?);
    ExtendingKeepsNotes(p, old(remote.stores.dev), remote.stores.dev);
    if r.Ok? {
      label live:
      AncestorTransitive(p.releaseCommit, old(remote.stores.dev), remote.stores.dev);
      r := CommitNotesAndAlignMain(remote, checkout, notesCommit, text, stamp);
      if notesCommit.Some? {
        ExtendsTransitive(p, old(remote.stores.dev), old@live(remote.stores.dev), remote.stores.dev);
      } else if !NotesDiffer(p, text) {
        ExtendingKeepsNotes(p, old@live(remote.stores.dev), remote.stores.dev);
      }
    }
  }

  /** One attempt of the publish stage. Whatever fails in it, the stores only took
      steps of a publish. From a prepared release an attempt without a failed
      request ends with the release out exactly when it can finish, and one after
      that changes nothing. */
  method RunPublish(remote: Remote, checkout: Checkout, text: string, stamp: nat) returns (r: Result<()>, ghost checked: bool)
    requires Tracked(remote) && WellFormed(remote.plan)
    modifies remote, checkout
    ensures GoesOn(remote)
    ensures !checked ==> !r.Ok? && OthersMerge(remote.plan, old(remote.stores), remote.stores)
    ensures checked ==>
              exists dev :: Extends(remote.plan, old(remote.stores.dev), dev) && BranchesPass(remote.plan, old(checkout.head), dev, old(remote.stores.main))
    ensures r.Ok? ==> CanFinish(remote.plan, old(remote.stores), text)
    ensures OnlyAdds(remote.plan, old(remote.stores.dev), remote.stores.dev, text)
    ensures r.Ok? && NotesOn(remote.plan, old(remote.stores.dev)) == {} ==>
              Read(remote.stores.main.tree, remote.plan.notesFile) == Some(text)
    ensures NotesOn(remote.plan, old(remote.stores.dev)) == {} && !NotesDiffer(remote.plan, text) ==> NotesOn(remote.plan, remote.stores.dev) == {}
    ensures Prepared(remote.plan, remote.start) ==> Safe(remote.plan, remote.stores) && (r.Ok? ==> Released(remote.plan, remote.stores))
    ensures Prepared(remote.plan, remote.start) && Released(remote.plan, old(remote.stores)) ==>
              OthersMerge(remote.plan, old(remote.stores), remote.stores)
    ensures Prepared(remote.plan, remote.start) && old(checkout.onDev) && IsAncestor(old(checkout.head), old(remote.stores.dev)) ==>
              CanFinish(remote.plan, old(remote.stores), text) && remote.faults == old(remote.faults) ==> r.Ok?
  {
    var p := remote.plan;
    var notes := CheckBranches(remote, checkout);
    checked := notes.Ok?;
    ghost var safe := Prepared(p, remote.start);
    ExtendingKeepsNotes(p, old(remote.stores.dev), remote.stores.dev);
    if safe {
      TrackedIsSafe(remote);
      if IsAncestor(old(checkout.head), old(remote.stores.dev)) {
        AncestorTransitive(old(checkout.head), old(remote.stores.dev), remote.stores.dev);
        SafeBranchesPass(p, old(checkout.head), remote.stores);
      }
    }
    if notes.Ok? {
      label passed:
      r := PublishChecked(remote, checkout, notes.value, text, stamp);
      if safe {
        TrackedIsSafe(remote);
        if OthersMerge(p, old@passed(remote.stores), remote.stores) {
          ExtendsTransitive(p, old(remote.stores.dev), old@passed(remote.stores.dev), remote.stores.dev);
        }
        if r.Ok? { SafeAndAlignedIsReleased(p, remote.stores); }
      }
    } else {
      r := notes.PropagateFailure();
    }
  }

  lemma SafeAndAlignedIsReleased(p: Plan, s: Stores)
    requires Safe(p, s) && Published(p, s) && s.main in NotesOn(p, s.dev)
    ensures Released(p, s)
  {
    assert NotesOn(p, s.dev) == {s.main};
  }

  lemma MergesKeepReleased(p: Plan, s: Stores, t: Stores)
    requires Released(p, s) && OthersMerge(p, s, t)
    ensures Released(p, t)
  {
    ExtendingKeepsNotes(p, s.dev, t.dev);
  }

  /** What is released shipped its notes, over hubs that agree. */
  lemma ReleasedHasNotes(remote: Remote)
    requires Tracked(remote) && Prepared(remote.plan, remote.start) && Released(remote.plan, remote.stores)
    ensures remote.stores.main in NotesOn(remote.plan, remote.stores.dev) && HubsAgree(remote.plan, remote.start)
  {
    var last := |remote.past| - 1;
    assert remote.stores.main in NotesOn(remote.plan, remote.stores.dev);
    if !HubsAgree(remote.plan, remote.start) { MisplacedTagShipsNothing(remote.plan, remote.past, last); }
  }

  /** A clean attempt among the first `k`: no request of it failed, and its notes are
      not what the plan's commit holds. */
  ghost predicate AnyClean(p: Plan, faults: seq<nat>, texts: nat -> string, k: nat) {
    exists i :: 0 <= i < k && i + 1 < |faults| && faults[i + 1] == faults[i] && NotesDiffer(p, texts(i))
  }

  ghost predicate AnyNotesDiffer(p: Plan, texts: nat -> string, k: nat) {
    exists i :: 0 <= i < k && NotesDiffer(p, texts(i))
  }

  /** The notes file of `c` is what one of the first `k` attempts wrote. */
  ghost predicate HoldsText(p: Plan, c: Commit, texts: nat -> string, k: nat) {
    exists i :: 0 <= i < k && Read(c.tree, p.notesFile) == Some(texts(i))
  }

  lemma TextDiffers(p: Plan, c: Commit, texts: nat -> string, k: nat)
    requires IsNotesCommit(p, c) && HoldsText(p, c, texts, k)
    ensures AnyNotesDiffer(p, texts, k)
  {
    assert p.notesFile in ChangedPaths(p.releaseCommit, c);
    var i :| 0 <= i < k && Read(c.tree, p.notesFile) == Some(texts(i));
    assert NotesDiffer(p, texts(i));
  }

  /** What `k` attempts from `start` came to. */
  ghost predicate CameTo(p: Plan, start: Stores, s: Stores, faults: seq<nat>, texts: nat -> string, k: nat) {
    && |faults| == k + 1
    && (HubsAgree(p, start) && AnyClean(p, faults, texts, k) ==> Released(p, s))
    && (forall n :: n in NotesOn(p, s.dev) ==> HoldsText(p, n, texts, k))
  }

  lemma OneMoreAttempt(p: Plan, start: Stores, was: Stores, s: Stores, faults: seq<nat>, texts: nat -> string, k: nat, after: nat)
    requires CameTo(p, start, was, faults, texts, k) && (HubsAgree(p, was) <==> HubsAgree(p, start))
    requires Released(p, was) ==> Released(p, s)
    requires CanFinish(p, was, texts(k)) && after == faults[k] ==> Released(p, s)
    requires OnlyAdds(p, was.dev, s.dev, texts(k))
    ensures CameTo(p, start, s, faults + [after], texts, k + 1)
  {
    var more := faults + [after];
    if i :| 0 <= i < k + 1 && i + 1 < |more| && more[i + 1] == more[i] && NotesDiffer(p, texts(i)) {
      if i < k {
        assert faults[i + 1] == faults[i];
        assert AnyClean(p, faults, texts, k);
      }
    }
    forall n | n in NotesOn(p, s.dev) ensures HoldsText(p, n, texts, k + 1) {
      if n in NotesOn(p, was.dev) {
        var i :| 0 <= i < k && Read(n.tree, p.notesFile) == Some(texts(i));
      }
    }
  }

  /** Convergence: however many attempts were cut off, and wherever, one without a
      failed request ends with the release out, and it stays out, unless a hub carried
      the tag elsewhere at the start or there are no notes to commit; with either in
      every attempt the release never is out. `faults` are the failed requests before
      each attempt, and after the last. */
  method PublishWithReruns(plan: Plan, net: nat -> Turn, stores: Stores, attempts: nat, texts: nat -> string)
    returns (remote: Remote, last: Result<()>, ghost faults: seq<nat>)
    requires Prepared(plan, stores) && IdsUnique(stores)
    ensures Tracked(remote) && remote.plan == plan && remote.start == stores
    ensures Safe(plan, remote.stores)
    ensures |faults| == attempts + 2 && faults[0] == 0 && faults[attempts + 1] == remote.faults
    ensures last.Ok? ==> Released(plan, remote.stores)
    ensures HubsAgree(plan, stores) && AnyClean(plan, faults, texts, attempts + 1) ==> Released(plan, remote.stores)
    ensures Released(plan, remote.stores) ==> HubsAgree(plan, stores) && AnyNotesDiffer(plan, texts, attempts + 1)
    ensures Released(plan, remote.stores) ==> HoldsText(plan, remote.stores.main, texts, attempts + 1)
  {
    remote := new Remote(plan, net, stores);
    last, faults := Dead, [0];
    ExtendingKeepsNotes(plan, plan.releaseCommit, stores.dev);
    for k := 0 to attempts + 1
      invariant fresh(remote) && Tracked(remote) && remote.plan == plan && remote.start == stores
      invariant CameTo(plan, stores, remote.stores, faults, texts, k) && faults[0] == 0 && faults[k] == remote.faults
      invariant last.Ok? ==> Released(plan, remote.stores)
    {
      var checkout := new Checkout(remote.stores.dev, remote.stores.main);
      ghost var was := remote.stores;
      RunKeepsHubsAgree(plan, remote.past, |remote.past| - 1);
      ghost var checked;
      last, checked := RunPublish(remote, checkout, texts(k), k);
      if Released(plan, was) { MergesKeepReleased(plan, was, remote.stores); }
      OneMoreAttempt(plan, stores, was, remote.stores, faults, texts, k, remote.faults);
      faults := faults + [remote.faults];
    }
    TrackedIsSafe(remote);
    if Released(plan, remote.stores) {
      ReleasedHasNotes(remote);
      TextDiffers(plan, remote.stores.main, texts, attempts + 1);
    }
  }

  /** A release whose commit holds the very notes already: however many attempts, and
      whatever the network does, none ends with the release out. */
  method SameNotesExample(net: nat -> Turn, attempts: nat) returns (plan: Plan, remote: Remote, last: Result<()>)
    ensures plan.releaseCommit.tree == map["notes.html" := "text"] && plan.notesFile == "notes.html"
    ensures Tracked(remote) && remote.plan == plan && Prepared(plan, remote.start) && HubsAgree(plan, remote.start)
    ensures !last.Ok? && !Released(plan, remote.stores)
  {
    var commit := Commit([], map["notes.html" := "text"], 0);
    plan := Plan("v1", commit, "notes.html", [], []);
    var stores := Stores(commit, commit, map[], [], 0, map[]);
    ghost var faults;
    remote, last, faults := PublishWithReruns(plan, net, stores, attempts, _ => "text");
  }
}
