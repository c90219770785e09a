/** The prepare stage, which starts a release (scripts/functions/parallel_release.py,
    with the branch check of scripts/functions/release_line.py). It writes nothing. */
module Prepare {
  import opened CommitGraph
  import opened ReleaseStores
  import opened RemoteRequests
  import opened Tracking
  import opened Publish

  /** The git state a release starts from: `dev` checked out where the remote has it,
      and `main` behind it. */
  method VerifyReleaseBranchState(remote: Remote, checkout: Checkout) returns (r: Result<Commit>)
    requires Tracked(remote)
    modifies remote, checkout
    ensures OnlyWatches(remote) && checkout.onDev == old(checkout.onDev) && checkout.head == old(checkout.head)
    ensures r.Ok? ==> checkout.onDev && r.value == checkout.head == remote.stores.dev && IsAncestor(remote.stores.main, r.value)
    ensures remote.faults == old(remote.faults) ==>
              (r.Ok? <==> checkout.onDev && checkout.head == remote.stores.dev && IsAncestor(remote.stores.main, checkout.head))
  {
    if !checkout.onDev { return Stopped(NotOnDev); }
    var seen :- Ask(remote);
    checkout.originDev, checkout.originMain := seen.dev, seen.main;
    if checkout.head != checkout.originDev {
      return Stopped(if IsAncestor(checkout.originDev, checkout.head) then UnpushedCommits else DevDrift);
    }
    if !IsAncestor(checkout.originMain, checkout.head) { return Stopped(MainElsewhere); }
    return Ok(checkout.head);
  }

  /** Stops when the tag of the release exists. */
  method RequireUnusedTag(remote: Remote) returns (r: Result<()>)
    requires Tracked(remote)
    modifies remote
    ensures OnlyWatches(remote)
    ensures r.Ok? ==> remote.plan.tag !in remote.stores.tags
    ensures remote.faults == old(remote.faults) ==> (r.Ok? <==> remote.plan.tag !in remote.stores.tags)
  {
    var seen :- Ask(remote);
    return if remote.plan.tag in seen.tags then Stopped(TagTaken) else Ok(());
  }

  /** What the stage checked, on stores that others may have merged into since. */
  ghost predicate CanStart(p: Plan, s: Stores) {
    Extends(p, p.releaseCommit, s.dev) && IsAncestor(s.main, p.releaseCommit) && p.tag !in s.tags
  }

  /** Checks that the release can start from the plan's commit. The docs gate and the
      drafting of the notes only read, and may fail. */
  method RunPrepare(remote: Remote, checkout: Checkout) returns (r: Result<()>)
    requires Tracked(remote)
    modifies remote, checkout
    ensures OnlyWatches(remote)
    ensures r.Ok? ==> CanStart(remote.plan, remote.stores)
    ensures old(checkout.onDev) && old(checkout.head) == remote.plan.releaseCommit && CanStart(remote.plan, remote.stores)
            && remote.stores.dev == remote.plan.releaseCommit ==>
              remote.faults == old(remote.faults) ==> r.Ok?
  {
    var p := remote.plan;
    var verified := VerifyReleaseBranchState(remote, checkout);
    if !verified.Ok? { return verified.PropagateFailure(); }
    if verified.value != p.releaseCommit { return Stopped(StaleRun); }
    label checked:
    var unused := RequireUnusedTag(remote);
    ExtendsTransitive(p, old(remote.stores.dev), old@checked(remote.stores.dev), remote.stores.dev);
    if !unused.Ok? { return unused.PropagateFailure(); }
    label free:
    var drafted := Ask(remote);
    ExtendsTransitive(p, old(remote.stores.dev), old@free(remote.stores.dev), remote.stores.dev);
    ExtendsTransitive(p, p.releaseCommit, old@free(remote.stores.dev), remote.stores.dev);
    return if drafted.Ok? then Ok(()) else drafted.PropagateFailure();
  }

  /** A release that can start is prepared: GitHub has no live release without its tag. */
  lemma CanStartIsPrepared(p: Plan, s: Stores)
    requires WellFormed(p) && CanStart(p, s) && (Published(p, s) ==> p.tag in s.tags)
    ensures Prepared(p, s) && Safe(p, s)
  {
    PreparedIsSafe(p, s);
  }

  /** It stays prepared while others merge, however long the builds take. */
  lemma MergesKeepPrepared(p: Plan, s: Stores, t: Stores)
    requires Prepared(p, s) && OthersMerge(p, s, t)
    ensures Prepared(p, t)
  {
    ExtendsTransitive(p, p.releaseCommit, s.dev, t.dev);
  }
}
