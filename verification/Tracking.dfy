/** How a publish is tracked: the states of the stores as one run of steps. */
module Tracking {
  import opened Wrappers
  import opened CommitGraph
  import opened ReleaseStores
  import opened RemoteRequests

  /** The stores only took steps of a publish so far. */
  ghost predicate Tracked(remote: Remote)
    reads remote
  {
    remote.Valid() && Run(remote.plan, remote.past)
  }

  /** The run went on from where it was. */
  twostate predicate GoesOn(remote: Remote)
    reads remote
  {
    Tracked(remote) && remote.faults >= old(remote.faults)
  }

  /** The run went on, and nothing but other people's merges changed the stores. */
  twostate predicate OnlyWatches(remote: Remote)
    reads remote
  {
    GoesOn(remote) && OthersMerge(remote.plan, old(remote.stores), remote.stores)
  }

  method Ask(remote: Remote) returns (r: Result<Stores>)
    requires Tracked(remote)
    modifies remote
    ensures OnlyWatches(remote)
    ensures r.Ok? ==> r.value == remote.stores
    ensures remote.faults == old(remote.faults) ==> r.Ok?
    ensures r.Stopped? ==> r.why in {Transient, Refused}
  {
    r := remote.Ask();
    RunGoesOn(remote.plan, old(remote.past), remote.stores);
  }

  /** Every effect `q` can have on the stores is a step. */
  ghost predicate IsStep(p: Plan, s: Stores, q: Request) {
    && (Apply(q, s).Some? ==> Step(p, s, Apply(q, s).value))
    && (ApplyCut(q, s).Some? ==> Step(p, s, ApplyCut(q, s).value))
  }

  /** So it is on stores that others may have merged into. */
  ghost predicate Legal(p: Plan, s: Stores, q: Request) {
    forall met {:trigger IsStep(p, met, q)} :: OthersMerge(p, s, met) ==> IsStep(p, met, q)
  }

  /** Sends a request whose effect is a step; `met` is the stores as it met them. */
  method Send(remote: Remote, q: Request) returns (r: Result<Stores>, ghost met: Stores)
    requires Tracked(remote) && Legal(remote.plan, remote.stores, q)
    modifies remote
    ensures GoesOn(remote) && OthersMerge(remote.plan, old(remote.stores), met)
    ensures remote.stores == met || Some(remote.stores) == Apply(q, met) || (Some(remote.stores) == ApplyCut(q, met) && !r.Ok?)
    ensures r.Ok? ==> Apply(q, met) == Some(remote.stores) && r.value == remote.stores
    ensures remote.faults == old(remote.faults) ==>
              r.Ok? || (r == Stopped(Refused) && Apply(q, met).None? && (q.PushDev? ==> met == old(remote.stores)))
    ensures r.Stopped? ==> r.why in {Transient, Refused}
  {
    r := remote.Send(q);
    met := remote.past[|old(remote.past)|];
    RunGoesOn(remote.plan, old(remote.past), met);
    assert IsStep(remote.plan, met, q);
    if |remote.past| == |old(remote.past)| + 2 {
      RunGoesOn(remote.plan, old(remote.past) + [met], remote.stores);
      assert remote.past == old(remote.past) + [met] + [remote.stores];
    }
  }
}
