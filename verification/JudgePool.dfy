/** The docs check's pool of runs (scripts/functions/docs.py): jobs taken in
    order by at most four workers, which share one failure flag. */
module JudgePool {
  import opened Wrappers

  /** What a job does when it is called: give a value, give `None`, or raise. */
  datatype Outcome<+V, +E> = Gives(value: V) | GivesNone | Raises(error: E)

  /** Where a job is. `Taken` has not looked at the flag yet; `Failing` has raised
      and not set the flag yet; `Raising` has set it and its future is not done. */
  datatype Phase = Queued | Taken | Running | Failing | Raising | Raised | Returned | Skipped

  datatype State = State(submitted: nat, next: nat, phases: seq<Phase>, failed: bool)

  const MAX_WORKERS := 4

  datatype Result<+V, +E> = Results(values: seq<V>) | Error(error: E)

  // --- One step of one thread ---

  datatype Event = Submit | Take | Look(job: nat) | End(job: nat) | SetFlag(job: nat) | Finish(job: nat)

  predicate IsBusy(p: Phase) {
    p in {Taken, Running, Failing, Raising}
  }

  predicate IsDone(p: Phase) {
    p in {Raised, Returned, Skipped}
  }

  predicate HasStarted(p: Phase) {
    p !in {Queued, Taken, Skipped}
  }

  predicate HasFailed(p: Phase) {
    p in {Raising, Raised}
  }

  function Busy(phases: seq<Phase>): nat {
    if phases == [] then 0 else (if IsBusy(phases[0]) then 1 else 0) + Busy(phases[1..])
  }

  function Initial(jobs: nat): State {
    State(0, 0, seq(jobs, _ => Queued), false)
  }

  predicate Enabled<V, E>(jobs: seq<Outcome<V, E>>, s: State, e: Event) {
    match e
    case Submit => s.submitted < |jobs|
    case Take => s.next < s.submitted && s.next < |s.phases| && Busy(s.phases) < MAX_WORKERS
    case Look(i) => i < |s.phases| && s.phases[i] == Taken
    case End(i) => i < |s.phases| && s.phases[i] == Running && i < |jobs|
    case SetFlag(i) => i < |s.phases| && s.phases[i] == Failing
    case Finish(i) => i < |s.phases| && s.phases[i] == Raising
  }

  function Next<V, E>(jobs: seq<Outcome<V, E>>, s: State, e: Event): State
    requires Enabled(jobs, s, e)
  {
    match e
    case Submit => s.(submitted := s.submitted + 1)
    case Take => s.(next := s.next + 1, phases := s.phases[s.next := Taken])
    case Look(i) => s.(phases := s.phases[i := if s.failed then Skipped else Running])
    case End(i) => s.(phases := s.phases[i := if jobs[i].Raises? then Failing else Returned])
    case SetFlag(i) => s.(phases := s.phases[i := Raising], failed := true)
    case Finish(i) => s.(phases := s.phases[i := Raised])
  }

  ghost predicate Step<V, E>(jobs: seq<Outcome<V, E>>, s: State, t: State) {
    exists e :: Enabled(jobs, s, e) && t == Next(jobs, s, e)
  }

  /** A schedule: what the threads go through, in one order or another. */
  ghost predicate Schedule<V, E>(jobs: seq<Outcome<V, E>>, states: seq<State>) {
    && states != []
    && forall k :: 0 <= k < |states| - 1 ==> Step(jobs, states[k], states[k + 1])
  }

  /** The pool is shut down: every job was submitted and every future is done. */
  predicate IsShutDown(jobs: nat, s: State) {
    s.submitted == jobs && forall i :: 0 <= i < |s.phases| ==> IsDone(s.phases[i])
  }

  // --- What every step keeps ---

  ghost predicate JobFits<V, E>(jobs: seq<Outcome<V, E>>, s: State, i: nat)
    requires i < |jobs| == |s.phases|
  {
    && (s.phases[i] == Queued <==> i >= s.next)
    && (s.phases[i] in {Failing, Raising, Raised} ==> jobs[i].Raises?)
    && (s.phases[i] == Returned ==> !jobs[i].Raises?)
    && (HasFailed(s.phases[i]) || s.phases[i] == Skipped ==> s.failed)
  }

  ghost predicate Fits<V, E>(jobs: seq<Outcome<V, E>>, s: State) {
    && |s.phases| == |jobs| && s.next <= s.submitted <= |jobs| && Busy(s.phases) <= MAX_WORKERS
    && (forall i :: 0 <= i < |jobs| ==> JobFits(jobs, s, i))
    && (s.failed ==> exists i :: 0 <= i < |jobs| && HasFailed(s.phases[i]))
  }

  lemma {:induction false} BusyAfter(phases: seq<Phase>, i: nat, p: Phase)
    requires i < |phases|
    ensures Busy(phases[i := p]) + (if IsBusy(phases[i]) then 1 else 0) == Busy(phases) + if IsBusy(p) then 1 else 0
  {
    if i == 0 {
      assert phases[0 := p][1..] == phases[1..];
    } else {
      assert phases[i := p][1..] == phases[1..][i - 1 := p];
      BusyAfter(phases[1..], i - 1, p);
    }
  }

  lemma {:induction false} NoneBusy(n: nat)
    ensures Busy(seq(n, _ => Queued)) == 0
  {
    if n > 0 {
      assert seq(n, _ => Queued)[1..] == seq(n - 1, _ => Queued);
      NoneBusy(n - 1);
    }
  }

  lemma InitialFits<V, E>(jobs: seq<Outcome<V, E>>)
    ensures Fits(jobs, Initial(|jobs|))
  {
    NoneBusy(|jobs|);
  }

  /** The job whose phase a step changes. */
  function JobOf(s: State, e: Event): nat {
    match e
    case Submit => s.next
    case Take => s.next
    case Look(i) => i
    case End(i) => i
    case SetFlag(i) => i
    case Finish(i) => i
  }

  lemma NextKeepsJobs<V, E>(jobs: seq<Outcome<V, E>>, s: State, e: Event, i: nat)
    requires Fits(jobs, s) && Enabled(jobs, s, e) && i < |jobs|
    ensures |Next(jobs, s, e).phases| == |jobs| && JobFits(jobs, Next(jobs, s, e), i)
  {
    assert JobFits(jobs, s, i);
    assert JobOf(s, e) < |jobs| ==> JobFits(jobs, s, JobOf(s, e));
  }

  lemma NextKeepsFits<V, E>(jobs: seq<Outcome<V, E>>, s: State, e: Event)
    requires Fits(jobs, s) && Enabled(jobs, s, e)
    ensures Fits(jobs, Next(jobs, s, e))
  {
    var t := Next(jobs, s, e);
    forall i | 0 <= i < |jobs| ensures JobFits(jobs, t, i) {
      NextKeepsJobs(jobs, s, e, i);
    }
    assert JobOf(s, e) < |jobs| ==> JobFits(jobs, s, JobOf(s, e));
    if !e.Submit? { BusyAfter(s.phases, JobOf(s, e), t.phases[JobOf(s, e)]); }
    if t.failed {
      if e.SetFlag? {
        assert HasFailed(t.phases[e.job]);
      } else {
        var i :| 0 <= i < |jobs| && HasFailed(s.phases[i]);
        assert HasFailed(t.phases[i]);
      }
    }
  }

  lemma {:induction false} ScheduleFits<V, E>(jobs: seq<Outcome<V, E>>, states: seq<State>)
    requires Schedule(jobs, states) && states[0] == Initial(|jobs|)
    ensures Fits(jobs, states[|states| - 1])
  {
    if |states| == 1 {
      InitialFits(jobs);
    } else {
      var last := |states| - 1;
      ScheduleFits(jobs, states[..last]);
      assert Step(jobs, states[last - 1], states[last - 1 + 1]);
      var e :| Enabled(jobs, states[last - 1], e) && states[last] == Next(jobs, states[last - 1], e);
      NextKeepsFits(jobs, states[last - 1], e);
    }
  }

  /** Once the flag is set it stays set, and no job starts that had not. */
  lemma {:induction false} FlagStopsStarts<V, E>(jobs: seq<Outcome<V, E>>, states: seq<State>, i: nat)
    requires Schedule(jobs, states) && states[0].failed && i < |states[0].phases|
    ensures var last := states[|states| - 1];
            last.failed && |last.phases| == |states[0].phases| && (HasStarted(last.phases[i]) ==> HasStarted(states[0].phases[i]))
  {
    if |states| > 1 {
      var last := |states| - 1;
      FlagStopsStarts(jobs, states[..last], i);
      assert Step(jobs, states[last - 1], states[last - 1 + 1]);
    }
  }

  // --- Every schedule ends, and none is stuck ---

  function StepsOf(p: Phase): nat {
    match p
    case Queued => 5
    case Taken => 4
    case Running => 3
    case Failing => 2
    case Raising => 1
    case _ => 0
  }

  function StepsLeft(phases: seq<Phase>): nat {
    if phases == [] then 0 else StepsOf(phases[0]) + StepsLeft(phases[1..])
  }

  lemma {:induction false} StepsLeftAfter(phases: seq<Phase>, i: nat, p: Phase)
    requires i < |phases|
    ensures StepsLeft(phases[i := p]) + StepsOf(phases[i]) == StepsLeft(phases) + StepsOf(p)
  {
    if i == 0 {
      assert phases[0 := p][1..] == phases[1..];
    } else {
      assert phases[i := p][1..] == phases[1..][i - 1 := p];
      StepsLeftAfter(phases[1..], i - 1, p);
    }
  }

  lemma {:induction false} StepsLeftAtFirst(n: nat)
    ensures StepsLeft(seq(n, _ => Queued)) == 5 * n
  {
    if n > 0 {
      assert seq(n, _ => Queued)[1..] == seq(n - 1, _ => Queued);
      StepsLeftAtFirst(n - 1);
    }
  }

  /** What is left to do; each step spends one of it at least. */
  function Left(jobs: nat, s: State): int {
    jobs - s.submitted + StepsLeft(s.phases)
  }

  lemma NextSpends<V, E>(jobs: seq<Outcome<V, E>>, s: State, e: Event)
    requires Fits(jobs, s) && Enabled(jobs, s, e)
    ensures Left(|jobs|, Next(jobs, s, e)) < Left(|jobs|, s)
  {
    if !e.Submit? {
      assert JobFits(jobs, s, JobOf(s, e));
      StepsLeftAfter(s.phases, JobOf(s, e), Next(jobs, s, e).phases[JobOf(s, e)]);
    }
  }

  /** No schedule has more than six steps a job. */
  lemma {:induction false} ScheduleIsBounded<V, E>(jobs: seq<Outcome<V, E>>, states: seq<State>)
    requires Schedule(jobs, states) && states[0] == Initial(|jobs|)
    ensures |states| - 1 <= 6 * |jobs| - Left(|jobs|, states[|states| - 1]) <= 6 * |jobs|
  {
    ScheduleFits(jobs, states);
    if |states| == 1 {
      StepsLeftAtFirst(|jobs|);
    } else {
      var last := |states| - 1;
      ScheduleIsBounded(jobs, states[..last]);
      ScheduleFits(jobs, states[..last]);
      assert Step(jobs, states[last - 1], states[last - 1 + 1]);
      var e :| Enabled(jobs, states[last - 1], e) && states[last] == Next(jobs, states[last - 1], e);
      NextSpends(jobs, states[last - 1], e);
    }
  }

  lemma {:induction false} SomeBusy(phases: seq<Phase>) returns (i: nat)
    requires Busy(phases) > 0
    ensures i < |phases| && IsBusy(phases[i])
  {
    if IsBusy(phases[0]) {
      i := 0;
    } else {
      var k := SomeBusy(phases[1..]);
      i := k + 1;
    }
  }

  function EventOf(i: nat, p: Phase): Event
    requires IsBusy(p)
  {
    match p
    case Taken => Look(i)
    case Running => End(i)
    case Failing => SetFlag(i)
    case Raising => Finish(i)
  }

  /** Until the pool is shut down some thread can move. */
  lemma NeverStuck<V, E>(jobs: seq<Outcome<V, E>>, s: State) returns (e: Event)
    requires Fits(jobs, s) && !IsShutDown(|jobs|, s)
    ensures Enabled(jobs, s, e)
  {
    if s.submitted < |jobs| {
      e := Submit;
    } else if Busy(s.phases) > 0 {
      var i := SomeBusy(s.phases);
      e := EventOf(i, s.phases[i]);
    } else {
      var i :| 0 <= i < |s.phases| && !IsDone(s.phases[i]);
      assert JobFits(jobs, s, i);
      if IsBusy(s.phases[i]) { BusyAfter(s.phases, i, Skipped); }
      e := Take;
    }
  }

  // --- What the caller gets ---

  function Errors<V, E>(jobs: seq<Outcome<V, E>>, phases: seq<Phase>): seq<E>
    requires |jobs| == |phases|
  {
    if jobs == [] then []
    else (if phases[0] == Raised && jobs[0].Raises? then [jobs[0].error] else []) + Errors(jobs[1..], phases[1..])
  }

  function Values<V, E>(jobs: seq<Outcome<V, E>>, phases: seq<Phase>): seq<V>
    requires |jobs| == |phases|
  {
    if jobs == [] then []
    else (if phases[0] == Returned && jobs[0].Gives? then [jobs[0].value] else []) + Values(jobs[1..], phases[1..])
  }

  /** The first error of the futures in job order, or the results that are not `None`. */
  function Collect<V, E>(jobs: seq<Outcome<V, E>>, phases: seq<Phase>): Result<V, E>
    requires |jobs| == |phases|
  {
    if Errors(jobs, phases) != [] then Error(Errors(jobs, phases)[0]) else Results(Values(jobs, phases))
  }

  /** What the jobs give, in job order, with no pool in between. */
  function Given<V, E>(jobs: seq<Outcome<V, E>>): seq<V> {
    if jobs == [] then [] else (if jobs[0].Gives? then [jobs[0].value] else []) + Given(jobs[1..])
  }

  lemma {:induction false} FirstError<V, E>(jobs: seq<Outcome<V, E>>, phases: seq<Phase>, k: nat)
    requires |jobs| == |phases| && k < |jobs| && phases[k] == Raised && jobs[k].Raises?
    requires forall i :: 0 <= i < k ==> phases[i] != Raised
    ensures Errors(jobs, phases) != [] && Errors(jobs, phases)[0] == jobs[k].error
  {
    if k > 0 { FirstError(jobs[1..], phases[1..], k - 1); }
  }

  lemma {:induction false} NoErrors<V, E>(jobs: seq<Outcome<V, E>>, phases: seq<Phase>)
    requires |jobs| == |phases| && forall i :: 0 <= i < |phases| ==> phases[i] == Returned
    ensures Errors(jobs, phases) == [] && Values(jobs, phases) == Given(jobs)
  {
    if jobs != [] { NoErrors(jobs[1..], phases[1..]); }
  }

  lemma {:induction false} AllGiven<V, E>(jobs: seq<Outcome<V, E>>)
    requires forall i :: 0 <= i < |jobs| ==> jobs[i].Gives?
    ensures |Given(jobs)| == |jobs| && forall i :: 0 <= i < |jobs| ==> Given(jobs)[i] == jobs[i].value
  {
    if jobs != [] { AllGiven(jobs[1..]); }
  }

  /** What is given by jobs one after the other is given in their order. */
  lemma {:induction false} GivenAppends<V, E>(a: seq<Outcome<V, E>>, b: seq<Outcome<V, E>>)
    ensures Given(a + b) == Given(a) + Given(b)
  {
    if a == [] {
      assert a + b == b;
    } else {
      assert (a + b)[1..] == a[1..] + b && (a + b)[0] == a[0];
      GivenAppends(a[1..], b);
      Associates(if a[0].Gives? then [a[0].value] else [], Given(a[1..]), Given(b));
    }
  }

  lemma {:induction false} FirstRaised(phases: seq<Phase>, n: nat) returns (k: nat)
    requires n < |phases| && phases[n] == Raised
    ensures k < |phases| && phases[k] == Raised && forall i :: 0 <= i < k ==> phases[i] != Raised
  {
    if phases[0] == Raised {
      k := 0;
    } else {
      var rest := FirstRaised(phases[1..], n - 1);
      k := rest + 1;
      forall i | 0 <= i < k ensures phases[i] != Raised {
        if i > 0 { assert phases[1..][i - 1] != Raised; }
      }
    }
  }

  /** The states some schedule leads to. */
  ghost predicate Reached<V, E>(jobs: seq<Outcome<V, E>>, s: State) {
    exists states :: Schedule(jobs, states) && states[0] == Initial(|jobs|) && s == states[|states| - 1]
  }

  lemma ReachedFits<V, E>(jobs: seq<Outcome<V, E>>, s: State)
    requires Reached(jobs, s)
    ensures Fits(jobs, s)
  {
    var states :| Schedule(jobs, states) && states[0] == Initial(|jobs|) && s == states[|states| - 1];
    ScheduleFits(jobs, states);
  }

  lemma FlagMeansRaised<V, E>(jobs: seq<Outcome<V, E>>, s: State)
    requires Fits(jobs, s)
    ensures s.failed ==> exists i :: 0 <= i < |jobs| && jobs[i].Raises?
  {
    if s.failed {
      var k :| 0 <= k < |jobs| && HasFailed(s.phases[k]);
      assert JobFits(jobs, s, k);
    }
  }

  lemma NothingRaised<V, E>(jobs: seq<Outcome<V, E>>, s: State)
    requires Fits(jobs, s) && IsShutDown(|jobs|, s) && forall i :: 0 <= i < |jobs| ==> !jobs[i].Raises?
    ensures Collect(jobs, s.phases) == Results(Given(jobs))
  {
    FlagMeansRaised(jobs, s);
    forall i | 0 <= i < |jobs| ensures s.phases[i] == Returned {
      assert JobFits(jobs, s, i);
    }
    NoErrors(jobs, s.phases);
  }

  /** With no job that raises, every schedule gives what the jobs give, in job order. */
  lemma ResultsInJobOrder<V, E>(jobs: seq<Outcome<V, E>>, s: State)
    requires Reached(jobs, s) && IsShutDown(|jobs|, s) && forall i :: 0 <= i < |jobs| ==> !jobs[i].Raises?
    ensures |s.phases| == |jobs| && Collect(jobs, s.phases) == Results(Given(jobs))
  {
    ReachedFits(jobs, s);
    NothingRaised(jobs, s);
  }

  lemma SomeRaised<V, E>(jobs: seq<Outcome<V, E>>, s: State, any: nat) returns (n: nat)
    requires Fits(jobs, s) && IsShutDown(|jobs|, s) && any < |jobs| && jobs[any].Raises?
    ensures n < |jobs| && s.phases[n] == Raised
  {
    assert JobFits(jobs, s, any);
    if s.phases[any] == Raised {
      n := any;
    } else {
      assert s.failed;
      n :| 0 <= n < |jobs| && HasFailed(s.phases[n]);
    }
  }

  /** With a job that raises, every schedule ends in the error of the first job, in
      job order, of those that raised; a job before it that would raise was skipped. */
  lemma FirstFailureIsRaised<V, E>(jobs: seq<Outcome<V, E>>, s: State) returns (k: nat)
    requires Reached(jobs, s) && IsShutDown(|jobs|, s) && exists i :: 0 <= i < |jobs| && jobs[i].Raises?
    ensures k < |jobs| == |s.phases| && s.phases[k] == Raised && jobs[k].Raises?
    ensures Collect(jobs, s.phases) == Error(jobs[k].error)
    ensures forall i :: 0 <= i < k ==> s.phases[i] == Skipped || (s.phases[i] == Returned && !jobs[i].Raises?)
  {
    ReachedFits(jobs, s);
    var any :| 0 <= any < |jobs| && jobs[any].Raises?;
    var n := SomeRaised(jobs, s, any);
    k := FirstRaised(s.phases, n);
    assert JobFits(jobs, s, k);
    FirstError(jobs, s.phases, k);
    forall i | 0 <= i < k ensures s.phases[i] == Skipped || (s.phases[i] == Returned && !jobs[i].Raises?) {
      assert JobFits(jobs, s, i);
    }
  }

  lemma Go<V, E>(jobs: seq<Outcome<V, E>>, s: State, e: Event) returns (t: State)
    requires Reached(jobs, s) && Enabled(jobs, s, e)
    ensures t == Next(jobs, s, e) && Reached(jobs, t)
  {
    t := Next(jobs, s, e);
    var states :| Schedule(jobs, states) && states[0] == Initial(|jobs|) && s == states[|states| - 1];
    var longer := states + [t];
    assert Schedule(jobs, longer);
  }

  lemma ReachedAtFirst<V, E>(jobs: seq<Outcome<V, E>>)
    ensures Reached(jobs, Initial(|jobs|))
  {
    assert Schedule(jobs, [Initial(|jobs|)]);
  }

  /** Job `next`, the pool having a free worker, taken and done: skipped after the
      flag is set, and returned before that when it does not raise. */
  lemma DoNext<V, E>(jobs: seq<Outcome<V, E>>, s: State) returns (t: State)
    requires Reached(jobs, s) && s.submitted == |jobs| && s.next < |jobs| && Busy(s.phases) < MAX_WORKERS
    requires s.failed || !jobs[s.next].Raises?
    ensures Reached(jobs, t) && s.next < |s.phases| && Busy(t.phases) == Busy(s.phases)
    ensures t == s.(next := s.next + 1, phases := s.phases[s.next := if s.failed then Skipped else Returned])
  {
    ReachedFits(jobs, s);
    var i := s.next;
    assert JobFits(jobs, s, i);
    t := Go(jobs, s, Take);
    t := Go(jobs, t, Look(i));
    if !s.failed { t := Go(jobs, t, End(i)); }
    BusyAfter(s.phases, i, t.phases[i]);
    assert t.phases == s.phases[i := t.phases[i]];
  }

  /** Jobs up to `k`, one after the other. */
  lemma {:induction false} DoUpTo<V, E>(jobs: seq<Outcome<V, E>>, s: State, k: nat) returns (t: State)
    requires Reached(jobs, s) && s.submitted == |jobs| == |s.phases| && s.next <= k <= |jobs| && Busy(s.phases) < MAX_WORKERS
    requires s.failed || forall i :: s.next <= i < k ==> !jobs[i].Raises?
    ensures Reached(jobs, t) && Busy(t.phases) == Busy(s.phases) && |t.phases| == |jobs|
    ensures t.submitted == |jobs| && t.next == k && t.failed == s.failed
    ensures forall i :: 0 <= i < s.next ==> t.phases[i] == s.phases[i]
    ensures forall i :: s.next <= i < k ==> IsDone(t.phases[i])
    decreases k - s.next
  {
    if s.next == k {
      t := s;
    } else {
      var one := DoNext(jobs, s);
      t := DoUpTo(jobs, one, k);
      assert t.phases[s.next] == one.phases[s.next];
    }
  }

  lemma {:induction false} SubmitAll<V, E>(jobs: seq<Outcome<V, E>>, n: nat)
    requires n <= |jobs|
    ensures Reached(jobs, Initial(|jobs|).(submitted := n))
  {
    if n == 0 {
      ReachedAtFirst(jobs);
    } else {
      SubmitAll(jobs, n - 1);
      var _ := Go(jobs, Initial(|jobs|).(submitted := n - 1), Submit);
    }
  }

  /** Job `f` is taken and has not looked at the flag; every job before it is done. */
  lemma TakeAlone<V, E>(jobs: seq<Outcome<V, E>>, f: nat) returns (s: State)
    requires f < |jobs| && forall i :: 0 <= i < f ==> !jobs[i].Raises?
    ensures Reached(jobs, s) && s.submitted == |jobs| == |s.phases| && s.next == f + 1 && !s.failed && Busy(s.phases) == 1
    ensures s.phases[f] == Taken && forall i :: 0 <= i < f ==> IsDone(s.phases[i])
  {
    SubmitAll(jobs, |jobs|);
    NoneBusy(|jobs|);
    var before := DoUpTo(jobs, Initial(|jobs|).(submitted := |jobs|), f);
    ReachedFits(jobs, before);
    assert JobFits(jobs, before, f);
    s := Go(jobs, before, Take);
    BusyAfter(before.phases, f, Taken);
  }

  /** Job `g` raises while job `f` waits to look at the flag: `f` is skipped. */
  lemma RaiseFirst<V, E>(jobs: seq<Outcome<V, E>>, s: State, f: nat, g: nat) returns (t: State)
    requires Reached(jobs, s) && f < g == s.next < s.submitted == |jobs| == |s.phases| && jobs[g].Raises?
    requires s.phases[f] == Taken && Busy(s.phases) == 1 && !s.failed
    ensures Reached(jobs, t) && t == State(|jobs|, g + 1, s.phases[g := Raised][f := Skipped], true) && Busy(t.phases) == 0
  {
    ReachedFits(jobs, s);
    assert JobFits(jobs, s, g);
    t := Go(jobs, s, Take);
    t := Go(jobs, t, Look(g));
    t := Go(jobs, t, End(g));
    t := Go(jobs, t, SetFlag(g));
    t := Go(jobs, t, Look(f));
    t := Go(jobs, t, Finish(g));
    assert t.phases == s.phases[g := Raised][f := Skipped];
    BusyAfter(s.phases, g, Raised);
    BusyAfter(s.phases[g := Raised], f, Skipped);
  }

  /** With another job that raises after it, the first that would raise can be skipped. */
  lemma FirstCanBeSkipped<V, E>(jobs: seq<Outcome<V, E>>, f: nat, g: nat) returns (s: State)
    requires f < g < |jobs| && jobs[g].Raises?
    requires forall i :: 0 <= i < g && i != f ==> !jobs[i].Raises?
    ensures Reached(jobs, s) && IsShutDown(|jobs|, s) && |s.phases| == |jobs|
    ensures s.phases[f] == Skipped && s.phases[g] == Raised && forall i :: 0 <= i < g ==> s.phases[i] != Raised
  {
    var taken := TakeAlone(jobs, f);
    var waiting := DoUpTo(jobs, taken, g);
    var raised := RaiseFirst(jobs, waiting, f, g);
    s := DoUpTo(jobs, raised, |jobs|);
    ReachedFits(jobs, s);
    forall i | 0 <= i < |jobs| ensures IsDone(s.phases[i]) && (i < g ==> s.phases[i] != Raised) {
      assert JobFits(jobs, s, i);
      if i <= g { assert s.phases[i] == raised.phases[i]; }
      if i < g && i != f { assert s.phases[i] == waiting.phases[i]; }
      if i < f { assert s.phases[i] == taken.phases[i]; }
    }
  }

  lemma FirstRaises<V, E>(jobs: seq<Outcome<V, E>>, from: nat, any: nat) returns (g: nat)
    requires from <= any < |jobs| && jobs[any].Raises?
    ensures from <= g < |jobs| && jobs[g].Raises? && forall i :: from <= i < g ==> !jobs[i].Raises?
  {
    g := from;
    while !jobs[g].Raises?
      invariant from <= g <= any && forall i :: from <= i < g ==> !jobs[i].Raises?
      decreases any - g
    {
      g := g + 1;
    }
  }

  /** The failure of the first job that would fail is the one raised, whatever the
      schedule, exactly when no job after it would fail. */
  lemma FirstFailureExactly<V, E>(jobs: seq<Outcome<V, E>>, f: nat)
    requires f < |jobs| && jobs[f].Raises? && forall i :: 0 <= i < f ==> !jobs[i].Raises?
    ensures (forall s :: Reached(jobs, s) && IsShutDown(|jobs|, s) ==> |s.phases| == |jobs| && s.phases[f] == Raised)
            <==> forall i :: f < i < |jobs| ==> !jobs[i].Raises?
    ensures forall s :: Reached(jobs, s) && IsShutDown(|jobs|, s) && |s.phases| == |jobs| && s.phases[f] == Raised ==>
              Collect(jobs, s.phases) == Error(jobs[f].error)
  {
    if any :| f < any < |jobs| && jobs[any].Raises? {
      var g := FirstRaises(jobs, f + 1, any);
      var s := FirstCanBeSkipped(jobs, f, g);
      assert Reached(jobs, s) && IsShutDown(|jobs|, s) && s.phases[f] != Raised;
    } else {
      forall s | Reached(jobs, s) && IsShutDown(|jobs|, s) ensures |s.phases| == |jobs| && s.phases[f] == Raised {
        var k := FirstFailureIsRaised(jobs, s);
        assert k == f;
      }
    }
    forall s | Reached(jobs, s) && IsShutDown(|jobs|, s) && |s.phases| == |jobs| && s.phases[f] == Raised
      ensures Collect(jobs, s.phases) == Error(jobs[f].error)
    {
      var k := FirstFailureIsRaised(jobs, s);
      assert k == f;
    }
  }

  /** The error need not be that of the first job that would raise: that job can
      be taken first and be skipped. */
  lemma SkippedFirstExample() returns (jobs: seq<Outcome<int, int>>, s: State)
    ensures jobs == [Raises(0), Raises(1)] && Reached(jobs, s) && IsShutDown(2, s)
    ensures |s.phases| == 2 && Collect(jobs, s.phases) == Error(1)
  {
    jobs := [Raises(0), Raises(1)];
    s := FirstCanBeSkipped(jobs, 0, 1);
    FirstError(jobs, s.phases, 1);
  }
}
