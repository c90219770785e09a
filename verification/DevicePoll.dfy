/** Polling of a device login (crates/auth-internal/src/device.rs), after
    section 3.5 of RFC 8628. */
module DevicePolls {
  import opened Wrappers
  import opened Tokens

  const MAX_U64 := 0xFFFF_FFFF_FFFF_FFFF

  datatype DeviceAuthorization = DeviceAuthorization(expiresIn: int, interval: nat)

  /** What one poll gets: tokens, a success that does not parse, an OAuth error
      code, or no answer. */
  datatype Answer = Success(tokens: TokenResponse) | Malformed | Code(code: string) | NoAnswer

  datatype Error = Denied | TimedOut | Failed(code: string) | BadAnswer | Unreachable
  datatype Result = Ok(tokens: TokenSet) | Err(error: Error)

  datatype PollOutcome = KeepWaiting | SlowDown | Fatal(error: Error)

  function Classify(code: string): PollOutcome {
    if code == "authorization_pending" then KeepWaiting
    else if code == "slow_down" then SlowDown
    else if code == "access_denied" then Fatal(Denied)
    else if code == "expired_token" then Fatal(TimedOut)
    else Fatal(Failed(code))
  }

  /** Whether an answer leaves the login open. */
  predicate IsOpen(a: Answer) {
    a.Code? && a.code in {"authorization_pending", "slow_down"}
  }

  predicate IsSlowDown(a: Answer) {
    a.Code? && a.code == "slow_down"
  }

  /** What a code that ends the login means. */
  function FailureOf(code: string): Error {
    match code
    case "access_denied" => Denied
    case "expired_token" => TimedOut
    case _ => Failed(code)
  }

  /** How many of the first `n` answers ask to slow down. */
  function SlowDowns(answers: nat -> Answer, n: nat): nat {
    if n == 0 then 0 else SlowDowns(answers, n - 1) + if IsSlowDown(answers(n - 1)) then 1 else 0
  }

  function Max(a: int, b: int): int {
    if a < b then b else a
  }

  /** The wait after `n` answers: five seconds more for each that asked to slow down. */
  function Interval(da: DeviceAuthorization, answers: nat -> Answer, n: nat): nat {
    var wait := Max(da.interval, 1) + 5 * SlowDowns(answers, n);
    if wait > MAX_U64 then MAX_U64 else wait
  }

  /** `u64::saturating_add`. */
  function SaturatingAddU64(a: nat, b: nat): nat {
    if a + b > MAX_U64 then MAX_U64 else a + b
  }

  function Deadline(da: DeviceAuthorization, start: int): int {
    SaturatingAdd(start, da.expiresIn)
  }

  /** The clock: asking the server, or sleeping `seconds`, takes that long or longer. */
  ghost predicate RunsForward(clock: (nat, int, nat) -> int) {
    forall n: nat, now: int, seconds: nat :: clock(n, now, seconds) >= now + seconds
  }

  /** The waits between the polls are long enough, and every poll but the last left
      the login open. */
  ghost predicate IsPaced(da: DeviceAuthorization, answers: nat -> Answer, times: seq<int>) {
    forall k :: 0 <= k < |times| - 1 ==> IsOpen(answers(k)) && times[k + 1] - times[k] >= Interval(da, answers, k + 1)
  }

  lemma {:induction false} PacedTimes(da: DeviceAuthorization, answers: nat -> Answer, times: seq<int>, k: nat)
    requires IsPaced(da, answers, times) && da.interval <= MAX_U64 && k < |times|
    ensures times[k] >= times[0] + k * Max(da.interval, 1)
  {
    if k > 0 {
      PacedTimes(da, answers, times, k - 1);
      assert times[k - 1 + 1] - times[k - 1] >= Interval(da, answers, k - 1 + 1) >= Max(da.interval, 1);
    }
  }

  lemma MultipleBound(k: nat, interval: nat, lifetime: nat)
    requires interval > 0
    ensures k * interval < lifetime ==> k <= lifetime / interval
  {
    var whole := lifetime / interval;
    if k > whole {
      assert k * interval == (k - whole - 1) * interval + (whole + 1) * interval;
      assert (k - whole - 1) * interval >= 0;
    }
  }

  /** The polls of the whole lifetime, one an interval. */
  function Budget(da: DeviceAuthorization): nat {
    Max(da.expiresIn, 0) / Max(da.interval, 1)
  }

  /** While the time is not up there was at most one poll for each interval of the
      lifetime, and one. */
  lemma PollsAreBounded(da: DeviceAuthorization, answers: nat -> Answer, times: seq<int>, start: int, checked: int)
    requires MIN_I64 <= start <= MAX_I64 && da.interval <= MAX_U64
    requires times != [] && times[0] >= start && IsPaced(da, answers, times)
    requires times[|times| - 1] <= checked < Deadline(da, start)
    ensures |times| - 1 <= Budget(da)
  {
    PacedTimes(da, answers, times, |times| - 1);
    MultipleBound(|times| - 1, Max(da.interval, 1), Max(da.expiresIn, 0));
  }

  /** One more poll, an interval after the last, which left the login open. */
  lemma PacedGrows(da: DeviceAuthorization, answers: nat -> Answer, times: seq<int>, now: int)
    requires IsPaced(da, answers, times)
    requires times != [] ==> IsOpen(answers(|times| - 1)) && now - times[|times| - 1] >= Interval(da, answers, |times|)
    ensures IsPaced(da, answers, times + [now])
  {
  }

  /** One more answer: the wait grows by five when it asks to slow down. */
  lemma IntervalGrows(da: DeviceAuthorization, answers: nat -> Answer, n: nat)
    ensures Interval(da, answers, n + 1)
         == if IsSlowDown(answers(n)) then SaturatingAddU64(Interval(da, answers, n), 5) else Interval(da, answers, n)
  {
  }

  /** Polls until the login is approved or refused, or the time is up. Poll `k`
      gets `answers(k)`; `times` are when the polls were sent, `end` when it was over. */
  method Poll(da: DeviceAuthorization, issuer: string, client: string, start: int, answers: nat -> Answer, clock: (nat, int, nat) -> int)
    returns (r: Result, times: seq<int>, end: int)
    requires MIN_I64 <= start <= MAX_I64 && da.interval <= MAX_U64 && RunsForward(clock)
    ensures times != [] && IsPaced(da, answers, times)
    ensures |times| <= Budget(da) + 2
    ensures match answers(|times| - 1)
            case Success(tokens) => r == Ok(IntoSet(tokens, issuer, client, end, None))
            case Malformed => r == Err(BadAnswer)
            case NoAnswer => r == Err(Unreachable)
            case Code(code) =>
              if IsOpen(Code(code)) then r == Err(TimedOut) && end >= SaturatingAdd(start, da.expiresIn) else r == Err(FailureOf(code))
  {
    var now, deadline, interval, polls, ticks := start, Deadline(da, start), Max(da.interval, 1), 0, 0;
    times, end := [], start;
    ghost var last, budget := start, Budget(da);
    while true
      invariant 0 <= polls == |times| && 0 <= ticks && start <= last <= now && polls <= budget + 1
      invariant polls > 0 ==> times[0] >= start && times[polls - 1] <= last < deadline && now >= last + interval
      invariant polls > 0 ==> IsOpen(answers(polls - 1))
      invariant interval == Interval(da, answers, polls) && IsPaced(da, answers, times)
      decreases polls == 0, deadline - last
    {
      PacedGrows(da, answers, times, now);
      IntervalGrows(da, answers, polls);
      times := times + [now];
      var answer := answers(polls);
      now, ticks, polls := clock(ticks, now, 0), ticks + 1, polls + 1;
      end := now;
      if answer.NoAnswer? { return Err(Unreachable), times, end; }
      if answer.Malformed? { return Err(BadAnswer), times, end; }
      if answer.Success? { return Ok(IntoSet(answer.tokens, issuer, client, now, None)), times, end; }
      match Classify(answer.code) {
        case KeepWaiting =>
        case SlowDown => interval := SaturatingAddU64(interval, 5);
        case Fatal(error) => return Err(error), times, end;
      }
      if now >= deadline { return Err(TimedOut), times, end; }
      PollsAreBounded(da, answers, times, start, now);
      last := now;
      now, ticks := clock(ticks, now, interval), ticks + 1;
    }
  }
}
