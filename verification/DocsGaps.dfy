/** The second opinion on blocking gaps, and the em-dash lines an edit added
    (scripts/functions/docs.py). */
module GapReviews {
  import opened Wrappers
  import opened JudgePool

  datatype Severity = Blocking | Minor
  datatype RequiredChange = RequiredChange(file: string, change: string, severity: Severity, diffPart: nat)
  datatype GapReview = GapReview(confirmed: bool, evidence: string)

  /** What the run that reviews one gap comes to. */
  datatype Opinion<+E> = Reviewed(review: GapReview) | Failed(error: E)

  function Job<E>(opinion: Opinion<E>): Outcome<GapReview, E> {
    match opinion case Reviewed(review) => Gives(review) case Failed(error) => Raises(error)
  }

  function Jobs<E>(gaps: seq<RequiredChange>, opinions: RequiredChange -> Opinion<E>): (jobs: seq<Outcome<GapReview, E>>)
    ensures |jobs| == |gaps| && forall i :: 0 <= i < |gaps| ==> jobs[i] == Job(opinions(gaps[i]))
  {
    seq(|gaps|, i requires 0 <= i < |gaps| => Job(opinions(gaps[i])))
  }

  /** The distinct blocking gaps, in the order of their first appearance. */
  function DistinctBlocking(changes: seq<RequiredChange>): (gaps: seq<RequiredChange>)
    ensures forall i, j :: 0 <= i < j < |gaps| ==> gaps[i] != gaps[j]
    ensures forall c :: c in gaps <==> c in changes && c.severity == Blocking
  {
    if changes == [] then []
    else
      var front, last := changes[..|changes| - 1], changes[|changes| - 1];
      var gaps := DistinctBlocking(front);
      assert changes == front + [last];
      if last.severity == Blocking && last !in gaps then gaps + [last] else gaps
  }

  /** Where a change first appears. */
  function First(changes: seq<RequiredChange>, c: RequiredChange): nat
    requires c in changes
  {
    Position(changes, c).value
  }

  /** One more change: what came before it first appears where it did, and before it. */
  lemma FirstStays(front: seq<RequiredChange>, last: RequiredChange)
    ensures forall c :: c in front ==> c in front + [last] && First(front + [last], c) == First(front, c) < |front|
    ensures last !in front ==> last in front + [last] && First(front + [last], last) == |front|
  {
    forall c | c in front ensures Position(front + [last], c) == Position(front, c) {
      PositionInFront(front, [last], c);
    }
    assert (front + [last])[|front|] == last;
  }

  /** The gaps stand in the order of their first appearance. */
  lemma {:induction false} DistinctInOrder(changes: seq<RequiredChange>, i: nat, j: nat)
    requires i < j < |DistinctBlocking(changes)|
    ensures DistinctBlocking(changes)[i] in changes && DistinctBlocking(changes)[j] in changes
    ensures First(changes, DistinctBlocking(changes)[i]) < First(changes, DistinctBlocking(changes)[j])
  {
    var front, last := changes[..|changes| - 1], changes[|changes| - 1];
    var gaps, all := DistinctBlocking(front), DistinctBlocking(changes);
    assert changes == front + [last];
    FirstStays(front, last);
    assert all[i] == gaps[i] && gaps[i] in front;
    if j < |gaps| {
      assert all[j] == gaps[j] && gaps[j] in front;
      DistinctInOrder(front, i, j);
    }
  }

  predicate IsRefuted<E>(c: RequiredChange, opinions: RequiredChange -> Opinion<E>) {
    c.severity == Blocking && opinions(c).Reviewed? && !opinions(c).review.confirmed
  }

  /** The changes without the blocking gaps whose own review refutes them. */
  function Standing<E>(changes: seq<RequiredChange>, opinions: RequiredChange -> Opinion<E>): seq<RequiredChange> {
    if changes == [] then []
    else (if IsRefuted(changes[0], opinions) then [] else [changes[0]]) + Standing(changes[1..], opinions)
  }

  /** Standing in two lists one after the other is standing in each. */
  lemma {:induction false} StandingAppends<E>(a: seq<RequiredChange>, b: seq<RequiredChange>, opinions: RequiredChange -> Opinion<E>)
    ensures Standing(a + b, opinions) == Standing(a, opinions) + Standing(b, opinions)
  {
    if a == [] {
      assert a + b == b;
    } else {
      assert (a + b)[1..] == a[1..] + b;
      StandingAppends(a[1..], b, opinions);
    }
  }

  /** Every change that is not refuted stands as often as it was there, and none that is:
      minor suggestions pass, and so do blocking gaps that are confirmed. */
  lemma {:induction false} StandingKeeps<E>(changes: seq<RequiredChange>, opinions: RequiredChange -> Opinion<E>, c: RequiredChange)
    ensures multiset(Standing(changes, opinions))[c]
         == if c.severity == Blocking && opinions(c).Reviewed? && !opinions(c).review.confirmed then 0 else multiset(changes)[c]
  {
    if changes != [] {
      StandingKeeps(changes[1..], opinions, c);
      assert changes == [changes[0]] + changes[1..];
    }
  }

  function Without(changes: seq<RequiredChange>, refuted: set<RequiredChange>): seq<RequiredChange> {
    if changes == [] then []
    else (if changes[0] in refuted then [] else [changes[0]]) + Without(changes[1..], refuted)
  }

  lemma {:induction false} WithoutRefuted<E>(changes: seq<RequiredChange>, refuted: set<RequiredChange>, opinions: RequiredChange -> Opinion<E>)
    requires forall c :: c in changes ==> (c in refuted <==> IsRefuted(c, opinions))
    ensures Without(changes, refuted) == Standing(changes, opinions)
  {
    if changes != [] { WithoutRefuted(changes[1..], refuted, opinions); }
  }

  lemma {:induction false} NothingRefuted<E>(changes: seq<RequiredChange>, opinions: RequiredChange -> Opinion<E>)
    requires forall c :: c in changes ==> !IsRefuted(c, opinions)
    ensures Standing(changes, opinions) == changes
  {
    if changes != [] { NothingRefuted(changes[1..], opinions); }
  }

  /** The gaps whose review does not confirm them: review `i` is of gap `i`. */
  method Refuted(gaps: seq<RequiredChange>, reviews: seq<GapReview>) returns (refuted: set<RequiredChange>)
    requires |gaps| == |reviews| && forall i, j :: 0 <= i < j < |gaps| ==> gaps[i] != gaps[j]
    ensures forall i :: 0 <= i < |gaps| ==> (gaps[i] in refuted <==> !reviews[i].confirmed)
    ensures forall c :: c in refuted ==> c in gaps
  {
    refuted := {};
    for i := 0 to |gaps|
      invariant forall k :: 0 <= k < i ==> (gaps[k] in refuted <==> !reviews[k].confirmed)
      invariant forall c :: c in refuted ==> c in gaps[..i]
    {
      if !reviews[i].confirmed { refuted := refuted + {gaps[i]}; }
    }
  }

  lemma ReviewsOfGaps<E>(gaps: seq<RequiredChange>, opinions: RequiredChange -> Opinion<E>, end: State)
    requires Reached(Jobs(gaps, opinions), end) && IsShutDown(|gaps|, end)
    requires forall c :: c in gaps ==> opinions(c).Reviewed?
    ensures |end.phases| == |gaps|
    ensures var got := Collect(Jobs(gaps, opinions), end.phases);
            got.Results? && |got.values| == |gaps| && forall i :: 0 <= i < |gaps| ==> got.values[i] == opinions(gaps[i]).review
  {
    var jobs := Jobs(gaps, opinions);
    ResultsInJobOrder(jobs, end);
    AllGiven(jobs);
  }

  lemma ReviewFails<E>(gaps: seq<RequiredChange>, opinions: RequiredChange -> Opinion<E>, end: State) returns (c: RequiredChange)
    requires Reached(Jobs(gaps, opinions), end) && IsShutDown(|gaps|, end)
    requires exists c :: c in gaps && opinions(c).Failed?
    ensures |end.phases| == |gaps| && c in gaps && opinions(c).Failed?
    ensures Collect(Jobs(gaps, opinions), end.phases) == Error(opinions(c).error)
  {
    var jobs := Jobs(gaps, opinions);
    var any :| any in gaps && opinions(any).Failed?;
    var i :| 0 <= i < |gaps| && gaps[i] == any;
    assert jobs[i].Raises?;
    var k := FirstFailureIsRaised(jobs, end);
    c := gaps[k];
  }

  /** Returns the changes less the blocking gaps that are refuted, whatever order
      the reviews ran in; `end` is how the pool of the reviews ended. */
  method ConfirmBlocking<E>(changes: seq<RequiredChange>, opinions: RequiredChange -> Opinion<E>, end: State)
    returns (r: Result<RequiredChange, E>)
    requires Reached(Jobs(DistinctBlocking(changes), opinions), end) && IsShutDown(|DistinctBlocking(changes)|, end)
    ensures r.Error? <==> exists c :: c in changes && c.severity == Blocking && opinions(c).Failed?
    ensures r.Error? ==> exists c :: c in changes && c.severity == Blocking && opinions(c) == Failed(r.error)
    ensures r.Results? ==> r.values == Standing(changes, opinions)
  {
    var gaps := DistinctBlocking(changes);
    if gaps == [] {
      NothingRefuted(changes, opinions);
      return Results(changes);
    }
    ReachedFits(Jobs(gaps, opinions), end);
    var got := Collect(Jobs(gaps, opinions), end.phases);
    if exists c :: c in gaps && opinions(c).Failed? {
      var _ := ReviewFails(gaps, opinions, end);
    } else {
      ReviewsOfGaps(gaps, opinions, end);
    }
    if got.Error? { return Error(got.error); }
    var refuted := Refuted(gaps, got.values);
    WithoutRefuted(changes, refuted, opinions);
    return Results(Without(changes, refuted));
  }
}

module EmDashes {

  datatype EmDashLine = EmDashLine(file: string, line: nat, text: string)

  /** What a line is matched by: not by its number. */
  function Key(line: EmDashLine): (string, string) {
    (line.file, line.text)
  }

  /** Lines are matched when they are of the same file and text. */
  lemma KeyTells(a: EmDashLine, b: EmDashLine)
    ensures Key(a) == Key(b) <==> a.file == b.file && a.text == b.text
  {
  }

  function Keys(lines: seq<EmDashLine>): (keys: seq<(string, string)>)
    ensures |keys| == |lines| && forall i :: 0 <= i < |lines| ==> keys[i] == Key(lines[i])
  {
    seq(|lines|, i requires 0 <= i < |lines| => Key(lines[i]))
  }

  /** Whether as many lines like line `i` come before it as there were in all. */
  predicate IsSurplus(before: seq<EmDashLine>, after: seq<EmDashLine>, i: nat)
    requires i < |after|
  {
    multiset(Keys(after[..i]))[Key(after[i])] >= multiset(Keys(before))[Key(after[i])]
  }

  /** The surplus lines among the first `n`, in order. */
  function Surplus(before: seq<EmDashLine>, after: seq<EmDashLine>, n: nat): seq<EmDashLine>
    requires n <= |after|
  {
    if n == 0 then [] else Surplus(before, after, n - 1) + if IsSurplus(before, after, n - 1) then [after[n - 1]] else []
  }

  lemma KeysSnoc(lines: seq<EmDashLine>, line: EmDashLine)
    ensures multiset(Keys(lines + [line])) == multiset(Keys(lines)) + multiset{Key(line)}
  {
    assert Keys(lines + [line]) == Keys(lines) + [Key(line)];
  }

  /** One more `k` on the left counts in the difference once the right has no more. */
  lemma DifferenceSnoc(a: multiset<(string, string)>, b: multiset<(string, string)>, k: (string, string))
    ensures (a + multiset{k}) - b == (a - b) + if a[k] >= b[k] then multiset{k} else multiset{}
    ensures b - (a + multiset{k}) == if a[k] >= b[k] then b - a else (b - a)[k := (b - a)[k] - 1]
    ensures (b - a)[k] > 0 <==> a[k] < b[k]
  {
  }

  /** The surplus is the difference of the two as multisets. */
  lemma {:induction false} SurplusIsDifference(before: seq<EmDashLine>, after: seq<EmDashLine>, n: nat)
    requires n <= |after|
    ensures multiset(Keys(Surplus(before, after, n))) == multiset(Keys(after[..n])) - multiset(Keys(before))
  {
    if n == 0 {
      assert Keys(after[..0]) == [];
    } else {
      SurplusIsDifference(before, after, n - 1);
      var less, line := Surplus(before, after, n - 1), after[n - 1];
      assert after[..n] == after[..n - 1] + [line];
      KeysSnoc(after[..n - 1], line);
      DifferenceSnoc(multiset(Keys(after[..n - 1])), multiset(Keys(before)), Key(line));
      if IsSurplus(before, after, n - 1) {
        KeysSnoc(less, line);
      } else {
        assert Surplus(before, after, n) == less;
      }
    }
  }

  /** The lines added: no more and no fewer of each than `after` has over `before`. */
  method AddedEmDashLines(before: seq<EmDashLine>, after: seq<EmDashLine>) returns (added: seq<EmDashLine>)
    ensures added == Surplus(before, after, |after|)
    ensures multiset(Keys(added)) == multiset(Keys(after)) - multiset(Keys(before))
    ensures added == [] <==> multiset(Keys(after)) <= multiset(Keys(before))
  {
    var existing := multiset(Keys(before));
    added := [];
    for i := 0 to |after|
      invariant existing == multiset(Keys(before)) - multiset(Keys(after[..i]))
      invariant added == Surplus(before, after, i)
    {
      var key := Key(after[i]);
      assert after[..i + 1] == after[..i] + [after[i]];
      KeysSnoc(after[..i], after[i]);
      DifferenceSnoc(multiset(Keys(after[..i])), multiset(Keys(before)), key);
      if existing[key] > 0 {
        existing := existing[key := existing[key] - 1];
      } else {
        added := added + [after[i]];
      }
    }
    SurplusTells(before, after);
  }

  lemma SurplusTells(before: seq<EmDashLine>, after: seq<EmDashLine>)
    ensures var added := Surplus(before, after, |after|);
            && multiset(Keys(added)) == multiset(Keys(after)) - multiset(Keys(before))
            && (added == [] <==> multiset(Keys(after)) <= multiset(Keys(before)))
  {
    assert after[..|after|] == after;
    SurplusIsDifference(before, after, |after|);
    EmptyIsContained(multiset(Keys(after)), multiset(Keys(before)));
    assert Surplus(before, after, |after|) == [] <==> |Keys(Surplus(before, after, |after|))| == 0;
  }

  lemma EmptyIsContained(a: multiset<(string, string)>, b: multiset<(string, string)>)
    ensures a - b == multiset{} <==> a <= b
  {
    if a - b == multiset{} {
      forall x ensures a[x] <= b[x] {
        assert (a - b)[x] == 0;
      }
    }
  }

  /** Lines that only moved: whatever their order and numbers, none is added. */
  lemma PureMoveAddsNone(before: seq<EmDashLine>, after: seq<EmDashLine>)
    requires multiset(Keys(after)) == multiset(Keys(before))
    ensures Surplus(before, after, |after|) == []
  {
    SurplusIsDifference(before, after, |after|);
    assert after[..|after|] == after;
    EmptyIsContained(multiset(Keys(after)), multiset(Keys(before)));
    assert |Keys(Surplus(before, after, |after|))| == 0;
  }
}
