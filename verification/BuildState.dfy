/** The build-state marker of the shared binding cache
    (crates/generator-internal/build.rs, src/generator/python/scaffold.rs). */
module BuildStates {
  import opened Wrappers

  /** What a binding was built from. */
  datatype Source = Source(hash: string, profile: string)
  type BuildState = map<string, Source>

  predicate IsClean(s: string) {
    '\t' !in s && '\n' !in s
  }

  ghost predicate IsCleanState(state: BuildState) {
    forall p :: p in state ==> IsClean(p) && IsClean(state[p].hash) && IsClean(state[p].profile)
  }

  /** The keys of the state, each once: the map is written in the order of its keys. */
  ghost predicate Lists(order: seq<string>, state: BuildState) {
    && (forall p :: p in order <==> p in state)
    && forall i, j :: 0 <= i < j < |order| ==> order[i] != order[j]
  }

  // --- Writing ---

  function SourceText(source: Source): string {
    source.hash + ['\t'] + source.profile
  }

  function Record(platform: string, source: Source): string {
    platform + ['\t'] + SourceText(source)
  }

  function Line(platform: string, source: Source): string {
    Record(platform, source) + ['\n']
  }

  /** The body of the marker. */
  function Marker(order: seq<string>, state: BuildState): string
    requires forall p :: p in order ==> p in state
  {
    if order == [] then "" else Line(order[0], state[order[0]]) + Marker(order[1..], state)
  }

  // --- Reading ---

  function Until(s: string, c: char): (n: nat)
    ensures n <= |s| && c !in s[..n] && (n < |s| ==> s[n] == c)
  {
    if s == "" || s[0] == c then 0 else 1 + Until(s[1..], c)
  }

  function WithoutReturn(line: string): string {
    if line != "" && line[|line| - 1] == '\r' then line[..|line| - 1] else line
  }

  /** `str::lines`. */
  function Lines(s: string): seq<string>
    decreases |s|
  {
    if s == "" then []
    else
      var n := Until(s, '\n');
      if n == |s| then [s] else [WithoutReturn(s[..n])] + Lines(s[n + 1..])
  }

  /** The first two fields between tabs, when there are two. */
  function ParseSource(rest: string): Option<Source> {
    var n := Until(rest, '\t');
    if n == |rest| then None
    else
      var last := rest[n + 1..];
      Some(Source(rest[..n], last[..Until(last, '\t')]))
  }

  /** The first three fields between tabs, when there are three. */
  function ParseRecord(line: string): Option<(string, Source)> {
    var n := Until(line, '\t');
    if n == |line| then None
    else
      var source := ParseSource(line[n + 1..]);
      if source.None? then None else Some((line[..n], source.value))
  }

  /** The records of the lines, a later one over an earlier one of the same platform. */
  function Collect(lines: seq<string>): BuildState {
    if lines == [] then map[]
    else
      var state := Collect(lines[..|lines| - 1]);
      var record := ParseRecord(lines[|lines| - 1]);
      if record.Some? then state[record.value.0 := record.value.1] else state
  }

  /** A marker that is missing, or holds no record, reads as nothing built. */
  function ReadBuildState(marker: Option<string>): BuildState {
    if marker.None? then map[] else Collect(Lines(marker.value))
  }

  // --- Reading what was written ---

  lemma {:induction false} UntilFirst(a: string, b: string, c: char)
    requires c !in a
    ensures Until(a + [c] + b, c) == |a| && (a + [c] + b)[..|a|] == a && (a + [c] + b)[|a| + 1..] == b
  {
    if a != "" {
      assert (a + [c] + b)[1..] == a[1..] + [c] + b;
      UntilFirst(a[1..], b, c);
    }
  }

  lemma {:induction false} UntilNever(a: string, c: char)
    requires c !in a
    ensures Until(a, c) == |a|
  {
    if a != "" { UntilNever(a[1..], c); }
  }

  lemma ParseOfSource(source: Source)
    requires IsClean(source.hash) && IsClean(source.profile)
    ensures ParseSource(SourceText(source)) == Some(source)
  {
    UntilFirst(source.hash, source.profile, '\t');
    UntilNever(source.profile, '\t');
    assert source.profile[..|source.profile|] == source.profile;
  }

  lemma ParseOfRecord(platform: string, source: Source)
    requires IsClean(platform) && IsClean(source.hash) && IsClean(source.profile)
    ensures ParseRecord(Record(platform, source)) == Some((platform, source))
  {
    UntilFirst(platform, SourceText(source), '\t');
    ParseOfSource(source);
  }

  /** Any text is read line by line: up to a newline, less a carriage return before it,
      and what follows the last newline as it is. */
  lemma LinesOfText(first: string, rest: string)
    requires '\n' !in first
    ensures Lines("") == []
    ensures Lines(first + ['\n'] + rest) == [WithoutReturn(first)] + Lines(rest)
    ensures first != "" ==> Lines(first) == [first]
  {
    UntilFirst(first, rest, '\n');
    UntilNever(first, '\n');
  }

  /** What a line holds beyond its third field. */
  ghost predicate IsMore(more: string) {
    more == "" || more[0] == '\t'
  }

  lemma {:induction false} UntilStops(a: string, more: string, c: char)
    requires c !in a && (more == "" || more[0] == c)
    ensures Until(a + more, c) == |a|
  {
    if a == "" {
      assert a + more == more;
    } else {
      assert (a + more)[1..] == a[1..] + more;
      UntilStops(a[1..], more, c);
    }
  }

  lemma SplitAt(s: string, c: char)
    requires Until(s, c) < |s|
    ensures s == s[..Until(s, c)] + [c] + s[Until(s, c) + 1..]
  {
  }

  lemma TakeAndDrop(s: string, n: nat)
    requires n <= |s|
    ensures s == s[..n] + s[n..]
  {
  }

  lemma SourceHasFields(rest: string, source: Source) returns (more: string)
    requires ParseSource(rest) == Some(source)
    ensures '\t' !in source.hash && '\t' !in source.profile && IsMore(more) && rest == SourceText(source) + more
  {
    SplitAt(rest, '\t');
    var last := rest[Until(rest, '\t') + 1..];
    more := last[Until(last, '\t')..];
    TakeAndDrop(last, Until(last, '\t'));
    Associates(source.hash + ['\t'], source.profile, more);
  }

  lemma RecordHasFields(line: string, p: string, source: Source) returns (more: string)
    requires ParseRecord(line) == Some((p, source))
    ensures '\t' !in p && '\t' !in source.hash && '\t' !in source.profile && IsMore(more) && line == Record(p, source) + more
  {
    SplitAt(line, '\t');
    more := SourceHasFields(line[Until(line, '\t') + 1..], source);
    Associates(p + ['\t'], SourceText(source), more);
  }

  lemma FieldsAreSource(source: Source, more: string)
    requires '\t' !in source.hash && '\t' !in source.profile && IsMore(more)
    ensures ParseSource(SourceText(source) + more) == Some(source)
  {
    var last := source.profile + more;
    Associates(source.hash + ['\t'], source.profile, more);
    UntilFirst(source.hash, last, '\t');
    UntilStops(source.profile, more, '\t');
  }

  lemma FieldsAreRecord(p: string, source: Source, more: string)
    requires '\t' !in p && '\t' !in source.hash && '\t' !in source.profile && IsMore(more)
    ensures ParseRecord(Record(p, source) + more) == Some((p, source))
  {
    var rest := SourceText(source) + more;
    Associates(p + ['\t'], SourceText(source), more);
    UntilFirst(p, rest, '\t');
    FieldsAreSource(source, more);
  }

  /** A line is a record exactly when it has three fields between tabs or more, and it
      is that of the first three. */
  lemma ParsesExactly(line: string, p: string, source: Source)
    ensures ParseRecord(line) == Some((p, source)) <==>
              && '\t' !in p && '\t' !in source.hash && '\t' !in source.profile
              && exists more :: IsMore(more) && line == Record(p, source) + more
  {
    if ParseRecord(line) == Some((p, source)) {
      var _ := RecordHasFields(line, p, source);
    }
    if more :| IsMore(more) && line == Record(p, source) + more {
      if '\t' !in p && '\t' !in source.hash && '\t' !in source.profile { FieldsAreRecord(p, source, more); }
    }
  }

  /** Of the records of a platform the last is read, wherever it stands: lines that are
      none are passed over. */
  lemma {:induction false} LastRecordIsRead(lines: seq<string>, k: nat, p: string, source: Source)
    requires k < |lines| && ParseRecord(lines[k]) == Some((p, source))
    requires forall i :: k < i < |lines| ==> ParseRecord(lines[i]).None? || ParseRecord(lines[i]).value.0 != p
    ensures p in Collect(lines) && Collect(lines)[p] == source
  {
    if k + 1 < |lines| { LastRecordIsRead(lines[..|lines| - 1], k, p, source); }
  }

  lemma {:induction false} NoRecordIsRead(lines: seq<string>, p: string)
    requires forall i :: 0 <= i < |lines| ==> ParseRecord(lines[i]).None? || ParseRecord(lines[i]).value.0 != p
    ensures p !in Collect(lines)
  {
    if lines != [] { NoRecordIsRead(lines[..|lines| - 1], p); }
  }

  function Records(order: seq<string>, state: BuildState): (records: seq<string>)
    requires forall p :: p in order ==> p in state
    ensures |records| == |order|
  {
    seq(|order|, i requires 0 <= i < |order| => Record(order[i], state[order[i]]))
  }

  lemma FirstRecord(order: seq<string>, state: BuildState)
    requires order != [] && forall p :: p in order ==> p in state
    ensures Records(order, state) == [Record(order[0], state[order[0]])] + Records(order[1..], state)
  {
  }

  /** What the reader makes of a pair: a carriage return at the end of the profile,
      which is the end of the line, is taken for a part of the line break. */
  function Stripped(source: Source): Source {
    source.(profile := WithoutReturn(source.profile))
  }

  function StrippedState(state: BuildState): BuildState {
    map p | p in state :: Stripped(state[p])
  }

  lemma RecordStripped(platform: string, source: Source)
    ensures WithoutReturn(Record(platform, source)) == Record(platform, Stripped(source))
  {
    var record, profile := Record(platform, source), source.profile;
    if profile == "" {
      assert record[|record| - 1] == '\t';
    } else {
      assert record[|record| - 1] == profile[|profile| - 1];
    }
  }

  lemma RecordIsOneLine(platform: string, source: Source, rest: string)
    requires IsClean(platform) && IsClean(source.hash) && IsClean(source.profile)
    ensures '\n' !in Record(platform, source)
    ensures Lines(Line(platform, source) + rest) == [Record(platform, Stripped(source))] + Lines(rest)
  {
    UntilFirst(Record(platform, source), rest, '\n');
    RecordStripped(platform, source);
  }

  lemma {:induction false} LinesOfMarker(order: seq<string>, state: BuildState)
    requires IsCleanState(state) && forall p :: p in order ==> p in state
    ensures Lines(Marker(order, state)) == Records(order, StrippedState(state))
  {
    if order != [] {
      LinesOfMarker(order[1..], state);
      RecordIsOneLine(order[0], state[order[0]], Marker(order[1..], state));
      FirstRecord(order, StrippedState(state));
    }
  }

  /** The part of the state the first `n` keys are of. */
  function Part(order: seq<string>, state: BuildState, n: nat): BuildState
    requires n <= |order| && forall p :: p in order ==> p in state
  {
    if n == 0 then map[] else Part(order, state, n - 1)[order[n - 1] := state[order[n - 1]]]
  }

  lemma {:induction false} PartHolds(order: seq<string>, state: BuildState, n: nat)
    requires n <= |order| && forall p :: p in order ==> p in state
    ensures forall p :: p in Part(order, state, n) <==> p in order[..n]
    ensures forall p :: p in Part(order, state, n) ==> p in state && Part(order, state, n)[p] == state[p]
  {
    if n > 0 {
      PartHolds(order, state, n - 1);
      assert order[..n] == order[..n - 1] + [order[n - 1]];
    }
  }

  lemma WholePart(order: seq<string>, state: BuildState)
    requires Lists(order, state)
    ensures Part(order, state, |order|) == state
  {
    PartHolds(order, state, |order|);
    assert order[..|order|] == order;
  }

  lemma CollectNext(lines: seq<string>, n: nat, p: string, source: Source)
    requires n < |lines| && ParseRecord(lines[n]) == Some((p, source))
    ensures Collect(lines[..n + 1]) == Collect(lines[..n])[p := source]
  {
    assert lines[..n + 1][..n] == lines[..n];
  }

  /** Line `i` reads as the record of platform `i`. */
  ghost predicate Reads(lines: seq<string>, order: seq<string>, state: BuildState, i: nat)
    requires i < |lines| == |order|
  {
    order[i] in state && ParseRecord(lines[i]) == Some((order[i], state[order[i]]))
  }

  lemma {:induction false} CollectOfRecords(lines: seq<string>, order: seq<string>, state: BuildState, n: nat)
    requires |lines| == |order| && (forall p :: p in order ==> p in state) && n <= |order|
    requires forall i :: 0 <= i < |order| ==> Reads(lines, order, state, i)
    ensures Collect(lines[..n]) == Part(order, state, n)
  {
    if n > 0 {
      CollectOfRecords(lines, order, state, n - 1);
      assert Reads(lines, order, state, n - 1);
      CollectNext(lines, n - 1, order[n - 1], state[order[n - 1]]);
    }
  }

  lemma RecordsRead(order: seq<string>, state: BuildState, i: nat)
    requires IsCleanState(state) && (forall p :: p in order ==> p in state) && i < |order|
    ensures Reads(Records(order, state), order, state, i)
  {
    ParseOfRecord(order[i], state[order[i]]);
  }

  /** A marker reads as the state it was written from, whatever the order of its keys,
      up to a carriage return at the end of a profile. */
  lemma ReadOfMarker(order: seq<string>, state: BuildState)
    requires IsCleanState(state) && Lists(order, state)
    ensures ReadBuildState(Some(Marker(order, state))) == StrippedState(state)
  {
    var read := StrippedState(state);
    var lines := Records(order, read);
    LinesOfMarker(order, state);
    forall i | 0 <= i < |order| ensures Reads(lines, order, read, i) {
      RecordsRead(order, read, i);
    }
    CollectOfRecords(lines, order, read, |order|);
    WholePart(order, read);
    assert lines[..|order|] == lines;
  }

  predicate EndsInReturn(s: string) {
    s != "" && s[|s| - 1] == '\r'
  }

  /** Of strings without tab and newline: reading a marker gives back the state that was
      written exactly when no profile ends in a carriage return. */
  lemma ReadsBackExactly(order: seq<string>, state: BuildState)
    requires IsCleanState(state) && Lists(order, state)
    ensures ReadBuildState(Some(Marker(order, state))) == state <==> forall p :: p in state ==> !EndsInReturn(state[p].profile)
  {
    ReadOfMarker(order, state);
    if StrippedState(state) == state {
      forall p | p in state ensures !EndsInReturn(state[p].profile) {
        assert StrippedState(state)[p] == Stripped(state[p]);
      }
    }
  }

  // --- The record of an embedded binding ---

  /** `line` stands in `marker` at the start of a line. */
  ghost predicate StandsAt(marker: string, line: string, start: nat) {
    && start + |line| <= |marker| && marker[start..start + |line|] == line
    && (start == 0 || marker[start - 1] == '\n')
  }

  ghost predicate IsRecorded(marker: string, line: string) {
    exists start :: StandsAt(marker, line, start)
  }

  /** Whether the marker holds the line at the start of one of its own. */
  method BuildStateRecords(marker: string, line: string) returns (found: bool)
    ensures found <==> line != "" && IsRecorded(marker, line)
  {
    if line == "" || |line| > |marker| { return false; }
    var start := 0;
    while start + |line| <= |marker|
      invariant 0 <= start && forall k :: 0 <= k < start ==> !StandsAt(marker, line, k)
    {
      if start == 0 || marker[start - 1] == '\n' {
        var offset := 0;
        while offset < |line| && marker[start + offset] == line[offset]
          invariant 0 <= offset <= |line| && marker[start..start + offset] == line[..offset]
        {
          offset := offset + 1;
        }
        if offset == |line| {
          assert StandsAt(marker, line, start);
          return true;
        }
        assert marker[start..start + |line|][offset] != line[offset];
      }
      start := start + 1;
    }
    return false;
  }

  lemma SameFirstLine(a: string, b: string, s: string, t: string)
    requires '\n' !in a && '\n' !in b && a + ['\n'] + s == b + ['\n'] + t
    ensures a == b && s == t
  {
    UntilFirst(a, s, '\n');
    UntilFirst(b, t, '\n');
  }

  lemma LineInjective(p: string, x: Source, q: string, y: Source)
    requires IsClean(p) && IsClean(x.hash) && IsClean(x.profile) && IsClean(q) && IsClean(y.hash) && IsClean(y.profile)
    requires Line(p, x) == Line(q, y)
    ensures p == q && x == y
  {
    assert Record(p, x) == Line(p, x)[..|Line(p, x)| - 1] == Record(q, y);
    ParseOfRecord(p, x);
    ParseOfRecord(q, y);
  }

  lemma FoundFirst(p: string, x: Source, q: string, y: Source, rest: string)
    requires IsClean(p) && IsClean(x.hash) && IsClean(x.profile) && IsClean(q) && IsClean(y.hash) && IsClean(y.profile)
    requires StandsAt(Line(q, y) + rest, Line(p, x), 0)
    ensures p == q && x == y
  {
    var marker := Line(q, y) + rest;
    var after := marker[|Line(p, x)|..];
    RecordIsOneLine(q, y, rest);
    RecordIsOneLine(p, x, after);
    assert marker == Line(p, x) + after;
    SameFirstLine(Record(p, x), Record(q, y), after, rest);
    LineInjective(p, x, q, y);
  }

  lemma FoundLater(line: string, first: string, rest: string, start: nat)
    requires '\n' !in first && start > 0 && StandsAt(first + ['\n'] + rest, line, start)
    ensures start > |first| && StandsAt(rest, line, start - |first| - 1)
  {
    var marker := first + ['\n'] + rest;
    assert forall i :: 0 <= i < |first| ==> marker[i] == first[i];
    var k := start - |first| - 1;
    assert marker[start..start + |line|] == rest[k..k + |line|];
    assert k > 0 ==> marker[start - 1] == rest[k - 1];
  }

  /** A whole line found at the start of a line of the marker is a record of it. */
  lemma {:induction false} FoundIsRecorded(order: seq<string>, state: BuildState, p: string, source: Source, start: nat)
    requires IsCleanState(state) && forall q :: q in order ==> q in state
    requires IsClean(p) && IsClean(source.hash) && IsClean(source.profile)
    requires StandsAt(Marker(order, state), Line(p, source), start)
    ensures p in order && state[p] == source
  {
    var q := order[0];
    var rest := Marker(order[1..], state);
    if start == 0 {
      FoundFirst(p, source, q, state[q], rest);
    } else {
      RecordIsOneLine(q, state[q], rest);
      FoundLater(Line(p, source), Record(q, state[q]), rest, start);
      FoundIsRecorded(order[1..], state, p, source, start - |Record(q, state[q])| - 1);
    }
  }

  lemma StandsLater(line: string, first: string, rest: string, k: nat)
    requires first != "" && first[|first| - 1] == '\n' && StandsAt(rest, line, k)
    ensures StandsAt(first + rest, line, |first| + k)
  {
    var start := |first| + k;
    assert (first + rest)[start..start + |line|] == rest[k..k + |line|];
    assert (first + rest)[start - 1] == if k == 0 then first[|first| - 1] else rest[k - 1];
  }

  lemma {:induction false} RecordedIsFound(order: seq<string>, state: BuildState, i: nat) returns (start: nat)
    requires (forall q :: q in order ==> q in state) && i < |order|
    ensures StandsAt(Marker(order, state), Line(order[i], state[order[i]]), start)
  {
    if i == 0 {
      start := 0;
    } else {
      var first, rest := Line(order[0], state[order[0]]), Marker(order[1..], state);
      var k := RecordedIsFound(order[1..], state, i - 1);
      StandsLater(Line(order[i], state[order[i]]), first, rest, k);
      start := |first| + k;
    }
  }

  /** The marker records a line exactly when it was written for that platform and
      that pair: it stops doing so as soon as the recorded pair changes. */
  lemma MarkerRecordsExactly(order: seq<string>, state: BuildState, p: string, source: Source)
    requires IsCleanState(state) && Lists(order, state)
    requires IsClean(p) && IsClean(source.hash) && IsClean(source.profile)
    ensures IsRecorded(Marker(order, state), Line(p, source)) <==> p in state && state[p] == source
  {
    if start :| StandsAt(Marker(order, state), Line(p, source), start) {
      FoundIsRecorded(order, state, p, source, start);
    }
    if p in state && state[p] == source {
      var i :| 0 <= i < |order| && order[i] == p;
      var start := RecordedIsFound(order, state, i);
      assert StandsAt(Marker(order, state), Line(p, source), start);
    }
  }

  // --- From the build that embeds to the build that checks ---

  /** The bindings that are embedded, in order. */
  function Embedded(platforms: seq<string>, excluded: set<string>): seq<string> {
    if platforms == [] then []
    else
      var last := platforms[|platforms| - 1];
      Embedded(platforms[..|platforms| - 1], excluded) + if last in excluded then [] else [last]
  }

  /** Exactly the platforms that are not excluded, each as often as there is a file of it. */
  lemma {:induction false} EmbeddedHolds(platforms: seq<string>, excluded: set<string>, p: string)
    ensures multiset(Embedded(platforms, excluded))[p] == if p in excluded then 0 else multiset(platforms)[p]
  {
    if platforms != [] {
      var front := platforms[..|platforms| - 1];
      EmbeddedHolds(front, excluded, p);
      assert platforms == front + [platforms[|platforms| - 1]];
    }
  }

  /** The order of the files is kept. */
  lemma {:induction false} EmbeddedAppends(a: seq<string>, b: seq<string>, excluded: set<string>)
    ensures Embedded(a + b, excluded) == Embedded(a, excluded) + Embedded(b, excluded)
  {
    if b == [] {
      assert a + b == a;
    } else {
      var n := |b| - 1;
      assert (a + b)[..|a| + n] == a + b[..n];
      EmbeddedAppends(a, b[..n], excluded);
    }
  }

  /** The provenance lines of the bindings that are embedded, one each and in order;
      none when a binding has no recorded state. */
  method Provenance(platforms: seq<string>, excluded: set<string>, state: BuildState) returns (lines: Option<seq<string>>)
    ensures lines.None? <==> exists p :: p in platforms && p !in excluded && p !in state
    ensures lines.Some? ==> |lines.value| == |Embedded(platforms, excluded)|
    ensures lines.Some? ==> forall i :: 0 <= i < |lines.value| ==>
              var p := Embedded(platforms, excluded)[i]; p in state && lines.value[i] == Line(p, state[p])
  {
    var provenance: seq<string> := [];
    for i := 0 to |platforms|
      invariant forall p :: p in platforms[..i] && p !in excluded ==> p in state
      invariant |provenance| == |Embedded(platforms[..i], excluded)|
      invariant forall k :: 0 <= k < |provenance| ==>
                  var p := Embedded(platforms[..i], excluded)[k]; p in state && provenance[k] == Line(p, state[p])
    {
      var p := platforms[i];
      assert platforms[..i + 1][..i] == platforms[..i];
      if p in excluded { continue; }
      if p !in state { return None; }
      provenance := provenance + [Line(p, state[p])];
    }
    assert platforms[..|platforms|] == platforms;
    return Some(provenance);
  }

  /** Passes the bindings a release is about to embed, exactly when there are some and
      each is recorded as built from the current sources. */
  method VerifyPrebuiltSo(platforms: seq<string>, marker: Option<string>, current: string) returns (state: Option<BuildState>)
    ensures state.Some? <==> platforms != [] && forall p :: p in platforms ==> p in ReadBuildState(marker) && ReadBuildState(marker)[p].hash == current
    ensures state.Some? ==> state.value == ReadBuildState(marker)
  {
    var recorded := ReadBuildState(marker);
    if platforms == [] { return None; }
    for i := 0 to |platforms|
      invariant forall k :: 0 <= k < i ==> platforms[k] in recorded && recorded[platforms[k]].hash == current
    {
      if platforms[i] !in recorded || recorded[platforms[i]].hash != current { return None; }
    }
    return Some(recorded);
  }

  /** From the marker the producing build wrote to the release that embeds: what is
      verified against that marker was built, by its own record, from the current
      sources, and its provenance line is a line of the marker. */
  lemma VerifiedIsRecorded(platforms: seq<string>, order: seq<string>, state: BuildState, current: string, p: string)
    requires IsCleanState(state) && Lists(order, state) && p in platforms
    requires forall q :: q in platforms ==>
               q in ReadBuildState(Some(Marker(order, state))) && ReadBuildState(Some(Marker(order, state)))[q].hash == current
    ensures p in state && state[p].hash == current
    ensures IsRecorded(Marker(order, state), Line(p, Source(current, state[p].profile)))
  {
    ReadOfMarker(order, state);
    MarkerRecordsExactly(order, state, p, state[p]);
  }

  /** The check of a later build against the marker as it is then: it passes exactly
      when every embedded binding is still recorded with the pair it was built from. */
  method CheckEmbedded(ghost order: seq<string>, ghost later: BuildState, marker: string,
                       ghost embedded: seq<string>, ghost state: BuildState, provenance: seq<string>) returns (ok: bool)
    requires IsCleanState(later) && Lists(order, later) && marker == Marker(order, later) && IsCleanState(state)
    requires |provenance| == |embedded|
    requires forall i :: 0 <= i < |embedded| ==> embedded[i] in state && provenance[i] == Line(embedded[i], state[embedded[i]])
    ensures ok <==> forall p :: p in embedded ==> p in later && later[p] == state[p]
  {
    for index := 0 to |provenance|
      invariant forall i :: 0 <= i < index ==> embedded[i] in later && later[embedded[i]] == state[embedded[i]]
    {
      var found := BuildStateRecords(marker, provenance[index]);
      MarkerRecordsExactly(order, later, embedded[index], state[embedded[index]]);
      if !found { return false; }
    }
    return true;
  }
}
