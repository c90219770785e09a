/** Splitting a code diff for the docs check (scripts/functions/docs.py). */
module Text {

  function Join(parts: seq<string>): string {
    if parts == [] then "" else parts[0] + Join(parts[1..])
  }

  lemma {:induction false} JoinAppends(a: seq<string>, b: seq<string>)
    ensures Join(a + b) == Join(a) + Join(b)
  {
    if a == [] {
      assert a + b == b;
    } else {
      assert (a + b)[1..] == a[1..] + b;
      JoinAppends(a[1..], b);
    }
  }

  lemma JoinOne(s: string)
    ensures Join([s]) == s
  {
    assert [s][1..] == [];
  }

  lemma JoinSnoc(a: seq<string>, s: string)
    ensures Join(a + [s]) == Join(a) + s
  {
    JoinAppends(a, [s]);
    JoinOne(s);
  }

  predicate IsPrefix(p: string, s: string) {
    |p| <= |s| && s[..|p|] == p
  }

  /** The characters `str.splitlines` ends a line at. */
  predicate IsLineBreak(c: char) {
    c in {'\n', '\r', '\U{000B}', '\U{000C}', '\U{001C}', '\U{001D}', '\U{001E}', '\U{0085}', '\U{2028}', '\U{2029}'}
  }

  /** How long the first line is, its ending included. */
  function FirstLine(s: string): (n: nat)
    requires s != ""
    ensures 1 <= n <= |s|
  {
    if s[0] == '\r' && |s| > 1 && s[1] == '\n' then 2
    else if IsLineBreak(s[0]) || |s| == 1 then 1
    else 1 + FirstLine(s[1..])
  }

  /** Where the first line ends: at the first line break, the two characters of a carriage
      return and a newline being one, or at the end. */
  lemma {:induction false} FirstLineEnds(s: string)
    requires s != ""
    ensures var n := FirstLine(s);
            && (forall k :: 0 <= k < n - 1 ==> !IsLineBreak(s[k]) || (k == n - 2 && s[k] == '\r' && s[k + 1] == '\n'))
            && (n < |s| ==> IsLineBreak(s[n - 1]) && !(s[n - 1] == '\r' && s[n] == '\n'))
  {
    if !IsLineBreak(s[0]) && |s| > 1 {
      FirstLineEnds(s[1..]);
      var n := FirstLine(s);
      forall k | 0 <= k < n - 1 ensures !IsLineBreak(s[k]) || (k == n - 2 && s[k] == '\r' && s[k + 1] == '\n') {
        if k > 0 { assert s[1..][k - 1] == s[k] && s[1..][k] == s[k + 1]; }
      }
      if n < |s| { assert s[1..][n - 2] == s[n - 1] && s[1..][n - 1] == s[n]; }
    }
  }

  /** `str.splitlines(keepends=True)`. */
  function SplitLines(s: string): (lines: seq<string>)
    ensures forall i :: 0 <= i < |lines| ==> lines[i] != ""
  {
    if s == "" then [] else [s[..FirstLine(s)]] + SplitLines(s[FirstLine(s)..])
  }

  lemma {:induction false} JoinOfLines(s: string)
    ensures Join(SplitLines(s)) == s
  {
    if s != "" {
      JoinOfLines(s[FirstLine(s)..]);
      assert SplitLines(s)[1..] == SplitLines(s[FirstLine(s)..]);
    }
  }
}

module DiffSplit {
  import opened Text
  import opened Wrappers

  datatype Section = Section(path: string, text: string)
  datatype DiffPart = DiffPart(text: string, paths: seq<string>)

  /** `NoHeader` is the release error of a diff that does not open with a header,
      `NoStep` the error of a `range` whose step is zero. */
  datatype Result<+T> = Ok(value: T) | NoHeader | NoStep

  // --- The files of a diff ---

  datatype Header = Header(start: nat, path: string)

  /** Where the line that starts at `from` ends, its newline left out. */
  function LineEnd(diff: string, from: nat): (end: nat)
    requires from <= |diff|
    ensures from <= end <= |diff|
    decreases |diff| - from
  {
    if from == |diff| || diff[from] == '\n' then from else LineEnd(diff, from + 1)
  }

  /** Where the new side's path starts in what follows `a/`: past the first
      blank followed by `b/`, a quote before it allowed. */
  function NewSide(rest: string): (path: string)
    ensures |path| <= |rest|
  {
    if rest == "" then ""
    else if IsPrefix(" b/", rest) then rest[3..]
    else if IsPrefix(" \"b/", rest) then rest[4..]
    else NewSide(rest[1..])
  }

  predicate HasNewSide(rest: string) {
    rest != "" && (IsPrefix(" b/", rest) || IsPrefix(" \"b/", rest) || HasNewSide(rest[1..]))
  }

  function AfterOldSide(line: string): string
    requires IsPrefix("diff --git a/", line) || IsPrefix("diff --git \"a/", line)
  {
    if IsPrefix("diff --git a/", line) then line[13..] else line[14..]
  }

  /** Whether a line is one the `diff --git` pattern matches. */
  predicate IsHeaderLine(line: string) {
    (IsPrefix("diff --git a/", line) || IsPrefix("diff --git \"a/", line)) && HasNewSide(AfterOldSide(line))
  }

  /** The path the pattern captures, a closing quote left out. */
  function HeaderPath(line: string): string
    requires IsHeaderLine(line)
  {
    var path := NewSide(AfterOldSide(line));
    if path != "" && path[|path| - 1] == '\"' then path[..|path| - 1] else path
  }

  /** The path the pattern captures of a line, when it matches. */
  function PathOf(line: string): Option<string> {
    if IsHeaderLine(line) then Some(HeaderPath(line)) else None
  }

  function LineAt(diff: string, k: nat): string
    requires k <= |diff|
  {
    diff[k..LineEnd(diff, k)]
  }

  predicate IsLineStart(diff: string, k: nat) {
    k == 0 || (k <= |diff| && diff[k - 1] == '\n')
  }

  /** The match at a place, when the pattern, which is bound to the start of a line, matches there. */
  function HeaderAt(diff: string, k: nat): Option<string> {
    if k < |diff| && IsLineStart(diff, k) then PathOf(LineAt(diff, k)) else None
  }

  /** The places before `n` something is found at, in order. */
  function Found(n: nat, at: nat -> Option<string>): seq<Header> {
    if n == 0 then []
    else Found(n - 1, at) + match at(n - 1) { case Some(path) => [Header(n - 1, path)] case None => [] }
  }

  /** Every match of the header pattern. A match ends with its line, so none overlaps another. */
  function Headers(diff: string): seq<Header> {
    Found(|diff|, (k: nat) => HeaderAt(diff, k))
  }

  lemma {:induction false} FoundHolds(n: nat, at: nat -> Option<string>, h: Header)
    ensures h in Found(n, at) <==> h.start < n && at(h.start) == Some(h.path)
  {
    if n > 0 { FoundHolds(n - 1, at, h); }
  }

  ghost predicate InOrder(headers: seq<Header>, end: nat) {
    && (forall i :: 0 <= i < |headers| ==> headers[i].start < end)
    && (forall i, j :: 0 <= i < j < |headers| ==> headers[i].start < headers[j].start)
  }

  lemma {:induction false} FoundInOrder(n: nat, at: nat -> Option<string>)
    ensures InOrder(Found(n, at), n)
  {
    if n > 0 { FoundInOrder(n - 1, at); }
  }

  lemma {:induction false} FoundOnce(n: nat, at: nat -> Option<string>, path: string)
    requires n > 0 && at(0) == Some(path) && forall k :: 0 < k < n ==> at(k) == None
    ensures Found(n, at) == [Header(0, path)]
  {
    if n > 1 { FoundOnce(n - 1, at, path); }
  }

  /** The headers stand in order, each before the end. */
  lemma HeadersInOrder(diff: string)
    ensures InOrder(Headers(diff), |diff|)
  {
    FoundInOrder(|diff|, (k: nat) => HeaderAt(diff, k));
  }

  /** The files of a diff: one starts at a place exactly when that is the start of a line
      the pattern matches, and its path is the one the line names. */
  lemma HeadersExactly(diff: string, h: Header)
    ensures h in Headers(diff) <==>
              && h.start < |diff| && IsLineStart(diff, h.start)
              && IsHeaderLine(LineAt(diff, h.start)) && HeaderPath(LineAt(diff, h.start)) == h.path
  {
    FoundHolds(|diff|, (k: nat) => HeaderAt(diff, k), h);
  }

  function SectionEnd(diff: string, headers: seq<Header>, i: nat): nat
    requires i < |headers|
  {
    if i + 1 < |headers| then headers[i + 1].start else |diff|
  }

  function Texts(sections: seq<Section>): seq<string> {
    seq(|sections|, i requires 0 <= i < |sections| => sections[i].text)
  }

  function Paths(sections: seq<Section>): seq<string> {
    seq(|sections|, i requires 0 <= i < |sections| => sections[i].path)
  }

  lemma TextsAppend(a: seq<Section>, b: seq<Section>)
    ensures Texts(a + b) == Texts(a) + Texts(b)
    ensures Paths(a + b) == Paths(a) + Paths(b)
  {
  }

  lemma TextsSnoc(a: seq<Section>, s: Section)
    ensures Join(Texts(a + [s])) == Join(Texts(a)) + s.text
  {
    TextsAppend(a, [s]);
    assert Texts([s]) == [s.text];
    JoinSnoc(Texts(a), s.text);
  }

  /** `section` is the text from one header to the next. */
  ghost predicate IsSection(diff: string, headers: seq<Header>, i: nat, section: Section)
    requires i < |headers|
  {
    && section.path == headers[i].path
    && headers[i].start < SectionEnd(diff, headers, i) <= |diff|
    && section.text == diff[headers[i].start..SectionEnd(diff, headers, i)]
  }

  lemma {:induction false} SectionsAreTheDiff(diff: string, headers: seq<Header>, sections: seq<Section>, n: nat)
    requires headers != [] && headers[0].start == 0 && |sections| == |headers| && n <= |headers|
    requires forall i :: 0 <= i < |sections| ==> IsSection(diff, headers, i, sections[i])
    ensures n > 0 ==> SectionEnd(diff, headers, n - 1) <= |diff|
    ensures n > 0 ==> Join(Texts(sections[..n])) == diff[..SectionEnd(diff, headers, n - 1)]
  {
    if n > 0 {
      SectionsAreTheDiff(diff, headers, sections, n - 1);
      assert IsSection(diff, headers, n - 1, sections[n - 1]);
      assert sections[..n] == sections[..n - 1] + [sections[n - 1]];
      TextsSnoc(sections[..n - 1], sections[n - 1]);
      if n == 1 { assert Texts(sections[..0]) == []; }
    }
  }

  /** The sections of a diff: one per header, in order, and nothing between them. */
  ghost predicate AreSections(diff: string, headers: seq<Header>, sections: seq<Section>) {
    |sections| == |headers| && forall i :: 0 <= i < |sections| ==> IsSection(diff, headers, i, sections[i])
  }

  method SectionsAt(diff: string, headers: seq<Header>) returns (sections: seq<Section>)
    requires forall i :: 0 <= i < |headers| ==> headers[i].start < SectionEnd(diff, headers, i) <= |diff|
    ensures AreSections(diff, headers, sections)
  {
    sections := [];
    for i := 0 to |headers|
      invariant |sections| == i
      invariant forall k :: 0 <= k < i ==> IsSection(diff, headers, k, sections[k])
    {
      var section := Section(headers[i].path, diff[headers[i].start..SectionEnd(diff, headers, i)]);
      assert IsSection(diff, headers, i, section);
      sections := sections + [section];
    }
  }

  /** One section per file, in the order of the diff: they are the diff. */
  method FileSections(diff: string) returns (r: Result<seq<Section>>)
    ensures r.NoHeader? <==> diff != "" && (Headers(diff) == [] || Headers(diff)[0].start != 0)
    ensures r.Ok? || r.NoHeader?
    ensures r.Ok? ==> AreSections(diff, Headers(diff), r.value) && Join(Texts(r.value)) == diff
  {
    var headers := Headers(diff);
    HeadersInOrder(diff);
    if diff != "" && (headers == [] || headers[0].start != 0) { return NoHeader; }
    var sections := SectionsAt(diff, headers);
    JoinOfSections(diff, headers, sections);
    return Ok(sections);
  }

  lemma JoinOfSections(diff: string, headers: seq<Header>, sections: seq<Section>)
    requires AreSections(diff, headers, sections)
    requires if headers == [] then diff == "" else headers[0].start == 0
    ensures Join(Texts(sections)) == diff
  {
    if headers == [] {
      assert Texts(sections) == [];
    } else {
      SectionsAreTheDiff(diff, headers, sections, |headers|);
      assert sections[..|headers|] == sections && diff[..|diff|] == diff;
    }
  }

  // --- Cutting one file ---

  /** How many lines come before the first hunk. */
  function BodyStart(lines: seq<string>): (n: nat)
    ensures n <= |lines|
  {
    if lines == [] || IsPrefix("@@", lines[0]) then 0 else 1 + BodyStart(lines[1..])
  }

  /** The body starts at the first hunk, and without one there is none. */
  lemma {:induction false} BodyStartsAtHunk(lines: seq<string>)
    ensures BodyStart(lines) < |lines| ==> IsPrefix("@@", lines[BodyStart(lines)])
    ensures forall i :: 0 <= i < BodyStart(lines) ==> !IsPrefix("@@", lines[i])
  {
    if lines != [] && !IsPrefix("@@", lines[0]) {
      BodyStartsAtHunk(lines[1..]);
      forall i | 0 <= i < BodyStart(lines) ensures !IsPrefix("@@", lines[i]) {
        if i > 0 { assert lines[1..][i - 1] == lines[i]; }
      }
    }
  }

  function HeaderOf(section: string): string {
    Join(SplitLines(section)[..BodyStart(SplitLines(section))])
  }

  function BodyOf(section: string): seq<string> {
    SplitLines(section)[BodyStart(SplitLines(section))..]
  }

  lemma SectionIsHeaderAndBody(section: string)
    ensures section == HeaderOf(section) + Join(BodyOf(section))
    ensures BodyOf(section) == [] <==> |HeaderOf(section)| == |section|
  {
    var lines := SplitLines(section);
    var n := BodyStart(lines);
    JoinOfLines(section);
    assert lines == lines[..n] + lines[n..];
    JoinAppends(lines[..n], lines[n..]);
    if n < |lines| { assert Join(lines[n..]) == lines[n] + Join(lines[n..][1..]); }
  }

  /** A line in slices of `budget` characters. */
  function Slices(line: string, budget: nat): seq<string>
    requires budget > 0
  {
    if |line| <= budget then [line] else [line[..budget]] + Slices(line[budget..], budget)
  }

  /** A piece of a line that is past the budget on its own. */
  ghost predicate WithinLine(lines: seq<string>, budget: nat, body: string) {
    exists k, a, b :: 0 <= k < |lines| && |lines[k]| > budget && 0 <= a <= b <= |lines[k]| && body == lines[k][a..b]
  }

  /** Whole lines, one after the other. */
  ghost predicate WholeLines(lines: seq<string>, body: string) {
    exists a, b :: 0 <= a <= b <= |lines| && body == Join(lines[a..b])
  }

  ghost predicate IsBody(lines: seq<string>, budget: nat, body: string) {
    0 < |body| <= budget && (WholeLines(lines, body) || WithinLine(lines, budget, body))
  }

  lemma {:induction false} SlicesOfLine(lines: seq<string>, k: nat, from: nat, budget: nat)
    requires budget > 0 && k < |lines| && |lines[k]| > budget && from < |lines[k]|
    ensures var slices := Slices(lines[k][from..], budget);
            && Join(slices) == lines[k][from..] && (forall i :: 0 <= i < |slices| ==> IsBody(lines, budget, slices[i]))
            && (forall i :: 0 <= i < |slices| ==> WithinLine(lines, budget, slices[i]))
            && (forall i :: 0 <= i < |slices| - 1 ==> |slices[i]| == budget)
    decreases |lines[k]| - from
  {
    var line := lines[k][from..];
    if |line| <= budget {
      JoinOne(line);
      assert line == lines[k][from..|lines[k]|];
    } else {
      assert line[budget..] == lines[k][from + budget..];
      assert line[..budget] == lines[k][from..from + budget];
      SlicesOfLine(lines, k, from + budget, budget);
      assert Slices(line, budget)[1..] == Slices(line[budget..], budget);
    }
  }

  /** Two bodies that do not fit into one, or the first ends a line past the budget. */
  ghost predicate IsTight(lines: seq<string>, budget: nat, body: string, more: nat) {
    WithinLine(lines, budget, body) || |body| + more > budget
  }

  /** `bodies` hold the first `n` lines, as many to a body as fit. */
  ghost predicate Hold(lines: seq<string>, n: nat, budget: nat, bodies: seq<string>) {
    && n <= |lines| && Join(bodies) == Join(lines[..n])
    && (forall i :: 0 <= i < |bodies| ==> IsBody(lines, budget, bodies[i]))
    && (forall i :: 0 <= i < |bodies| - 1 ==> IsTight(lines, budget, bodies[i], |bodies[i + 1]|))
    && (bodies != [] && n < |lines| ==> IsTight(lines, budget, bodies[|bodies| - 1], |lines[n]|))
  }

  lemma HoldRun(lines: seq<string>, from: nat, to: nat, budget: nat, bodies: seq<string>)
    requires from < to <= |lines| && Hold(lines, from, budget, bodies)
    requires 0 < |Join(lines[from..to])| <= budget
    requires to < |lines| ==> |Join(lines[from..to])| + |lines[to]| > budget
    ensures Hold(lines, to, budget, bodies + [Join(lines[from..to])])
  {
    var body := Join(lines[from..to]);
    assert lines[..to] == lines[..from] + lines[from..to];
    JoinAppends(lines[..from], lines[from..to]);
    JoinSnoc(bodies, body);
    assert WholeLines(lines, body);
    assert |body| >= |lines[from]| by { assert lines[from..to][0] == lines[from]; }
    var longer := bodies + [body];
    forall i | 0 <= i < |longer| - 1 ensures IsTight(lines, budget, longer[i], |longer[i + 1]|) {
      if i < |bodies| - 1 { assert IsTight(lines, budget, bodies[i], |bodies[i + 1]|); }
    }
  }

  lemma HoldSlices(lines: seq<string>, k: nat, budget: nat, bodies: seq<string>)
    requires budget > 0 && k < |lines| && |lines[k]| > budget && Hold(lines, k, budget, bodies)
    ensures Hold(lines, k + 1, budget, bodies + Slices(lines[k], budget))
  {
    var slices := Slices(lines[k], budget);
    SlicesOfLine(lines, k, 0, budget);
    assert lines[k][0..] == lines[k];
    JoinAppends(bodies, slices);
    assert lines[..k + 1] == lines[..k] + [lines[k]];
    JoinSnoc(lines[..k], lines[k]);
    var longer := bodies + slices;
    forall i | 0 <= i < |longer| - 1 ensures IsTight(lines, budget, longer[i], |longer[i + 1]|) {
      if i < |bodies| - 1 {
        assert IsTight(lines, budget, bodies[i], |bodies[i + 1]|);
      } else if i == |bodies| - 1 {
        assert longer[i + 1] == slices[0] && |slices[0]| == budget && |bodies[i]| > 0;
      }
    }
  }

  lemma RunGrows(lines: seq<string>, from: nat, k: nat)
    requires from <= k < |lines|
    ensures lines[from..k + 1] == lines[from..k] + [lines[k]]
    ensures |Join(lines[from..k + 1])| == |Join(lines[from..k])| + |lines[k]|
  {
    JoinSnoc(lines[from..k], lines[k]);
  }

  /** Packs lines into bodies of at most `budget` characters, a line past that in slices. */
  method CutLines(lines: seq<string>, budget: nat) returns (bodies: seq<string>)
    requires budget > 0 && forall i :: 0 <= i < |lines| ==> lines[i] != ""
    ensures Hold(lines, |lines|, budget, bodies)
  {
    bodies := [];
    var run: seq<string>, size := [], 0;
    ghost var from: nat := 0;
    for k := 0 to |lines|
      invariant 0 <= from <= k && run == lines[from..k] && size == |Join(run)| <= budget
      invariant size == 0 <==> from == k
      invariant Hold(lines, from, budget, bodies)
    {
      var line := lines[k];
      if size > 0 && size + |line| > budget {
        HoldRun(lines, from, k, budget, bodies);
        bodies, run, size, from := bodies + [Join(run)], [], 0, k;
      }
      if |line| <= budget {
        RunGrows(lines, from, k);
        run, size := run + [line], size + |line|;
      } else {
        HoldSlices(lines, k, budget, bodies);
        bodies, from := bodies + Slices(line, budget), k + 1;
      }
    }
    if run != [] {
      HoldRun(lines, from, |lines|, budget, bodies);
      bodies := bodies + [Join(run)];
    }
  }

  function Headed(header: string, bodies: seq<string>): seq<string> {
    seq(|bodies|, i requires 0 <= i < |bodies| => header + bodies[i])
  }

  /** The pieces of one file, each under the file's header. With the header
      shorter than the cap they hold the whole body; a header of the cap's very
      length leaves no step to cut by, and a longer one leaves no piece at all. */
  method CutSection(section: string, cap: nat) returns (r: Result<seq<string>>, ghost bodies: seq<string>)
    ensures r.NoStep? <==> |HeaderOf(section)| == cap && BodyOf(section) != []
    ensures r.Ok? || r.NoStep?
    ensures r.Ok? ==> r.value == Headed(HeaderOf(section), bodies)
    ensures |HeaderOf(section)| < cap ==>
              Hold(BodyOf(section), |BodyOf(section)|, cap - |HeaderOf(section)|, bodies)
    ensures |HeaderOf(section)| > cap ==> r == Ok([])
  {
    var header, body := HeaderOf(section), BodyOf(section);
    var budget := cap - |header|;
    bodies := [];
    if body == [] { return Ok([]), []; }
    if budget == 0 { return NoStep, []; }
    if budget < 0 { return Ok([]), []; }
    var cut := CutLines(body, budget);
    bodies := cut;
    return Ok(Headed(header, cut)), bodies;
  }

  // --- The parts of a diff ---

  /** A file past the cap whose header is past it too: no piece can hold any of it. */
  predicate IsLost(s: Section, cap: nat) {
    |s.text| > cap && |HeaderOf(s.text)| > cap
  }

  /** A file past the cap whose header is the cap's very length. */
  predicate IsStuck(s: Section, cap: nat) {
    |s.text| > cap && |HeaderOf(s.text)| == cap
  }

  /** The files that are not lost. */
  function KeptTexts(sections: seq<Section>, cap: nat): seq<string> {
    if sections == [] then []
    else KeptTexts(sections[..|sections| - 1], cap)
         + if IsLost(sections[|sections| - 1], cap) then [] else [sections[|sections| - 1].text]
  }

  function PartOf(sections: seq<Section>): DiffPart {
    DiffPart(Join(Texts(sections)), Paths(sections))
  }

  /** Where a part comes from: whole files, or a piece of one, of which the first
      `carried` characters repeat the header of the file. */
  datatype Cover = Whole(from: nat, to: nat) | Piece(section: nat, carried: nat)

  ghost predicate IsPiece(s: Section, cap: nat, part: DiffPart, carried: nat) {
    var header := HeaderOf(s.text);
    && |s.text| > cap > |header| && part.paths == [s.path]
    && IsPrefix(header, part.text) && (carried == 0 || carried == |header|)
    && IsBody(BodyOf(s.text), cap - |header|, part.text[|header|..])
  }

  /** `part` is what `cover` says, and `anew` what of it no part before it holds. */
  ghost predicate Covers(sections: seq<Section>, cap: nat, part: DiffPart, cover: Cover, anew: string) {
    && |part.text| <= cap
    && match cover
       case Whole(from, to) =>
         && from < to <= |sections| && part == PartOf(sections[from..to]) && anew == part.text
         && forall i :: from <= i < to ==> |sections[i].text| <= cap
       case Piece(n, carried) =>
         && n < |sections| && IsPiece(sections[n], cap, part, carried)
         && carried <= |part.text| && anew == part.text[carried..]
  }

  /** Whether the file `n` has no room left in a part of whole files that ends before it. */
  ghost predicate IsFull(sections: seq<Section>, n: nat, cap: nat, part: DiffPart, cover: Cover) {
    cover.Whole? && cover.to == n < |sections| ==> |part.text| + |sections[n].text| > cap
  }

  /** Only a piece after another piece of its file repeats the header, and a part
      of whole files ends only where the next file does not fit. */
  ghost predicate Follows(sections: seq<Section>, cap: nat, parts: seq<DiffPart>, covers: seq<Cover>, k: nat)
    requires k < |covers| == |parts|
  {
    match covers[k]
    case Piece(n, carried) => carried > 0 ==> k > 0 && covers[k - 1].Piece? && covers[k - 1].section == n
    case Whole(from, _) => k > 0 ==> IsFull(sections, from, cap, parts[k - 1], covers[k - 1])
  }

  ghost predicate IsPart(sections: seq<Section>, cap: nat, parts: seq<DiffPart>, covers: seq<Cover>, anew: seq<string>, k: nat)
    requires k < |covers| == |parts| == |anew|
  {
    Covers(sections, cap, parts[k], covers[k], anew[k]) && Follows(sections, cap, parts, covers, k)
  }

  lemma PartsStay(sections: seq<Section>, cap: nat, parts: seq<DiffPart>, covers: seq<Cover>, anew: seq<string>,
                  parts': seq<DiffPart>, covers': seq<Cover>, anew': seq<string>, k: nat)
    requires k < |covers| == |parts| == |anew| && |covers'| == |parts'| == |anew'|
    requires IsPart(sections, cap, parts, covers, anew, k)
    ensures IsPart(sections, cap, parts + parts', covers + covers', anew + anew', k)
  {
  }

  ghost predicate EndsBefore(sections: seq<Section>, n: nat, cap: nat, parts: seq<DiffPart>, covers: seq<Cover>)
    requires |covers| == |parts|
  {
    var last := |covers| - 1;
    covers != [] ==> (covers[last].Whole? ==> covers[last].to <= n) && IsFull(sections, n, cap, parts[last], covers[last])
  }

  /** `parts` hold what is kept of the first `n` files, in order. */
  ghost predicate IsSplit(sections: seq<Section>, n: nat, cap: nat, parts: seq<DiffPart>, covers: seq<Cover>, anew: seq<string>) {
    && n <= |sections| && |parts| == |covers| == |anew|
    && Join(anew) == Join(KeptTexts(sections[..n], cap))
    && (forall k :: 0 <= k < |parts| ==> IsPart(sections, cap, parts, covers, anew, k))
    && EndsBefore(sections, n, cap, parts, covers)
    && (forall i :: 0 <= i < n ==> Passes(sections, i, cap))
  }

  /** The file can be packed or cut. */
  ghost predicate Passes(sections: seq<Section>, i: nat, cap: nat)
    requires i < |sections|
  {
    !IsStuck(sections[i], cap)
  }

  lemma NoneIsStuck(sections: seq<Section>, cap: nat)
    requires forall i :: 0 <= i < |sections| ==> Passes(sections, i, cap)
    ensures forall i :: 0 <= i < |sections| ==> !IsStuck(sections[i], cap)
  {
    forall i | 0 <= i < |sections| ensures !IsStuck(sections[i], cap) {
      assert Passes(sections, i, cap);
    }
  }

  lemma JoinOfKept(sections: seq<Section>, n: nat, cap: nat)
    requires n < |sections|
    ensures Join(KeptTexts(sections[..n + 1], cap))
         == Join(KeptTexts(sections[..n], cap)) + if IsLost(sections[n], cap) then "" else sections[n].text
  {
    assert sections[..n + 1][..n] == sections[..n];
    if IsLost(sections[n], cap) {
      assert KeptTexts(sections[..n + 1], cap) == KeptTexts(sections[..n], cap);
    } else {
      JoinSnoc(KeptTexts(sections[..n], cap), sections[n].text);
    }
  }

  lemma NextIsKept(sections: seq<Section>, n: nat, cap: nat)
    requires n < |sections| && |sections[n].text| <= cap
    ensures KeptTexts(sections[..n + 1], cap) == KeptTexts(sections[..n], cap) + [sections[n].text]
  {
    assert sections[..n + 1][..n] == sections[..n];
  }

  lemma NextText(sections: seq<Section>, from: nat, n: nat)
    requires from <= n < |sections|
    ensures Texts(sections[from..n + 1]) == Texts(sections[from..n]) + [sections[n].text]
  {
    assert sections[from..n + 1] == sections[from..n] + [sections[n]];
    TextsAppend(sections[from..n], [sections[n]]);
    assert Texts([sections[n]]) == [sections[n].text];
  }

  lemma {:induction false} SmallAreKept(sections: seq<Section>, from: nat, to: nat, cap: nat)
    requires from <= to <= |sections| && forall i :: from <= i < to ==> |sections[i].text| <= cap
    ensures KeptTexts(sections[..to], cap) == KeptTexts(sections[..from], cap) + Texts(sections[from..to])
  {
    if from == to {
      assert Texts(sections[from..to]) == [];
    } else {
      var kept, texts, text := KeptTexts(sections[..from], cap), Texts(sections[from..to - 1]), sections[to - 1].text;
      SmallAreKept(sections, from, to - 1, cap);
      NextIsKept(sections, to - 1, cap);
      NextText(sections, from, to - 1);
      assert kept + texts + [text] == kept + (texts + [text]);
    }
  }

  lemma SplitWhole(sections: seq<Section>, from: nat, to: nat, cap: nat, parts: seq<DiffPart>, covers: seq<Cover>, anew: seq<string>)
    requires from < to <= |sections| && IsSplit(sections, from, cap, parts, covers, anew)
    requires |Join(Texts(sections[from..to]))| <= cap && forall i :: from <= i < to ==> |sections[i].text| <= cap
    requires to < |sections| ==> |Join(Texts(sections[from..to]))| + |sections[to].text| > cap
    ensures var part := PartOf(sections[from..to]);
            IsSplit(sections, to, cap, parts + [part], covers + [Whole(from, to)], anew + [part.text])
  {
    var part := PartOf(sections[from..to]);
    SmallAreKept(sections, from, to, cap);
    JoinAppends(KeptTexts(sections[..from], cap), Texts(sections[from..to]));
    JoinSnoc(anew, part.text);
    var ps, cs, fs := parts + [part], covers + [Whole(from, to)], anew + [part.text];
    forall k | 0 <= k < |ps| ensures IsPart(sections, cap, ps, cs, fs, k) {
      if k < |covers| { PartsStay(sections, cap, parts, covers, anew, [part], [Whole(from, to)], [part.text], k); }
    }
  }

  lemma SplitLost(sections: seq<Section>, n: nat, cap: nat, parts: seq<DiffPart>, covers: seq<Cover>, anew: seq<string>)
    requires n < |sections| && IsLost(sections[n], cap) && IsSplit(sections, n, cap, parts, covers, anew)
    ensures IsSplit(sections, n + 1, cap, parts, covers, anew)
  {
    JoinOfKept(sections, n, cap);
  }

  function PiecesOf(path: string, pieces: seq<string>): seq<DiffPart> {
    seq(|pieces|, i requires 0 <= i < |pieces| => DiffPart(pieces[i], [path]))
  }

  function PieceCovers(n: nat, header: string, count: nat): seq<Cover> {
    seq(count, i => Piece(n, if i == 0 then 0 else |header|))
  }

  function FreshOf(header: string, bodies: seq<string>): seq<string> {
    seq(|bodies|, i requires 0 <= i < |bodies| => if i == 0 then header + bodies[0] else bodies[i])
  }

  lemma JoinOfFresh(header: string, bodies: seq<string>)
    requires bodies != []
    ensures Join(FreshOf(header, bodies)) == header + Join(bodies)
  {
    assert FreshOf(header, bodies)[1..] == bodies[1..];
  }

  lemma PiecesCover(sections: seq<Section>, n: nat, cap: nat, bodies: seq<string>, i: nat)
    requires n < |sections| && |sections[n].text| > cap > |HeaderOf(sections[n].text)| && i < |bodies|
    requires Hold(BodyOf(sections[n].text), |BodyOf(sections[n].text)|, cap - |HeaderOf(sections[n].text)|, bodies)
    ensures var header := HeaderOf(sections[n].text);
            Covers(sections, cap, PiecesOf(sections[n].path, Headed(header, bodies))[i], PieceCovers(n, header, |bodies|)[i], FreshOf(header, bodies)[i])
  {
    var header := HeaderOf(sections[n].text);
    assert (header + bodies[i])[|header|..] == bodies[i];
  }

  lemma JoinOfPieces(sections: seq<Section>, n: nat, cap: nat, anew: seq<string>, bodies: seq<string>)
    requires n < |sections| && |sections[n].text| > cap > |HeaderOf(sections[n].text)|
    requires Join(anew) == Join(KeptTexts(sections[..n], cap))
    requires Hold(BodyOf(sections[n].text), |BodyOf(sections[n].text)|, cap - |HeaderOf(sections[n].text)|, bodies)
    ensures bodies != []
    ensures Join(anew + FreshOf(HeaderOf(sections[n].text), bodies)) == Join(KeptTexts(sections[..n + 1], cap))
  {
    var text := sections[n].text;
    var header, body := HeaderOf(text), BodyOf(text);
    assert body[..|body|] == body;
    SectionIsHeaderAndBody(text);
    assert bodies != [];
    JoinOfFresh(header, bodies);
    JoinAppends(anew, FreshOf(header, bodies));
    JoinOfKept(sections, n, cap);
  }

  lemma SplitPieces(sections: seq<Section>, n: nat, cap: nat, parts: seq<DiffPart>, covers: seq<Cover>, anew: seq<string>, bodies: seq<string>)
    requires n < |sections| && |sections[n].text| > cap > |HeaderOf(sections[n].text)| && IsSplit(sections, n, cap, parts, covers, anew)
    requires Hold(BodyOf(sections[n].text), |BodyOf(sections[n].text)|, cap - |HeaderOf(sections[n].text)|, bodies)
    ensures var header := HeaderOf(sections[n].text);
            IsSplit(sections, n + 1, cap, parts + PiecesOf(sections[n].path, Headed(header, bodies)),
                    covers + PieceCovers(n, header, |bodies|), anew + FreshOf(header, bodies))
  {
    var header := HeaderOf(sections[n].text);
    JoinOfPieces(sections, n, cap, anew, bodies);
    var ps, cs, fs := PiecesOf(sections[n].path, Headed(header, bodies)), PieceCovers(n, header, |bodies|), FreshOf(header, bodies);
    forall k | 0 <= k < |parts + ps| ensures IsPart(sections, cap, parts + ps, covers + cs, anew + fs, k) {
      if k < |covers| {
        PartsStay(sections, cap, parts, covers, anew, ps, cs, fs, k);
      } else {
        PiecesCover(sections, n, cap, bodies, k - |parts|);
      }
    }
  }

  /** The files from `from` to `n` wait to be packed in one part, `size` long. */
  ghost predicate Waiting(sections: seq<Section>, from: nat, n: nat, cap: nat, size: nat) {
    && from <= n <= |sections|
    && size == |Join(Texts(sections[from..n]))| <= cap && (size == 0 <==> from == n)
    && (forall i :: from <= i < n ==> |sections[i].text| <= cap)
  }

  lemma WaitingGrows(sections: seq<Section>, from: nat, n: nat, cap: nat, size: nat)
    requires Waiting(sections, from, n, cap, size) && n < |sections| && sections[n].text != ""
    requires size + |sections[n].text| <= cap
    ensures Waiting(sections, from, n + 1, cap, size + |sections[n].text|)
    ensures sections[from..n + 1] == sections[from..n] + [sections[n]]
  {
    assert sections[from..n + 1] == sections[from..n] + [sections[n]];
    TextsSnoc(sections[from..n], sections[n]);
  }

  lemma NoneWait(sections: seq<Section>, n: nat, cap: nat)
    requires n <= |sections|
    ensures Waiting(sections, n, n, cap, 0)
  {
    assert Texts(sections[n..n]) == [];
  }

  /** Ends the part in the making, when there is one. */
  method Flush(ghost sections: seq<Section>, ghost from: nat, ghost n: nat, cap: nat, pending: seq<Section>, size: nat,
               parts: seq<DiffPart>, ghost covers: seq<Cover>, ghost anew: seq<string>)
    returns (more: seq<DiffPart>, ghost covers': seq<Cover>, ghost anew': seq<string>)
    requires Waiting(sections, from, n, cap, size) && pending == sections[from..n]
    requires pending != [] && n < |sections| ==> size + |sections[n].text| > cap
    requires IsSplit(sections, from, cap, parts, covers, anew)
    ensures IsSplit(sections, n, cap, more, covers', anew')
  {
    more, covers', anew' := parts, covers, anew;
    if pending != [] {
      SplitWhole(sections, from, n, cap, parts, covers, anew);
      more, covers', anew' := parts + [PartOf(pending)], covers + [Whole(from, n)], anew + [PartOf(pending).text];
    }
  }

  /** The pieces of a file past the cap, each a part of its own. */
  method CutFile(ghost sections: seq<Section>, ghost n: nat, section: Section, cap: nat,
                 parts: seq<DiffPart>, ghost covers: seq<Cover>, ghost anew: seq<string>)
    returns (r: Result<seq<DiffPart>>, ghost covers': seq<Cover>, ghost anew': seq<string>)
    requires n < |sections| && section == sections[n] && |section.text| > cap
    requires IsSplit(sections, n, cap, parts, covers, anew)
    ensures r.Ok? || r.NoStep?
    ensures r.NoStep? <==> IsStuck(section, cap)
    ensures r.Ok? ==> IsSplit(sections, n + 1, cap, r.value, covers', anew')
  {
    covers', anew' := covers, anew;
    var pieces, bodies := CutSection(section.text, cap);
    SectionIsHeaderAndBody(section.text);
    if pieces.NoStep? { return NoStep, covers', anew'; }
    ghost var header := HeaderOf(section.text);
    r := Ok(parts + PiecesOf(section.path, pieces.value));
    if |header| < cap {
      SplitPieces(sections, n, cap, parts, covers, anew, bodies);
      covers', anew' := covers + PieceCovers(n, header, |bodies|), anew + FreshOf(header, bodies);
    } else {
      SplitLost(sections, n, cap, parts, covers, anew);
      assert parts + PiecesOf(section.path, []) == parts;
    }
  }

  /** The state of the loop over the files, before file `n`. */
  ghost predicate Packing(sections: seq<Section>, n: nat, cap: nat, pending: seq<Section>, size: nat,
                          parts: seq<DiffPart>, covers: seq<Cover>, anew: seq<string>)
  {
    && |pending| <= n && Waiting(sections, n - |pending|, n, cap, size) && pending == sections[n - |pending|..n]
    && IsSplit(sections, n - |pending|, cap, parts, covers, anew)
  }

  lemma PackingGrows(sections: seq<Section>, n: nat, cap: nat, pending: seq<Section>, size: nat,
                     parts: seq<DiffPart>, covers: seq<Cover>, anew: seq<string>)
    requires n < |sections| && sections[n].text != "" && size + |sections[n].text| <= cap
    requires Packing(sections, n, cap, pending, size, parts, covers, anew)
    ensures Packing(sections, n + 1, cap, pending + [sections[n]], size + |sections[n].text|, parts, covers, anew)
  {
    WaitingGrows(sections, n - |pending|, n, cap, size);
  }

  lemma NothingPending(sections: seq<Section>, n: nat, cap: nat, pending: seq<Section>,
                       parts: seq<DiffPart>, covers: seq<Cover>, anew: seq<string>)
    requires n <= |sections|
    ensures Packing(sections, n, cap, pending, 0, parts, covers, anew) <==> pending == [] && IsSplit(sections, n, cap, parts, covers, anew)
  {
    NoneWait(sections, n, cap);
  }

  lemma NothingYet(sections: seq<Section>, cap: nat)
    ensures Packing(sections, 0, cap, [], 0, [], [], [])
  {
    assert KeptTexts(sections[..0], cap) == [];
    assert IsSplit(sections, 0, cap, [], [], []);
    NothingPending(sections, 0, cap, [], [], [], []);
  }

  /** Ends the part in the making before file `n`, which does not fit into it, or at the end. */
  method FlushAt(sections: seq<Section>, n: nat, cap: nat, pending: seq<Section>, size: nat,
                 parts: seq<DiffPart>, ghost covers: seq<Cover>, ghost anew: seq<string>)
    returns (more: seq<DiffPart>, ghost covers': seq<Cover>, ghost anew': seq<string>)
    requires n <= |sections| && Packing(sections, n, cap, pending, size, parts, covers, anew)
    requires n < |sections| ==> size + |sections[n].text| > cap
    ensures IsSplit(sections, n, cap, more, covers', anew')
  {
    more, covers', anew' := Flush(sections, n - |pending|, n, cap, pending, size, parts, covers, anew);
  }

  /** One file under the cap: packed with the files that wait, which are flushed
      first when it does not fit. */
  method PackFile(sections: seq<Section>, n: nat, cap: nat, pending: seq<Section>, size: nat,
                  parts: seq<DiffPart>, ghost covers: seq<Cover>, ghost anew: seq<string>)
    returns (pending': seq<Section>, size': nat, parts': seq<DiffPart>, ghost covers': seq<Cover>, ghost anew': seq<string>)
    requires n < |sections| && 0 < |sections[n].text| <= cap && Packing(sections, n, cap, pending, size, parts, covers, anew)
    ensures Packing(sections, n + 1, cap, pending', size', parts', covers', anew')
  {
    pending', size', parts', covers', anew' := pending, size, parts, covers, anew;
    if size > 0 && size + |sections[n].text| > cap {
      parts', covers', anew' := FlushAt(sections, n, cap, pending, size, parts, covers, anew);
      pending', size' := [], 0;
      NothingPending(sections, n, cap, [], parts', covers', anew');
    }
    PackingGrows(sections, n, cap, pending', size', parts', covers', anew');
    pending', size' := pending' + [sections[n]], size' + |sections[n].text|;
  }

  /** One file past the cap: cut, after the files that wait are flushed. */
  method CutFileAlone(sections: seq<Section>, n: nat, cap: nat, pending: seq<Section>, size: nat,
                      parts: seq<DiffPart>, ghost covers: seq<Cover>, ghost anew: seq<string>)
    returns (r: Result<seq<DiffPart>>, ghost covers': seq<Cover>, ghost anew': seq<string>)
    requires n < |sections| && |sections[n].text| > cap && Packing(sections, n, cap, pending, size, parts, covers, anew)
    ensures r.Ok? || r.NoStep?
    ensures r.NoStep? <==> IsStuck(sections[n], cap)
    ensures r.Ok? ==> Packing(sections, n + 1, cap, [], 0, r.value, covers', anew')
  {
    var parts';
    parts', covers', anew' := FlushAt(sections, n, cap, pending, size, parts, covers, anew);
    r, covers', anew' := CutFile(sections, n, sections[n], cap, parts', covers', anew');
    if r.Ok? { NothingPending(sections, n + 1, cap, [], r.value, covers', anew'); }
  }

  /** The files that wait, how long they are, and the parts so far. */
  datatype Packed = Packed(pending: seq<Section>, size: nat, parts: seq<DiffPart>)
  datatype Trace = Trace(covers: seq<Cover>, anew: seq<string>)

  ghost predicate IsPacked(sections: seq<Section>, n: nat, cap: nat, packed: Packed, trace: Trace) {
    Packing(sections, n, cap, packed.pending, packed.size, packed.parts, trace.covers, trace.anew)
  }

  /** One file: packed with the files that wait, or cut. */
  method AddFile(sections: seq<Section>, n: nat, cap: nat, packed: Packed, ghost trace: Trace) returns (r: Result<Packed>, ghost trace': Trace)
    requires n < |sections| && sections[n].text != "" && IsPacked(sections, n, cap, packed, trace)
    ensures r.Ok? || r.NoStep?
    ensures r.NoStep? <==> IsStuck(sections[n], cap)
    ensures r.Ok? ==> IsPacked(sections, n + 1, cap, r.value, trace')
  {
    if |sections[n].text| <= cap {
      var pending, size, parts, covers, anew := PackFile(sections, n, cap, packed.pending, packed.size, packed.parts, trace.covers, trace.anew);
      return Ok(Packed(pending, size, parts)), Trace(covers, anew);
    }
    var cut, covers, anew := CutFileAlone(sections, n, cap, packed.pending, packed.size, packed.parts, trace.covers, trace.anew);
    return if cut.Ok? then Ok(Packed([], 0, cut.value)) else NoStep, Trace(covers, anew);
  }

  /** Packs whole files into parts of at most `cap`, and cuts the files past it. */
  method SplitSections(sections: seq<Section>, cap: nat) returns (r: Result<seq<DiffPart>>, ghost covers: seq<Cover>, ghost anew: seq<string>)
    requires forall i :: 0 <= i < |sections| ==> sections[i].text != ""
    ensures r.Ok? || r.NoStep?
    ensures r.NoStep? <==> exists i :: 0 <= i < |sections| && IsStuck(sections[i], cap)
    ensures r.Ok? ==> IsSplit(sections, |sections|, cap, r.value, covers, anew)
  {
    covers, anew := [], [];
    var packed := Packed([], 0, []);
    ghost var trace := Trace([], []);
    NothingYet(sections, cap);
    for n := 0 to |sections|
      invariant IsPacked(sections, n, cap, packed, trace)
    {
      var added;
      added, trace := AddFile(sections, n, cap, packed, trace);
      if added.NoStep? { return NoStep, covers, anew; }
      packed := added.value;
    }
    var parts;
    parts, covers, anew := FlushAt(sections, |sections|, cap, packed.pending, packed.size, packed.parts, trace.covers, trace.anew);
    NoneIsStuck(sections, cap);
    return Ok(parts), covers, anew;
  }

  lemma {:induction false} KeptIsAllUnlessLost(sections: seq<Section>, n: nat, cap: nat)
    requires n <= |sections| && forall i :: 0 <= i < |sections| ==> sections[i].text != ""
    ensures |Join(KeptTexts(sections[..n], cap))| <= |Join(Texts(sections[..n]))|
    ensures Join(KeptTexts(sections[..n], cap)) == Join(Texts(sections[..n])) <==> forall i :: 0 <= i < n ==> !IsLost(sections[i], cap)
  {
    if n == 0 {
      assert Texts(sections[..0]) == [];
    } else {
      KeptIsAllUnlessLost(sections, n - 1, cap);
      JoinOfKept(sections, n - 1, cap);
      assert sections[..n] == sections[..n - 1] + [sections[n - 1]];
      TextsSnoc(sections[..n - 1], sections[n - 1]);
      SameEnd(Join(KeptTexts(sections[..n - 1], cap)), Join(Texts(sections[..n - 1])), sections[n - 1].text);
    }
  }

  lemma SameEnd(a: string, b: string, end: string)
    ensures a + end == b + end <==> a == b
  {
    if a + end == b + end {
      assert a == (a + end)[..|a|] && b == (b + end)[..|b|];
    }
  }

  /** The parts of a diff: each at most the cap, whole files packed in order, a
      file past the cap in pieces under its header. What the parts hold anew, one
      after the other, is the diff exactly when no file past the cap has a header
      past it. */
  method SplitDiff(diff: string, cap: nat)
    returns (r: Result<seq<DiffPart>>, ghost sections: seq<Section>, ghost covers: seq<Cover>, ghost anew: seq<string>)
    ensures r.NoHeader? <==> diff != "" && (Headers(diff) == [] || Headers(diff)[0].start != 0)
    ensures !r.NoHeader? ==> AreSections(diff, Headers(diff), sections)
    ensures !r.NoHeader? ==> (r.NoStep? <==> exists i :: 0 <= i < |sections| && IsStuck(sections[i], cap))
    ensures r.Ok? ==> IsSplit(sections, |sections|, cap, r.value, covers, anew)
    ensures r.Ok? ==> (Join(anew) == diff <==> forall i :: 0 <= i < |sections| ==> !IsLost(sections[i], cap))
  {
    sections, covers, anew := [], [], [];
    var files := FileSections(diff);
    if files.NoHeader? { return NoHeader, sections, covers, anew; }
    sections := files.value;
    r, covers, anew := SplitSections(files.value, cap);
    KeptIsAllUnlessLost(sections, |sections|, cap);
    assert sections[..|sections|] == sections;
  }

  lemma {:induction false} NoHunkNoBody(lines: seq<string>)
    requires forall i :: 0 <= i < |lines| ==> !IsPrefix("@@", lines[i])
    ensures BodyStart(lines) == |lines|
  {
    if lines != [] { NoHunkNoBody(lines[1..]); }
  }

  /** Every file past the cap that has no hunk is lost. */
  lemma NoHunkIsLost(s: Section, cap: nat)
    requires |s.text| > cap && forall i :: 0 <= i < |SplitLines(s.text)| ==> !IsPrefix("@@", SplitLines(s.text)[i])
    ensures IsLost(s, cap)
  {
    NoHunkNoBody(SplitLines(s.text));
    SectionIsHeaderAndBody(s.text);
  }

  lemma {:induction false} LinesAreOfText(text: string, c: char)
    requires c !in text
    ensures forall i :: 0 <= i < |SplitLines(text)| ==> c !in SplitLines(text)[i]
  {
    if text != "" { LinesAreOfText(text[FirstLine(text)..], c); }
  }

  /** Every part is of files that are not lost. */
  lemma PartsAreOfKept(sections: seq<Section>, cap: nat, parts: seq<DiffPart>, covers: seq<Cover>, anew: seq<string>)
    requires IsSplit(sections, |sections|, cap, parts, covers, anew)
    ensures parts != [] ==> exists i :: 0 <= i < |sections| && !IsLost(sections[i], cap)
  {
    if parts != [] {
      assert IsPart(sections, cap, parts, covers, anew, 0);
      var named := if covers[0].Whole? then covers[0].from else covers[0].section;
      assert !IsLost(sections[named], cap);
    }
  }

  lemma OneHeaderOneSection(diff: string, path: string, sections: seq<Section>)
    requires Headers(diff) == [Header(0, path)] && AreSections(diff, Headers(diff), sections)
    ensures sections == [Section(path, diff)]
  {
    assert IsSection(diff, Headers(diff), 0, sections[0]);
    assert diff[0..|diff|] == diff;
  }

  /** A diff of one file that is lost has no part at all. */
  method SplitLostFile(diff: string, path: string, cap: nat) returns (r: Result<seq<DiffPart>>)
    requires Headers(diff) == [Header(0, path)] && IsLost(Section(path, diff), cap)
    ensures r == Ok([])
  {
    ghost var sections, covers, anew;
    r, sections, covers, anew := SplitDiff(diff, cap);
    OneHeaderOneSection(diff, path, sections);
    PartsAreOfKept(sections, cap, r.value, covers, anew);
  }

  lemma {:induction false} LineEndIs(diff: string, from: nat, end: nat)
    requires from <= end < |diff| && diff[end] == '\n' && '\n' !in diff[from..end]
    ensures LineEnd(diff, from) == end
    decreases end - from
  {
    if from < end {
      assert diff[from] == diff[from..end][0];
      assert diff[from + 1..end] == diff[from..end][1..];
      LineEndIs(diff, from + 1, end);
    }
  }

  /** The new side opens at `k`: a blank, a quote or none, and `b/`. */
  predicate OpensAt(rest: string, k: nat) {
    k <= |rest| && (IsPrefix(" b/", rest[k..]) || IsPrefix(" \"b/", rest[k..]))
  }

  /** The new side is what follows the first place it opens at. */
  lemma {:induction false} NewSideIsFirst(rest: string, k: nat)
    requires OpensAt(rest, k) && forall j :: 0 <= j < k ==> !OpensAt(rest, j)
    ensures HasNewSide(rest) && NewSide(rest) == rest[k..][if IsPrefix(" b/", rest[k..]) then 3 else 4..]
  {
    if k == 0 {
      assert rest[0..] == rest;
    } else {
      assert !OpensAt(rest, 0) && rest[0..] == rest;
      assert rest[1..][k - 1..] == rest[k..];
      forall j | 0 <= j < k - 1 ensures !OpensAt(rest[1..], j) {
        assert rest[1..][j..] == rest[j + 1..] && !OpensAt(rest, j + 1);
      }
      NewSideIsFirst(rest[1..], k - 1);
    }
  }

  lemma NewSideAfter(before: string, opening: string, path: string)
    requires ' ' !in before && opening in {" b/", " \"b/"}
    ensures HasNewSide(before + opening + path) && NewSide(before + opening + path) == path
  {
    var rest, k := before + opening + path, |before|;
    assert rest[k..] == opening + path && rest[k..][|opening|..] == path;
    forall j | 0 <= j < k ensures !OpensAt(rest, j) {
      assert rest[j..][0] == before[j] && " b/"[0] == ' ' && " \"b/"[0] == ' ';
    }
    assert rest[k..][..|opening|] == opening;
    assert rest[k..][1] == opening[1];
    NewSideIsFirst(rest, k);
  }

  /** The header line of a file whose path needs no quotes. */
  function HeaderLine(path: string): string {
    "diff --git a/" + (path + " b/" + path)
  }

  lemma HeaderLineNames(path: string)
    requires path != "" && ' ' !in path && path[|path| - 1] != '\"'
    ensures IsHeaderLine(HeaderLine(path)) && HeaderPath(HeaderLine(path)) == path
  {
    var rest := path + " b/" + path;
    assert HeaderLine(path)[..13] == "diff --git a/" && HeaderLine(path)[13..] == rest;
    NewSideAfter(path, " b/", path);
  }

  /** The header line of a file whose path git puts in quotes. */
  function QuotedHeaderLine(path: string): string {
    "diff --git \"a/" + (path + "\"" + " \"b/" + (path + "\""))
  }

  lemma QuotedHeaderLineNames(path: string)
    requires ' ' !in path
    ensures IsHeaderLine(QuotedHeaderLine(path)) && HeaderPath(QuotedHeaderLine(path)) == path
  {
    var line, rest := QuotedHeaderLine(path), path + "\"" + " \"b/" + (path + "\"");
    assert line[..14] == "diff --git \"a/" && line[14..] == rest;
    assert line[11] == '\"' && "diff --git a/"[11] == 'a';
    NewSideAfter(path + "\"", " \"b/", path + "\"");
    assert (path + "\"")[..|path|] == path;
  }

  lemma OneLineOneHeader(line: string)
    requires line != "" && '\n' !in line && IsHeaderLine(line)
    ensures Headers(line + ['\n']) == [Header(0, HeaderPath(line))]
  {
    var diff := line + ['\n'];
    LineEndIs(diff, 0, |line|);
    assert LineAt(diff, 0) == line;
    FoundOnce(|diff|, (k: nat) => HeaderAt(diff, k), HeaderPath(line));
  }

  lemma NoAtIsLost(s: Section, cap: nat)
    requires |s.text| > cap && '@' !in s.text
    ensures IsLost(s, cap)
  {
    LinesAreOfText(s.text, '@');
    forall i | 0 <= i < |SplitLines(s.text)| ensures !IsPrefix("@@", SplitLines(s.text)[i]) {
      assert "@@"[0] == '@' && '@' !in SplitLines(s.text)[i];
    }
    NoHunkIsLost(s, cap);
  }

  /** The characters of a path that git prints as it is, and that open no hunk. */
  predicate IsPlain(path: string) {
    path != "" && ' ' !in path && '\n' !in path && '@' !in path && '\"' !in path
  }

  lemma HeaderLineIsPlain(path: string, c: char)
    requires c !in path && c in {'\n', '@'}
    ensures c !in HeaderLine(path)
  {
    assert c !in "diff --git a/" && c !in " b/";
  }

  /** The loss, at every such input: the diff of a file without a hunk, of any path that
      needs no quotes and under any cap shorter than it, is one lost file. */
  lemma PlainFileIsLost(path: string, cap: nat)
    requires IsPlain(path) && cap <= |HeaderLine(path)|
    ensures var diff := HeaderLine(path) + ['\n'];
            Headers(diff) == [Header(0, path)] && IsLost(Section(path, diff), cap)
  {
    HeaderLineIsPlain(path, '\n');
    HeaderLineIsPlain(path, '@');
    HeaderLineNames(path);
    OneLineOneHeader(HeaderLine(path));
    NoAtIsLost(Section(path, HeaderLine(path) + ['\n']), cap);
  }

  /** One such diff and cap: splitting it gives no part. */
  method LossExample() returns (diff: string, r: Result<seq<DiffPart>>)
    ensures diff == "diff --git a/x b/x\n" && r == Ok([])
  {
    PlainFileIsLost("x", 18);
    diff := HeaderLine("x") + ['\n'];
    r := SplitLostFile(diff, "x", 18);
  }
}
