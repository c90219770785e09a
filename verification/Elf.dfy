/** Reading the ELF files of a release archive (scripts/functions/verify_release.py). */
module LittleEndian {

  type byte = x: int | 0 <= x < 256

  /** One past the largest number of `width` bytes. */
  function Limit(width: nat): nat {
    if width == 0 then 1 else 256 * Limit(width - 1)
  }

  function Encode(n: nat, width: nat): (bytes: seq<byte>)
    ensures |bytes| == width
  {
    if width == 0 then [] else [n % 256] + Encode(n / 256, width - 1)
  }

  function Decode(bytes: seq<byte>): nat {
    if bytes == [] then 0 else bytes[0] + 256 * Decode(bytes[1..])
  }

  lemma {:induction false} DecodeEncode(n: nat, width: nat)
    requires n < Limit(width)
    ensures Decode(Encode(n, width)) == n
  {
    if width > 0 {
      DecodeEncode(n / 256, width - 1);
      assert Encode(n, width)[1..] == Encode(n / 256, width - 1);
    }
  }

  /** The last byte weighs most: one more of it adds that many times the limit. */
  lemma {:induction false} LastWeighsMost(bytes: seq<byte>, last: byte)
    ensures Decode(bytes + [last]) == Decode(bytes) + last * Limit(|bytes|)
  {
    if bytes == [] {
      assert ([] + [last])[1..] == [];
    } else {
      assert (bytes + [last])[1..] == bytes[1..] + [last];
      LastWeighsMost(bytes[1..], last);
      assert 256 * (last * Limit(|bytes| - 1)) == last * (256 * Limit(|bytes| - 1));
    }
  }

  // --- A `struct` of unsigned numbers, one after the other ---

  datatype Struct = End | Number(width: nat, rest: Struct)

  function Size(s: Struct): nat {
    match s case End => 0 case Number(width, rest) => width + Size(rest)
  }

  function Count(s: Struct): nat {
    match s case End => 0 case Number(_, rest) => 1 + Count(rest)
  }

  predicate Fits(s: Struct, values: seq<nat>) {
    match s
    case End => values == []
    case Number(width, rest) => values != [] && values[0] < Limit(width) && Fits(rest, values[1..])
  }

  function Pack(s: Struct, values: seq<nat>): (bytes: seq<byte>)
    requires Fits(s, values)
    ensures |bytes| == Size(s)
  {
    match s case End => [] case Number(width, rest) => Encode(values[0], width) + Pack(rest, values[1..])
  }

  function Unpack(s: Struct, bytes: seq<byte>): (values: seq<nat>)
    requires |bytes| == Size(s)
    ensures |values| == Count(s)
  {
    match s case End => [] case Number(width, rest) => [Decode(bytes[..width])] + Unpack(rest, bytes[width..])
  }

  /** Where number `i` starts, and how wide it is. */
  function Offset(s: Struct, i: nat): nat
    requires i < Count(s)
  {
    if i == 0 then 0 else s.width + Offset(s.rest, i - 1)
  }

  function Width(s: Struct, i: nat): nat
    requires i < Count(s)
  {
    if i == 0 then s.width else Width(s.rest, i - 1)
  }

  lemma SliceOfRest(bytes: seq<byte>, k: nat, a: nat, b: nat)
    requires a <= b && k + b <= |bytes|
    ensures bytes[k..][a..b] == bytes[k + a..k + b]
  {
  }

  lemma {:induction false} UnpackAt(s: Struct, bytes: seq<byte>, i: nat)
    requires |bytes| == Size(s) && i < Count(s)
    ensures Offset(s, i) + Width(s, i) <= |bytes|
    ensures Unpack(s, bytes)[i] == Decode(bytes[Offset(s, i)..Offset(s, i) + Width(s, i)])
  {
    if i == 0 {
      assert bytes[0..s.width] == bytes[..s.width];
    } else {
      var a := Offset(s.rest, i - 1);
      UnpackAt(s.rest, bytes[s.width..], i - 1);
      SliceOfRest(bytes, s.width, a, a + Width(s.rest, i - 1));
    }
  }

  lemma {:induction false} UnpackPack(s: Struct, values: seq<nat>)
    requires Fits(s, values)
    ensures Unpack(s, Pack(s, values)) == values
  {
    if s.Number? {
      var bytes := Pack(s, values);
      assert bytes[..s.width] == Encode(values[0], s.width) && bytes[s.width..] == Pack(s.rest, values[1..]);
      DecodeEncode(values[0], s.width);
      UnpackPack(s.rest, values[1..]);
    }
  }
}

module ElfFiles {
  import opened Wrappers
  import opened LittleEndian

  datatype Result<+T> = Ok(value: T) | EndsInside | NotElf64 | WrongEntrySize | TableInHeader

  datatype LoadSegment = LoadSegment(offset: nat, address: nat, alignment: nat)
  datatype Elf = Elf(machine: nat, segments: seq<LoadSegment>)

  const MAGIC: seq<byte> := [0x7F, 0x45, 0x4C, 0x46]
  const IDENT_SIZE := 16
  const HEADER_SIZE := 64
  const ENTRY_SIZE := 56
  const PT_LOAD := 1

  /** The numbers of a file header, after its sixteen bytes of identification, and
      of a program header. */
  datatype Format = Format(header: Struct, entry: Struct)

  const SIX_SHORTS := Number(2, Number(2, Number(2, Number(2, Number(2, Number(2, End))))))
  const SIX_LONGS := Number(8, Number(8, Number(8, Number(8, Number(8, Number(8, End))))))

  const ELF64 := Format(
    Number(2, Number(2, Number(4, Number(8, Number(8, Number(8, Number(4, SIX_SHORTS))))))),
    Number(4, Number(4, SIX_LONGS)))

  ghost predicate IsSized(f: Format) {
    && Count(f.header) == 13 && IDENT_SIZE + Size(f.header) == HEADER_SIZE
    && Count(f.entry) == 8 && Size(f.entry) == ENTRY_SIZE
  }

  lemma Elf64IsSized()
    ensures IsSized(ELF64)
  {
  }

  // --- Reading forward ---

  /** A stream that cannot seek back: a read gets what is left, at most `size` bytes. */
  class Stream {
    const data: seq<byte>
    var pos: nat

    constructor (data: seq<byte>)
      ensures this.data == data && pos == 0 && Valid()
    {
      this.data, pos := data, 0;
    }

    ghost predicate Valid()
      reads this
    {
      pos <= |data|
    }

    method Read(size: nat) returns (bytes: seq<byte>)
      requires Valid()
      modifies this
      ensures Valid() && pos == if old(pos) + size <= |data| then old(pos) + size else |data|
      ensures bytes == data[old(pos)..pos]
    {
      var end := if pos + size <= |data| then pos + size else |data|;
      bytes := data[pos..end];
      pos := end;
    }
  }

  function SegmentOf(entry: seq<nat>): LoadSegment
    requires |entry| == 8
  {
    LoadSegment(entry[2], entry[3], entry[7])
  }

  function EntryAt(f: Format, table: seq<byte>, i: nat): (entry: seq<nat>)
    requires IsSized(f) && ENTRY_SIZE * (i + 1) <= |table|
    ensures |entry| == 8
  {
    Unpack(f.entry, table[ENTRY_SIZE * i..ENTRY_SIZE * i + ENTRY_SIZE])
  }

  /** The segments to load among the first `n` entries, in order. */
  function Loads(f: Format, table: seq<byte>, n: nat): seq<LoadSegment>
    requires IsSized(f) && ENTRY_SIZE * n <= |table|
  {
    if n == 0 then []
    else Loads(f, table, n - 1) + if EntryAt(f, table, n - 1)[0] == PT_LOAD then [SegmentOf(EntryAt(f, table, n - 1))] else []
  }

  function HeaderFields(f: Format, data: seq<byte>): (fields: seq<nat>)
    requires IsSized(f) && |data| >= HEADER_SIZE
    ensures |fields| == 13
  {
    Unpack(f.header, data[IDENT_SIZE..HEADER_SIZE])
  }

  /** What a file holds, read at the offsets its header gives. */
  function Contents(f: Format, data: seq<byte>): Result<Option<Elf>>
    requires IsSized(f)
  {
    if |data| < |MAGIC| || data[..|MAGIC|] != MAGIC then Ok(None)
    else if |data| < HEADER_SIZE then EndsInside
    else
      var fields := HeaderFields(f, data);
      var machine, offset, size, count := fields[1], fields[4], fields[8], fields[9];
      if data[4] != 2 || data[5] != 1 then NotElf64
      else if count == 0 then Ok(Some(Elf(machine, [])))
      else if size != ENTRY_SIZE then WrongEntrySize
      else if offset < HEADER_SIZE then TableInHeader
      else if offset + ENTRY_SIZE * count > |data| then EndsInside
      else Ok(Some(Elf(machine, Loads(f, data[offset..offset + ENTRY_SIZE * count], count))))
  }

  method LoadSegments(f: Format, table: seq<byte>, count: nat) returns (segments: seq<LoadSegment>)
    requires IsSized(f) && |table| == ENTRY_SIZE * count
    ensures segments == Loads(f, table, count)
  {
    segments := [];
    for i := 0 to count
      invariant segments == Loads(f, table, i)
    {
      var entry := EntryAt(f, table, i);
      if entry[0] == PT_LOAD { segments := segments + [SegmentOf(entry)]; }
    }
  }

  /** Reads the program headers with forward reads alone: what it returns is what
      the file holds at the offsets of its header. */
  method ReadFormat(f: Format, stream: Stream) returns (r: Result<Option<Elf>>)
    requires IsSized(f) && stream.Valid() && stream.pos == 0
    modifies stream
    ensures stream.Valid() && r == Contents(f, stream.data)
  {
    var magic := stream.Read(|MAGIC|);
    if magic != MAGIC { return Ok(None); }
    var rest := stream.Read(HEADER_SIZE - |MAGIC|);
    if |rest| != HEADER_SIZE - |MAGIC| { return EndsInside; }
    var header := magic + rest;
    assert header == stream.data[..HEADER_SIZE];
    assert header[IDENT_SIZE..HEADER_SIZE] == stream.data[IDENT_SIZE..HEADER_SIZE];
    var fields := HeaderFields(f, header);
    var machine, offset, size, count := fields[1], fields[4], fields[8], fields[9];
    if header[4] != 2 || header[5] != 1 { return NotElf64; }
    if count > 0 && size != ENTRY_SIZE { return WrongEntrySize; }
    if count > 0 && offset < HEADER_SIZE { return TableInHeader; }
    var segments := [];
    if count > 0 {
      var gap := stream.Read(offset - HEADER_SIZE);
      if |gap| != offset - HEADER_SIZE { return EndsInside; }
      var table := stream.Read(ENTRY_SIZE * count);
      if |table| != ENTRY_SIZE * count { return EndsInside; }
      segments := LoadSegments(f, table, count);
    }
    return Ok(Some(Elf(machine, segments)));
  }

  ghost predicate IsAt(s: Struct, i: nat, offset: nat, width: nat) {
    i < Count(s) && Offset(s, i) == offset && Width(s, i) == width
  }

  /** The machine, the table's offset, the size of an entry and their count in the header;
      the type, the offset, the address and the alignment in an entry. */
  ghost predicate HasOffsets(f: Format) {
    && IsAt(f.header, 1, 2, 2) && IsAt(f.header, 4, 16, 8) && IsAt(f.header, 8, 38, 2) && IsAt(f.header, 9, 40, 2)
    && IsAt(f.entry, 0, 0, 4) && IsAt(f.entry, 2, 8, 8) && IsAt(f.entry, 3, 16, 8) && IsAt(f.entry, 7, 48, 8)
  }

  lemma Elf64HasOffsets()
    ensures HasOffsets(ELF64)
  {
    assert IsAt(SIX_LONGS, 0, 0, 8) && IsAt(SIX_LONGS, 1, 8, 8) && IsAt(SIX_LONGS, 5, 40, 8);
    assert IsAt(SIX_SHORTS, 1, 2, 2) && IsAt(SIX_SHORTS, 2, 4, 2);
  }

  /** The bytes, past the identification, that the reader takes the numbers of the header from. */
  lemma HeaderOffsets(f: Format, data: seq<byte>)
    requires IsSized(f) && HasOffsets(f) && |data| >= HEADER_SIZE
    ensures var fields, h := HeaderFields(f, data), data[IDENT_SIZE..HEADER_SIZE];
            fields[1] == Decode(h[2..4]) && fields[4] == Decode(h[16..24]) && fields[8] == Decode(h[38..40]) && fields[9] == Decode(h[40..42])
  {
    var h := data[IDENT_SIZE..HEADER_SIZE];
    UnpackAt(f.header, h, 1);
    UnpackAt(f.header, h, 4);
    UnpackAt(f.header, h, 8);
    UnpackAt(f.header, h, 9);
  }

  /** And the bytes of an entry of the table. */
  lemma EntryOffsets(f: Format, table: seq<byte>, i: nat)
    requires IsSized(f) && HasOffsets(f) && ENTRY_SIZE * (i + 1) <= |table|
    ensures var entry, e := EntryAt(f, table, i), table[ENTRY_SIZE * i..ENTRY_SIZE * i + ENTRY_SIZE];
            entry[0] == Decode(e[0..4]) && SegmentOf(entry) == LoadSegment(Decode(e[8..16]), Decode(e[16..24]), Decode(e[48..56]))
  {
    var e := table[ENTRY_SIZE * i..ENTRY_SIZE * i + ENTRY_SIZE];
    UnpackAt(f.entry, e, 0);
    UnpackAt(f.entry, e, 2);
    UnpackAt(f.entry, e, 3);
    UnpackAt(f.entry, e, 7);
  }

  // --- The layout it inverts ---

  /** A program header, field by field. */
  datatype ProgramHeader = ProgramHeader(
    kind: nat, flags: nat, offset: nat, address: nat, physical: nat, fileSize: nat, memorySize: nat, alignment: nat)

  /** The fields in the order of the file. */
  function Numbers(h: ProgramHeader): (numbers: seq<nat>)
    ensures |numbers| == 8
  {
    [h.kind, h.flags, h.offset, h.address, h.physical, h.fileSize, h.memorySize, h.alignment]
  }

  ghost predicate AreEntries(f: Format, entries: seq<ProgramHeader>) {
    forall i :: 0 <= i < |entries| ==> Fits(f.entry, Numbers(entries[i]))
  }

  /** The program header table in bytes. */
  ghost function Table(f: Format, entries: seq<ProgramHeader>): (bytes: seq<byte>)
    requires IsSized(f) && AreEntries(f, entries)
    ensures |bytes| == ENTRY_SIZE * |entries|
  {
    if entries == [] then [] else Table(f, entries[..|entries| - 1]) + Pack(f.entry, Numbers(entries[|entries| - 1]))
  }

  /** The segments of the entries of type PT_LOAD, in order. */
  function Segments(entries: seq<ProgramHeader>): seq<LoadSegment> {
    if entries == [] then []
    else
      var last := entries[|entries| - 1];
      Segments(entries[..|entries| - 1]) + if last.kind == PT_LOAD then [LoadSegment(last.offset, last.address, last.alignment)] else []
  }

  lemma {:induction false} LoadsOfPrefix(f: Format, table: seq<byte>, more: seq<byte>, n: nat)
    requires IsSized(f) && ENTRY_SIZE * n <= |table|
    ensures Loads(f, table + more, n) == Loads(f, table, n)
  {
    if n > 0 {
      LoadsOfPrefix(f, table, more, n - 1);
      var a, b := ENTRY_SIZE * (n - 1), ENTRY_SIZE * (n - 1) + ENTRY_SIZE;
      assert (table + more)[a..b] == table[a..b];
    }
  }

  lemma EntryAfter(f: Format, table: seq<byte>, n: nat, entry: seq<nat>)
    requires IsSized(f) && |table| == ENTRY_SIZE * n && Fits(f.entry, entry)
    ensures EntryAt(f, table + Pack(f.entry, entry), n) == entry
  {
    var bytes := Pack(f.entry, entry);
    assert (table + bytes)[ENTRY_SIZE * n..ENTRY_SIZE * n + ENTRY_SIZE] == bytes;
    UnpackPack(f.entry, entry);
  }

  lemma {:induction false} LoadsOfTable(f: Format, entries: seq<ProgramHeader>)
    requires IsSized(f) && AreEntries(f, entries)
    ensures Loads(f, Table(f, entries), |entries|) == Segments(entries)
  {
    if entries != [] {
      var n := |entries| - 1;
      var less := Table(f, entries[..n]);
      LoadsOfTable(f, entries[..n]);
      LoadsOfPrefix(f, less, Pack(f.entry, Numbers(entries[n])), n);
      EntryAfter(f, less, n, Numbers(entries[n]));
    }
  }

  /** A file header after its identification, field by field. */
  datatype FileHeader = FileHeader(
    kind: nat, machine: nat, version: nat, entry: nat, tableOffset: nat, sectionsOffset: nat, flags: nat, headerSize: nat,
    entrySize: nat, entryCount: nat, sectionSize: nat, sectionCount: nat, namesIndex: nat)

  /** The fields in the order of the file. */
  function HeaderNumbers(h: FileHeader): (numbers: seq<nat>)
    ensures |numbers| == 13
  {
    [h.kind, h.machine, h.version, h.entry, h.tableOffset, h.sectionsOffset, h.flags, h.headerSize,
     h.entrySize, h.entryCount, h.sectionSize, h.sectionCount, h.namesIndex]
  }

  /** The header is that of a 64-bit little-endian file with this gap and table. */
  ghost predicate Describes(f: Format, ident: seq<byte>, h: FileHeader, gap: seq<byte>, entries: seq<ProgramHeader>)
    requires IsSized(f)
  {
    && |ident| == IDENT_SIZE && ident[..|MAGIC|] == MAGIC && ident[4] == 2 && ident[5] == 1
    && Fits(f.header, HeaderNumbers(h)) && AreEntries(f, entries) && h.entryCount == |entries|
    && (entries != [] ==> h.tableOffset == HEADER_SIZE + |gap| && h.entrySize == ENTRY_SIZE)
  }

  /** A file: identification, header, what lies before the table, the table, the rest. */
  ghost function Layout(f: Format, ident: seq<byte>, h: FileHeader, gap: seq<byte>, entries: seq<ProgramHeader>, rest: seq<byte>): seq<byte>
    requires IsSized(f) && Describes(f, ident, h, gap, entries)
  {
    ident + Pack(f.header, HeaderNumbers(h)) + gap + Table(f, entries) + rest
  }

  /** Reading a file gives its machine and exactly its PT_LOAD entries, in order. */
  lemma ContentsOfLayout(f: Format, ident: seq<byte>, h: FileHeader, gap: seq<byte>, entries: seq<ProgramHeader>, rest: seq<byte>)
    requires IsSized(f) && Describes(f, ident, h, gap, entries)
    ensures Contents(f, Layout(f, ident, h, gap, entries, rest)) == Ok(Some(Elf(h.machine, Segments(entries))))
  {
    var data := Layout(f, ident, h, gap, entries, rest);
    var header, table := Pack(f.header, HeaderNumbers(h)), Table(f, entries);
    assert data[..|MAGIC|] == ident[..|MAGIC|];
    assert data[IDENT_SIZE..HEADER_SIZE] == header;
    UnpackPack(f.header, HeaderNumbers(h));
    if entries != [] {
      assert data[h.tableOffset..h.tableOffset + ENTRY_SIZE * |entries|] == table;
    }
    LoadsOfTable(f, entries);
  }

  /** Reads a file of the ELF64 format. */
  method ReadElf(stream: Stream) returns (r: Result<Option<Elf>>)
    requires stream.Valid() && stream.pos == 0
    modifies stream
    ensures IsSized(ELF64) && r == Contents(ELF64, stream.data)
  {
    Elf64IsSized();
    r := ReadFormat(ELF64, stream);
  }

  // --- Pages of 16 KiB ---

  const PAGE_SIZE := 16384

  function RoundDown(n: nat): nat {
    n - n % PAGE_SIZE
  }

  /** A kernel with 16 KiB pages can map the segment: it is aligned to a page or more,
      and its pages in the file are at a fixed distance from its pages in memory. */
  predicate CanMap(s: LoadSegment) {
    s.alignment >= PAGE_SIZE && RoundDown(s.address) - RoundDown(s.offset) == s.address - s.offset
  }

  /** The first segment that cannot be mapped. */
  method PageSizeProblem(elf: Elf) returns (first: Option<nat>)
    ensures first.None? <==> forall i :: 0 <= i < |elf.segments| ==> CanMap(elf.segments[i])
    ensures first.Some? ==> first.value < |elf.segments| && !CanMap(elf.segments[first.value])
                            && forall i :: 0 <= i < first.value ==> CanMap(elf.segments[i])
  {
    for i := 0 to |elf.segments|
      invariant forall k :: 0 <= k < i ==> CanMap(elf.segments[k])
    {
      var segment := elf.segments[i];
      if segment.alignment < PAGE_SIZE { return Some(i); }
      SamePositionMeansMapped(segment.address, segment.offset);
      if (segment.address - segment.offset) % PAGE_SIZE != 0 { return Some(i); }
    }
    return None;
  }

  /** The distance is a number of pages exactly when both are at the same position
      in a page, which is when rounding both down keeps their distance. */
  lemma SamePositionMeansMapped(address: nat, offset: nat)
    ensures (address - offset) % PAGE_SIZE == 0 <==> address % PAGE_SIZE == offset % PAGE_SIZE
    ensures (address - offset) % PAGE_SIZE == 0 <==> RoundDown(address) - RoundDown(offset) == address - offset
  {
    var a, b := address / PAGE_SIZE, offset / PAGE_SIZE;
    assert address - offset == PAGE_SIZE * (a - b) + (address % PAGE_SIZE - offset % PAGE_SIZE);
  }
}
