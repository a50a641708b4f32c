/** A file the loader takes although it does not stay in the lower half: one page, at 2^47. */
module ElfWitness {
  import opened Paging
  import opened ElfFormat
  import opened Elf

  const ZEROS: seq<Byte> := [0, 0, 0, 0, 0, 0, 0, 0]
  const AT_TOP: seq<Byte> := [0, 0, 0, 0, 0, 0x80, 0, 0]

  const FILE_HEADER: seq<Byte> :=
    [0x7F, 0x45, 0x4C, 0x46, 2, 1, 1, 0] + ZEROS + [2, 0, 0x3E, 0, 1, 0, 0, 0] + AT_TOP +
    [64, 0, 0, 0, 0, 0, 0, 0] + ZEROS + [0, 0, 0, 0, 64, 0, 56, 0] + [1, 0, 0, 0, 0, 0, 0, 0]

  const PROGRAM_HEADER: seq<Byte> :=
    [1, 0, 0, 0, 7, 0, 0, 0] + ZEROS + AT_TOP + ZEROS + ZEROS + [1, 0, 0, 0, 0, 0, 0, 0] + ZEROS

  const HIGH_FILE: seq<Byte> := FILE_HEADER + PROGRAM_HEADER

  lemma Le2(b: seq<Byte>)
    requires |b| == 2
    ensures Le(b) == b[0] as int + 256 * b[1] as int
  {
    assert Le(b[1..]) == b[1] as int + 256 * Le(b[1..][1..]);
  }

  lemma Le4(b: seq<Byte>)
    requires |b| == 4
    ensures Le(b) == b[0] as int + 256 * b[1] as int + 0x1_0000 * b[2] as int + 0x100_0000 * b[3] as int
  {
    var c := b[1..][1..];
    Le2(c);
    assert Le(b[1..]) == b[1] as int + 256 * Le(c);
  }

  lemma Le8(b: seq<Byte>)
    requires |b| == 8 && b[1] == b[2] == b[3] == b[4] == b[6] == b[7] == 0
    ensures Le(b) == b[0] as int + 0x100_0000_0000 * b[5] as int
  {
    var c := b[1..][1..][1..][1..];
    Le4(c);
    assert Le(b[1..][1..][1..]) == b[3] as int + 256 * Le(c);
    assert Le(b[1..][1..]) == b[2] as int + 256 * Le(b[1..][1..][1..]);
    assert Le(b[1..]) == b[1] as int + 256 * Le(b[1..][1..]);
  }

  lemma HighHeader()
    ensures HeaderError(HIGH_FILE) == None && PhNum(HIGH_FILE) == 1
    ensures HeaderAt(HIGH_FILE, 0) == 64 && |HIGH_FILE| == 120
  {
    var d := HIGH_FILE;
    assert d[0..4] == [0x7F, 0x45, 0x4C, 0x46];
    Le2(d[16..18]);
    Le2(d[18..20]);
    Le2(d[54..56]);
    Le2(d[56..58]);
    Le8(d[32..40]);
  }

  lemma HighSegment()
    ensures HeaderAt(HIGH_FILE, 0) == 64 && |HIGH_FILE| == 120
    ensures SegmentAt(HIGH_FILE, 0) == Segment(PT_LOAD, 0, USER_TOP, 0, 1)
  {
    HighHeader();
    var d := HIGH_FILE;
    Le4(d[64..68]);
    Le8(d[72..80]);
    Le8(d[80..88]);
    Le8(d[96..104]);
    Le8(d[104..112]);
  }

  /** The file is in order, and its one segment is the first page of the upper half. */
  lemma HighIsFine()
    ensures FirstError(HIGH_FILE, PhNum(HIGH_FILE)) == None
    ensures LoadList(HIGH_FILE, PhNum(HIGH_FILE)) == [Segment(PT_LOAD, 0, USER_TOP, 0, 1)]
  {
    hide HeaderError, PhNum, HeaderAt, SegmentAt;
    HighHeader();
    HighSegment();
    assert FirstError(HIGH_FILE, 0) == None;
    assert LoadList(HIGH_FILE, 0) == [];
  }

  /** Loading it, unless memory runs out, puts a frame of the program at the start of the upper half of every
      space that has that part of it in common. */
  method HighLoad(mem: Memory, root: nat, other: nat) returns (r: Result)
    requires mem.Valid() && root in mem.shape.users && SpaceIs(mem.tables, mem.data, root, [], Mode(true, false, false))
    requires InCommon(mem.tables, mem.shape, root, other, V(LOW_PAGES))
    modifies mem
    ensures mem.Valid() && (r.Err? ==> mem.free == {})
    ensures r.Ok? ==> var e := Walk(mem.tables, other, V(LOW_PAGES)); e.Some? && e.value.frame in r.pages
  {
    hide Inv, SpaceIs, Framed, Holds, Accounted, LowUser, Confined, Taken, Walk, V, HIGH_FILE, Field, FirstError,
      LoadList;
    HighIsFine();
    BelowIndices(LoadList(HIGH_FILE, PhNum(HIGH_FILE)));
    r := Load(mem, HIGH_FILE, root);
    assert HasPage(LoadList(HIGH_FILE, PhNum(HIGH_FILE))[0], LOW_PAGES);
  }
}
