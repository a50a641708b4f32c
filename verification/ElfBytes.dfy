/** What the loader makes of a file, said of the file's own bytes (chapters 4 and 5 of the System V gABI). */
module ElfBytes {
  import opened Paging
  import opened ElfFormat
  import opened Elf

  // ---- little-endian words --------------------------------------------------------------------------

  ghost function Word2(d: seq<Byte>, o: nat): nat
    requires o + 2 <= |d|
  {
    d[o] as int + 0x100 * d[o + 1] as int
  }

  ghost function Word4(d: seq<Byte>, o: nat): nat
    requires o + 4 <= |d|
  {
    Word2(d, o) + 0x1_0000 * Word2(d, o + 2)
  }

  ghost function Word8(d: seq<Byte>, o: nat): nat
    requires o + 8 <= |d|
  {
    Word4(d, o) + 0x1_0000_0000 * Word4(d, o + 4)
  }

  lemma {:induction false} LeConcat(a: seq<Byte>, b: seq<Byte>, p: nat)
    requires p == Power(|a|)
    ensures Le(a + b) == Le(a) + p * Le(b)
  {
    if a == [] {
      assert a + b == b;
    } else {
      var q := Power(|a| - 1);
      LeConcat(a[1..], b, q);
      assert (a + b)[1..] == a[1..] + b;
      assert 256 * (q * Le(b)) == (256 * q) * Le(b);
    }
  }

  function Power(n: nat): nat { if n == 0 then 1 else 256 * Power(n - 1) }

  lemma Field2(d: seq<Byte>, o: nat)
    requires o + 2 <= |d|
    ensures Field(d, o, 2) == Word2(d, o)
  {
    var b := d[o..o + 2];
    assert Le(b[1..]) == b[1] as int + 256 * Le(b[1..][1..]);
  }

  lemma Field4(d: seq<Byte>, o: nat)
    requires o + 4 <= |d|
    ensures Field(d, o, 4) == Word4(d, o)
  {
    hide Word2;
    Field2(d, o);
    Field2(d, o + 2);
    assert Power(2) == 0x1_0000 by { assert Power(1) == 256; }
    LeConcat(d[o..o + 2], d[o + 2..o + 4], 0x1_0000);
    assert d[o..o + 4] == d[o..o + 2] + d[o + 2..o + 4];
  }

  lemma Field8(d: seq<Byte>, o: nat)
    requires o + 8 <= |d|
    ensures Field(d, o, 8) == Word8(d, o)
  {
    hide Word4;
    Field4(d, o);
    Field4(d, o + 4);
    assert Power(4) == 0x1_0000_0000 by { assert Power(1) == 256 && Power(2) == 0x1_0000 && Power(3) == 0x100_0000; }
    LeConcat(d[o..o + 4], d[o + 4..o + 8], 0x1_0000_0000);
    assert d[o..o + 8] == d[o..o + 4] + d[o + 4..o + 8];
  }

  // ---- the checks -----------------------------------------------------------------------------------

  /** The first 64 bytes are the header of a little-endian x86-64 executable. */
  ghost predicate ExecutableHeader(d: seq<Byte>) {
    && |d| >= 64
    && d[0] == 0x7F && d[1] == 'E' as int && d[2] == 'L' as int && d[3] == 'F' as int
    && d[4] == 2 && d[5] == 1 && Word2(d, 16) == 2 && Word2(d, 18) == 0x3E && Word2(d, 54) >= 56
  }

  /** Where program header `i` is. */
  ghost function HeaderOf(d: seq<Byte>, i: nat): nat
    requires |d| >= 64
  {
    Along(Word8(d, 32), i, Word2(d, 54))
  }

  ghost function Along(base: nat, i: nat, size: nat): nat { base + i * size }

  /** Program header `i` is in the file. */
  ghost predicate InFile(d: seq<Byte>, i: nat)
    requires |d| >= 64
  {
    HeaderOf(d, i) + 56 <= |d|
  }

  /** Program header `i` asks for memory. */
  ghost predicate Loadable(d: seq<Byte>, i: nat)
    requires |d| >= 64 && InFile(d, i)
  {
    Word4(d, HeaderOf(d, i)) == 1 && Word8(d, HeaderOf(d, i) + 40) != 0
  }

  /** Program header `i` is in the file, and so are the bytes it asks for. */
  ghost predicate Sound(d: seq<Byte>, i: nat)
    requires |d| >= 64
  {
    && InFile(d, i)
    && var o := HeaderOf(d, i);
    Loadable(d, i) && Word8(d, o + 32) > 0 ==> Word8(d, o + 8) + Word8(d, o + 32) <= |d|
  }

  lemma HeadersAt(d: seq<Byte>, i: nat)
    requires |d| >= 64
    ensures HeaderAt(d, i) == HeaderOf(d, i) && PhNum(d) == Word2(d, 56) && PhEntSize(d) == Word2(d, 54)
  {
    hide Field, Word8, Word2;
    Field8(d, 32);
    Field2(d, 54);
    Field2(d, 56);
  }

  lemma SegmentIs(d: seq<Byte>, i: nat)
    requires |d| >= 64 && InFile(d, i)
    ensures HeaderAt(d, i) == HeaderOf(d, i)
    ensures var o := HeaderOf(d, i);
      SegmentAt(d, i) ==
        Segment(Word4(d, o), Word8(d, o + 8), Word8(d, o + 16), Word8(d, o + 32), Word8(d, o + 40))
  {
    hide Field, Word8, Word4, HeaderAt, HeaderOf;
    HeadersAt(d, i);
    var o := HeaderOf(d, i);
    Field4(d, o);
    Field8(d, o + 8);
    Field8(d, o + 16);
    Field8(d, o + 32);
    Field8(d, o + 40);
  }

  /** Each complaint about the file header, exactly when it is made. */
  lemma HeaderErrorIs(d: seq<Byte>)
    ensures HeaderError(d) == None <==> ExecutableHeader(d)
    ensures HeaderError(d) == Some(TooSmall) <==> |d| < 64
    ensures HeaderError(d) == Some(BadMagic) <==>
      |d| >= 64 && !(d[0] == 0x7F && d[1] == 'E' as int && d[2] == 'L' as int && d[3] == 'F' as int)
    ensures |d| >= 64 && HeaderError(d) == Some(NotElf64) ==> d[4] != 2
    ensures |d| >= 64 && HeaderError(d) == Some(NotLittleEndian) ==> d[4] == 2 && d[5] != 1
    ensures |d| >= 64 && HeaderError(d) == Some(NotExecutable) ==> d[4] == 2 && d[5] == 1 && Word2(d, 16) != 2
    ensures |d| >= 64 && HeaderError(d) == Some(NotX86) ==> Word2(d, 16) == 2 && Word2(d, 18) != 0x3E
    ensures |d| >= 64 && HeaderError(d) == Some(EntrySizeTooSmall) ==> Word2(d, 18) == 0x3E && Word2(d, 54) < 56
  {
    hide Field, Word2;
    if |d| >= 64 {
      Field2(d, 16);
      Field2(d, 18);
      Field2(d, 54);
      assert d[0..4] == [d[0], d[1], d[2], d[3]];
    }
  }

  lemma EntryErrorIs(d: seq<Byte>, i: nat)
    requires |d| >= 64
    ensures EntryError(d, i) == None <==> Sound(d, i)
    ensures EntryError(d, i) == Some(HeaderOutOfBounds) <==> !InFile(d, i)
    ensures EntryError(d, i) == Some(SegmentPastEnd) <==> InFile(d, i) && !Sound(d, i)
  {
    hide Word8, Word4, HeaderOf, HeaderAt, SegmentAt;
    HeadersAt(d, i);
    if InFile(d, i) { SegmentIs(d, i); }
  }

  /** A file is taken, memory permitting, if and only if its header is that of an executable and every program header
      and the bytes it asks for are in it; otherwise the complaint is about the first thing wrong. */
  lemma {:induction false} TakenIff(d: seq<Byte>, n: nat)
    ensures FirstError(d, n) == None <==> ExecutableHeader(d) && forall i :: 0 <= i < n ==> Sound(d, i)
    ensures ExecutableHeader(d) && FirstError(d, n).Some? ==>
      exists i :: 0 <= i < n && !Sound(d, i) && (forall j :: 0 <= j < i ==> Sound(d, j)) &&
        FirstError(d, n) == Some(if InFile(d, i) then SegmentPastEnd else HeaderOutOfBounds)
    ensures !ExecutableHeader(d) ==> FirstError(d, n) == HeaderError(d)
  {
    hide Sound, InFile, HeaderError, EntryError, ExecutableHeader;
    HeaderErrorIs(d);
    if HeaderError(d) == None && n > 0 {
      HeaderSize(d);
      TakenIff(d, n - 1);
      EntryErrorIs(d, n - 1);
    }
  }

  lemma HeaderSize(d: seq<Byte>)
    requires ExecutableHeader(d)
    ensures |d| >= 64
  {
  }

  // ---- the image --------------------------------------------------------------------------------------

  /** Address `a` lies on a page of program header `i`. */
  ghost predicate Covers(d: seq<Byte>, i: nat, a: nat)
    requires |d| >= 64
  {
    && InFile(d, i) && Loadable(d, i)
    && var o := HeaderOf(d, i);
    && Word8(d, o + 16) / PAGE <= a / PAGE
    && a / PAGE * PAGE < Word8(d, o + 16) + Word8(d, o + 40)
  }

  /** Program header `i` gives address `a` a byte of the file. */
  ghost predicate Supplies(d: seq<Byte>, i: nat, a: nat)
    requires |d| >= 64
  {
    Covers(d, i, a) && var o := HeaderOf(d, i); Word8(d, o + 16) <= a < Word8(d, o + 16) + Word8(d, o + 32)
  }

  /** Where in the file that byte is. */
  ghost function PlaceOf(d: seq<Byte>, i: nat, a: nat): int
    requires |d| >= 64 && Supplies(d, i, a)
  {
    var o := HeaderOf(d, i);
    Word8(d, o + 8) + (a - Word8(d, o + 16))
  }

  lemma PageBelow(end: nat, q: nat)
    ensures q < (end + PAGE - 1) / PAGE <==> q * PAGE < end
  {
  }

  lemma HeaderPages(d: seq<Byte>, i: nat, a: nat)
    requires |d| >= 64 && Sound(d, i) && HeaderAt(d, i) + 56 <= |d|
    ensures Loadable(d, i) == SegmentAt(d, i).Loads()
    ensures Covers(d, i, a) <==> SegmentAt(d, i).Loads() && HasPage(SegmentAt(d, i), a / PAGE)
    ensures Supplies(d, i, a) <==> SegmentAt(d, i).Loads() && SegmentAt(d, i).Fills(a)
    ensures Supplies(d, i, a) ==>
      var s := SegmentAt(d, i); PlaceOf(d, i, a) == s.offset + (a - s.vaddr) && 0 <= PlaceOf(d, i, a) < |d|
  {
    hide Word8, Word4, HeaderOf, HeaderAt;
    SegmentIs(d, i);
    var s := SegmentAt(d, i);
    PageBelow(s.vaddr + s.memsz, a / PAGE);
    assert s.vaddr <= a ==> s.vaddr / PAGE <= a / PAGE;
  }

  /** The last header below `n` that supplies `a`. */
  ghost predicate LastOf(d: seq<Byte>, n: nat, i: nat, a: nat)
    requires |d| >= 64
  {
    i < n && Supplies(d, i, a) && forall j :: i < j < n ==> !Supplies(d, j, a)
  }

  lemma {:induction false} FlatIs(d: seq<Byte>, n: nat, a: nat)
    requires FirstError(d, n) == None && |d| >= 64
    ensures forall i :: 0 <= i < n && LastOf(d, n, i, a) ==>
      0 <= PlaceOf(d, i, a) < |d| && Flat(d, LoadList(d, n), a) == d[PlaceOf(d, i, a)]
    ensures (forall i :: 0 <= i < n ==> !Supplies(d, i, a)) ==> Flat(d, LoadList(d, n), a) == 0
    ensures InImage(LoadList(d, n), a / PAGE) <==> exists i :: 0 <= i < n && Covers(d, i, a)
  {
    hide Supplies, Covers, PlaceOf, HeaderAt, SegmentAt, HasPage, InFile, Loadable;
    if n > 0 {
      FlatIs(d, n - 1, a);
      NoErrorBelow(d, n, n - 1);
      EntryErrorIs(d, n - 1);
      HeaderPages(d, n - 1, a);
      var segs, s := LoadList(d, n - 1), SegmentAt(d, n - 1);
      if s.Loads() {
        ImageMore(segs, s, a / PAGE);
        assert (segs + [s])[..|segs|] == segs;
      }
      forall i | 0 <= i < n && LastOf(d, n, i, a)
        ensures 0 <= PlaceOf(d, i, a) < |d| && Flat(d, LoadList(d, n), a) == d[PlaceOf(d, i, a)]
      {
        if i < n - 1 { assert LastOf(d, n - 1, i, a); }
      }
    }
  }

  /** The file asks for nothing at or above 2^47. */
  ghost predicate StaysLow(d: seq<Byte>)
    requires |d| >= 64
  {
    forall i :: 0 <= i < Word2(d, 56) && InFile(d, i) && Loadable(d, i) ==>
      Word8(d, HeaderOf(d, i) + 16) + Word8(d, HeaderOf(d, i) + 40) <= 0x8000_0000_0000
  }

  lemma {:induction false} LowSegments(d: seq<Byte>, n: nat)
    requires FirstError(d, n) == None && |d| >= 64
    ensures AllUser(LoadList(d, n)) <==> forall i :: 0 <= i < n && InFile(d, i) && Loadable(d, i) ==>
      Word8(d, HeaderOf(d, i) + 16) + Word8(d, HeaderOf(d, i) + 40) <= 0x8000_0000_0000
  {
    hide Word8, Word4, HeaderOf, HeaderAt, SegmentAt;
    if n > 0 {
      LowSegments(d, n - 1);
      NoErrorBelow(d, n, n - 1);
      EntryErrorIs(d, n - 1);
      SegmentIs(d, n - 1);
      HeaderPages(d, n - 1, 0);
      var segs, s := LoadList(d, n - 1), SegmentAt(d, n - 1);
      if s.Loads() {
        assert (segs + [s])[|segs|] == s;
        assert forall k :: 0 <= k < |segs| ==> (segs + [s])[k] == segs[k];
      }
    }
  }

  /** What the file says address `a` reads as: the byte the last program header to supply one names, zero elsewhere on
      the pages some header asks for, and nothing anywhere else. */
  ghost predicate SaysOf(d: seq<Byte>, a: nat, r: Option<Byte>)
    requires |d| >= 64
  {
    var n := Word2(d, 56);
    && (forall i :: 0 <= i < n && LastOf(d, n, i, a) ==> 0 <= PlaceOf(d, i, a) < |d| && r == Some(d[PlaceOf(d, i, a)]))
    && ((forall i :: 0 <= i < n ==> !Supplies(d, i, a)) ==>
         r == if exists i :: 0 <= i < n && Covers(d, i, a) then Some(0) else None)
  }

  /** A file that stays below 2^47 is, address by address, what a program finds there. */
  ghost predicate ReadsFile(mem: Memory, root: nat, d: seq<Byte>)
    requires |d| >= 64
    reads mem
  {
    forall a :: 0 <= a < 0x8000_0000_0000 ==> SaysOf(d, a, Read(mem.tables, mem.data, root, a))
  }

  lemma HoldsReads(mem: Memory, root: nat, d: seq<Byte>, pages: seq<nat>)
    requires FirstError(d, PhNum(d)) == None && |d| >= 64 && Holds(mem, root, d, LoadList(d, PhNum(d)), pages)
    ensures ReadsFile(mem, root, d)
  {
    hide Read, LoadList, Flat, InImage, PhNum, SaysOf, FirstError;
    forall a: nat | a < 0x8000_0000_0000 ensures SaysOf(d, a, Read(mem.tables, mem.data, root, a)) {
      ImageSays(d, a);
    }
  }

  lemma ImageSays(d: seq<Byte>, a: nat)
    requires FirstError(d, PhNum(d)) == None && |d| >= 64
    ensures var segs := LoadList(d, PhNum(d));
      SaysOf(d, a, if InImage(segs, a / PAGE) then Some(Flat(d, segs, a)) else None)
  {
    hide LoadList, Flat, InImage, PhNum, Supplies, Covers, PlaceOf, FirstError;
    HeadersAt(d, 0);
    FlatIs(d, PhNum(d), a);
    forall i | 0 <= i < Word2(d, 56) && Supplies(d, i, a) ensures Covers(d, i, a) { SuppliesCovers(d, i, a); }
  }

  lemma SuppliesCovers(d: seq<Byte>, i: nat, a: nat)
    requires |d| >= 64 && Supplies(d, i, a)
    ensures Covers(d, i, a)
  {
  }

  /** Loading any file: it is taken, unless memory runs out, if and only if it is sound and asks for some memory, and
      then, if it stays low, the space reads as its bytes say. */
  method LoadBytes(mem: Memory, d: seq<Byte>, root: nat) returns (r: Result)
    requires mem.Valid() && root in mem.shape.users && SpaceIs(mem.tables, mem.data, root, [], Mode(true, false, false))
    modifies mem
    ensures mem.Valid()
    ensures r.Ok? ==> ExecutableHeader(d) && forall i :: 0 <= i < Word2(d, 56) ==> Sound(d, i)
    ensures r.Ok? ==> exists i :: 0 <= i < Word2(d, 56) && InFile(d, i) && Loadable(d, i)
    ensures r.Ok? && StaysLow(d) ==> ReadsFile(mem, root, d)
    ensures r.Ok? ==> r.entry == Word8(d, 24)
    ensures r.Err? ==>
      || mem.free == {} || !ExecutableHeader(d) || (exists i :: 0 <= i < Word2(d, 56) && !Sound(d, i))
      || forall i :: 0 <= i < Word2(d, 56) && InFile(d, i) ==> !Loadable(d, i)
  {
    hide Inv, SpaceIs, Framed, Holds, Accounted, LowUser, Confined, Taken, Walk, V, Field, FirstError, LoadList,
      Spilled, OwnIndices, ExecutableHeader, Sound, ReadsFile, AllUser, StaysLow, Word8, InFile, Loadable, PhNum;
    TakenIff(d, PhNum(d));
    r := Load(mem, d, root);
    if ExecutableHeader(d) {
      HeaderSize(d);
      HeadersAt(d, 0);
      if FirstError(d, PhNum(d)) == None {
        Field8(d, 24);
        LowFile(d);
        NothingToLoad(d, PhNum(d));
        if r.Ok? && StaysLow(d) { HoldsReads(mem, root, d, r.pages); }
      }
    }
  }

  lemma LowFile(d: seq<Byte>)
    requires FirstError(d, PhNum(d)) == None && |d| >= 64
    ensures AllUser(LoadList(d, PhNum(d))) <==> StaysLow(d)
  {
    hide Word8, Word4, HeaderOf, LoadList, FirstError, AllUser, PhNum;
    HeadersAt(d, 0);
    LowSegments(d, PhNum(d));
  }

  lemma {:induction false} NothingToLoad(d: seq<Byte>, n: nat)
    requires FirstError(d, n) == None && |d| >= 64
    ensures LoadList(d, n) == [] <==> forall i :: 0 <= i < n && InFile(d, i) ==> !Loadable(d, i)
  {
    hide Word8, Word4, HeaderOf, HeaderAt, SegmentAt, InFile;
    if n > 0 {
      NothingToLoad(d, n - 1);
      NoErrorBelow(d, n, n - 1);
      EntryErrorIs(d, n - 1);
      HeaderPages(d, n - 1, 0);
    }
  }
}
