/** The part of the ELF64 format the loader reads, and the flat memory image a file describes
    (chapters 4 and 5 of the System V gABI: ELF Header, Program Header). */
module ElfFormat {
  import opened Paging

  datatype Error = TooSmall | BadMagic | NotElf64 | NotLittleEndian | NotExecutable | NotX86
                 | EntrySizeTooSmall | HeaderOutOfBounds | SegmentPastEnd | NoSegments
                 | OutOfMemory | Panicked

  const PT_LOAD: nat := 1
  const USER_TOP: nat := 0x8000_0000_0000

  function Le(b: seq<Byte>): nat { if b == [] then 0 else b[0] as int + 256 * Le(b[1..]) }

  function Field(d: seq<Byte>, off: nat, n: nat): nat
    requires off + n <= |d|
  {
    Le(d[off..off + n])
  }

  function PhOff(d: seq<Byte>): nat requires |d| >= 64 { Field(d, 32, 8) }
  function PhEntSize(d: seq<Byte>): nat requires |d| >= 64 { Field(d, 54, 2) }
  function PhNum(d: seq<Byte>): nat { if |d| < 64 then 0 else Field(d, 56, 2) }

  /** The checks before the first program header, in order. */
  function HeaderError(d: seq<Byte>): Option<Error> {
    if |d| < 64 then Some(TooSmall)
    else if d[0..4] != [0x7F, 0x45, 0x4C, 0x46] then Some(BadMagic)
    else if d[4] != 2 then Some(NotElf64)
    else if d[5] != 1 then Some(NotLittleEndian)
    else if Field(d, 16, 2) != 2 then Some(NotExecutable)
    else if Field(d, 18, 2) != 0x3E then Some(NotX86)
    else if PhEntSize(d) < 56 then Some(EntrySizeTooSmall)
    else None
  }

  datatype Segment = Segment(kind: nat, offset: nat, vaddr: nat, filesz: nat, memsz: nat) {
    predicate Loads() { kind == PT_LOAD && memsz != 0 }
    function FirstPage(): nat { vaddr / PAGE }
    function EndPage(): nat { (vaddr + memsz + PAGE - 1) / PAGE }
    /** The address `a` gets a byte of the file. */
    predicate Fills(a: nat) { vaddr <= a < vaddr + filesz && a / PAGE < EndPage() }
  }

  function HeaderAt(d: seq<Byte>, i: nat): nat requires |d| >= 64 { PhOff(d) + i * PhEntSize(d) }

  function SegmentAt(d: seq<Byte>, i: nat): Segment
    requires |d| >= 64 && HeaderAt(d, i) + 56 <= |d|
  {
    var o := HeaderAt(d, i);
    Segment(Field(d, o, 4), Field(d, o + 8, 8), Field(d, o + 16, 8), Field(d, o + 32, 8), Field(d, o + 40, 8))
  }

  function EntryError(d: seq<Byte>, i: nat): Option<Error>
    requires |d| >= 64
  {
    if HeaderAt(d, i) + 56 > |d| then Some(HeaderOutOfBounds)
    else
      var s := SegmentAt(d, i);
      if s.Loads() && s.filesz > 0 && s.offset + s.filesz > |d| then Some(SegmentPastEnd) else None
  }

  /** The first check that fails among the file header and the first `n` program headers. */
  function FirstError(d: seq<Byte>, n: nat): Option<Error> {
    if HeaderError(d).Some? then HeaderError(d)
    else if n == 0 then None
    else if FirstError(d, n - 1).Some? then FirstError(d, n - 1)
    else EntryError(d, n - 1)
  }

  lemma {:induction false} NoErrorBelow(d: seq<Byte>, n: nat, i: nat)
    requires FirstError(d, n) == None && i < n
    ensures |d| >= 64 && EntryError(d, i) == None && HeaderAt(d, i) + 56 <= |d|
  {
    if i < n - 1 { NoErrorBelow(d, n - 1, i); }
  }

  lemma {:induction false} ErrorStays(d: seq<Byte>, k: nat, n: nat)
    requires k <= n && FirstError(d, k).Some?
    ensures FirstError(d, n) == FirstError(d, k)
  {
    if k < n { ErrorStays(d, k, n - 1); }
  }

  /** The loadable segments among the first `n` program headers, in file order. */
  function LoadList(d: seq<Byte>, n: nat): seq<Segment> {
    if n == 0 then []
    else if |d| >= 64 && HeaderAt(d, n - 1) + 56 <= |d| && SegmentAt(d, n - 1).Loads() then
      LoadList(d, n - 1) + [SegmentAt(d, n - 1)]
    else LoadList(d, n - 1)
  }

  ghost predicate FileOk(d: seq<Byte>, s: Segment) { s.Loads() && (s.filesz > 0 ==> s.offset + s.filesz <= |d|) }

  ghost predicate FilesOk(d: seq<Byte>, segs: seq<Segment>) { forall i :: 0 <= i < |segs| ==> FileOk(d, segs[i]) }

  lemma {:induction false} ListOk(d: seq<Byte>, n: nat)
    requires FirstError(d, n) == None
    ensures FilesOk(d, LoadList(d, n))
  {
    if n > 0 { ListOk(d, n - 1); }
  }

  // ---- the flat image ---------------------------------------------------------------------------

  /** The byte at `a`: that of the last segment to fill it from the file, else zero. */
  function Flat(d: seq<Byte>, segs: seq<Segment>, a: nat): Byte {
    if segs == [] then 0
    else
      var s := segs[|segs| - 1];
      if s.Fills(a) && s.offset + (a - s.vaddr) < |d| then d[s.offset + (a - s.vaddr)]
      else Flat(d, segs[..|segs| - 1], a)
  }

  function At(q: nat, o: nat): nat { q * PAGE + o }

  /** `bytes` is page `q` of the flat image. */
  ghost predicate Shows(d: seq<Byte>, segs: seq<Segment>, q: nat, bytes: seq<Byte>) {
    |bytes| == PAGE && forall o :: 0 <= o < PAGE ==> bytes[o] == Flat(d, segs, At(q, o))
  }

  ghost predicate HasPage(s: Segment, q: nat) { s.FirstPage() <= q < s.EndPage() }

  ghost predicate InImage(segs: seq<Segment>, q: nat) { exists i :: 0 <= i < |segs| && HasPage(segs[i], q) }

  lemma PageSpan(q: nat, o: nat)
    requires o < PAGE
    ensures At(q, o) / PAGE == q && At(q, o) % PAGE == o
  {
  }

  lemma FillsInside(s: Segment, a: nat)
    requires s.Fills(a)
    ensures HasPage(s, a / PAGE)
  {
  }

  lemma {:induction false} OutsideIsZero(d: seq<Byte>, segs: seq<Segment>, a: nat)
    requires !InImage(segs, a / PAGE)
    ensures Flat(d, segs, a) == 0
  {
    hide HasPage;
    if segs != [] {
      var s, rest := segs[|segs| - 1], segs[..|segs| - 1];
      if s.Fills(a) { FillsInside(s, a); }
      forall i | 0 <= i < |rest| ensures !HasPage(rest[i], a / PAGE) { assert rest[i] == segs[i]; }
      OutsideIsZero(d, rest, a);
    }
  }

  /** A page no segment has reached is all zero. */
  lemma FreshPage(d: seq<Byte>, segs: seq<Segment>, q: nat, bytes: seq<Byte>)
    requires !InImage(segs, q) && |bytes| == PAGE && forall o :: 0 <= o < PAGE ==> bytes[o] == 0
    ensures Shows(d, segs, q, bytes)
  {
    hide InImage, Flat, At;
    forall o | 0 <= o < PAGE ensures bytes[o] == Flat(d, segs, At(q, o)) {
      PageSpan(q, o);
      OutsideIsZero(d, segs, At(q, o));
    }
  }

  /** A segment leaves the image of every page outside it alone. */
  lemma OtherPage(d: seq<Byte>, segs: seq<Segment>, s: Segment, q: nat, bytes: seq<Byte>)
    requires Shows(d, segs, q, bytes) && !HasPage(s, q)
    ensures Shows(d, segs + [s], q, bytes)
  {
    hide HasPage, At;
    forall o | 0 <= o < PAGE ensures bytes[o] == Flat(d, segs + [s], At(q, o)) {
      PageSpan(q, o);
      if s.Fills(At(q, o)) { FillsInside(s, At(q, o)); }
      FlatLast(d, segs, s, At(q, o));
    }
  }

  lemma FlatLast(d: seq<Byte>, segs: seq<Segment>, s: Segment, a: nat)
    ensures Flat(d, segs + [s], a) ==
            if s.Fills(a) && s.offset + (a - s.vaddr) < |d| then d[s.offset + (a - s.vaddr)] else Flat(d, segs, a)
  {
    assert (segs + [s])[..|segs + [s]| - 1] == segs;
  }

  // ---- what the format promises -----------------------------------------------------------------

  ghost predicate Apart(s: Segment, t: Segment) { s.vaddr + s.memsz <= t.vaddr || t.vaddr + t.memsz <= s.vaddr }

  /** No two segments overlap, and no file part is longer than its segment. */
  ghost predicate Separate(segs: seq<Segment>) {
    && (forall i :: 0 <= i < |segs| ==> segs[i].filesz <= segs[i].memsz)
    && (forall i, j :: 0 <= i < j < |segs| ==> Apart(segs[i], segs[j]))
  }

  /** For separate segments the flat image is what each program header says: file bytes, then zeros. */
  lemma {:induction false} FlatIsSegment(d: seq<Byte>, segs: seq<Segment>, i: nat, a: nat)
    requires FilesOk(d, segs) && Separate(segs) && i < |segs|
    requires segs[i].vaddr <= a < segs[i].vaddr + segs[i].memsz
    ensures segs[i].offset + (a - segs[i].vaddr) < |d| || a >= segs[i].vaddr + segs[i].filesz
    ensures Flat(d, segs, a) ==
              if a < segs[i].vaddr + segs[i].filesz then d[segs[i].offset + (a - segs[i].vaddr)] else 0
    ensures InImage(segs, a / PAGE)
  {
    assert FileOk(d, segs[i]);
    InsidePages(segs[i], a);
    var s, rest := segs[|segs| - 1], segs[..|segs| - 1];
    if i < |rest| {
      assert Apart(segs[i], s);
      FlatIsSegment(d, rest, i, a);
    } else if a >= s.vaddr + s.filesz {
      forall j | 0 <= j < |rest| ensures !rest[j].Fills(a) { assert Apart(segs[j], segs[i]); }
      UnfilledIsZero(d, rest, a);
    }
  }

  lemma InsidePages(s: Segment, a: nat)
    requires s.vaddr <= a < s.vaddr + s.memsz
    ensures HasPage(s, a / PAGE)
  {
  }

  lemma {:induction false} UnfilledIsZero(d: seq<Byte>, segs: seq<Segment>, a: nat)
    requires forall j :: 0 <= j < |segs| ==> !segs[j].Fills(a)
    ensures Flat(d, segs, a) == 0
  {
    if segs != [] { UnfilledIsZero(d, segs[..|segs| - 1], a); }
  }
}
