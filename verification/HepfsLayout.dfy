/** The on-disk format of HepFS: 4 KiB blocks, little-endian fields, 128-byte
    inodes, 32-byte directory slots, 4-byte block pointers and bitmaps.
    Every structure is read and written at the byte level here; the lemmas say
    that a field written at its offset is the field read back, and that no
    neighbouring field moves. */
module HepfsLayout {

  type Byte = n: int | 0 <= n < 256

  const BLOCK_SIZE: nat := 4096
  const MAX_INODES: nat := 1024
  const INODES_PER_BLOCK: nat := 32
  const INODE_SIZE: nat := 128
  const DIRECT_PTRS: nat := 12
  const PTRS_PER_BLOCK: nat := 1024
  const SLOTS_PER_BLOCK: nat := 128
  const SLOT_SIZE: nat := 32
  const MAX_NAME: nat := 27
  const BITS_PER_BLOCK: nat := 32768

  const INODE_BM_BLOCK: nat := 1
  const BLOCK_BM_BLOCK: nat := 2
  const BLOCK_BM_LEN: nat := 4
  const INODE_TBL_BLOCK: nat := 6
  const INODE_TBL_LEN: nat := 32
  const DATA_START: nat := 38

  const F_FILE: nat := 1
  const F_DIR: nat := 2

  const U32: nat := 0x1_0000_0000
  const U64: nat := 0x1_0000_0000_0000_0000

  type Block = b: seq<Byte> | |b| == BLOCK_SIZE witness ZeroBlock()

  function Zeros(n: nat): (s: seq<Byte>)
    ensures |s| == n
    ensures forall i :: 0 <= i < n ==> s[i] == 0
  {
    seq(n, _ => 0)
  }

  function ZeroBlock(): (b: seq<Byte>)
    ensures |b| == BLOCK_SIZE
    ensures forall i :: 0 <= i < BLOCK_SIZE ==> b[i] == 0
  {
    Zeros(BLOCK_SIZE)
  }

  /** Overwrite `|s|` bytes of `b` starting at `off`. */
  function Splice(b: seq<Byte>, off: nat, s: seq<Byte>): (r: seq<Byte>)
    requires off + |s| <= |b|
    ensures |r| == |b|
    ensures forall i :: off <= i < off + |s| ==> r[i] == s[i - off]
    ensures forall i :: 0 <= i < |b| && !(off <= i < off + |s|) ==> r[i] == b[i]
  {
    b[..off] + s + b[off + |s|..]
  }

  // ---- little-endian integers ------------------------------------------------

  function U32At(b: seq<Byte>, off: nat): (v: nat)
    requires off + 4 <= |b|
    ensures v < U32
  {
    b[off] as int + 0x100 * b[off + 1] as int + 0x1_0000 * b[off + 2] as int + 0x100_0000 * b[off + 3] as int
  }

  function U64At(b: seq<Byte>, off: nat): (v: nat)
    requires off + 8 <= |b|
    ensures v < U64
  {
    U32At(b, off) + U32 * U32At(b, off + 4)
  }

  function U32Bytes(v: nat): (s: seq<Byte>)
    requires v < U32
    ensures |s| == 4
    ensures U32At(s, 0) == v
    ensures v == s[0] as int + 0x100 * s[1] as int + 0x1_0000 * s[2] as int + 0x100_0000 * s[3] as int
  {
    var b := v / 0x100;
    var c := b / 0x100;
    [v % 0x100, b % 0x100, c % 0x100, c / 0x100]
  }

  function U64Bytes(v: nat): (s: seq<Byte>)
    requires v < U64
    ensures |s| == 8
    ensures U64At(s, 0) == v
  {
    var lo, hi := U32Bytes(v % U32), U32Bytes(v / U32);
    assert U32At(lo + hi, 0) == U32At(lo, 0);
    assert U32At(lo + hi, 4) == U32At(hi, 0);
    lo + hi
  }

  /** A 4-byte field spliced in as part of `s` is read back from its new place. */
  lemma U32InSplice(b: seq<Byte>, off: nat, s: seq<Byte>, k: nat)
    requires off + |s| <= |b| && k + 4 <= |s|
    ensures U32At(Splice(b, off, s), off + k) == U32At(s, k)
  {
  }

  lemma U32OutsideSplice(b: seq<Byte>, off: nat, s: seq<Byte>, k: nat)
    requires off + |s| <= |b| && k + 4 <= |b|
    requires k + 4 <= off || off + |s| <= k
    ensures U32At(Splice(b, off, s), k) == U32At(b, k)
  {
  }

  // ---- block pointers ----------------------------------------------------------

  function PtrAt(b: Block, i: nat): (p: nat)
    requires i < PTRS_PER_BLOCK
    ensures p < U32
  {
    U32At(b, 4 * i)
  }

  function SetPtr(b: Block, i: nat, p: nat): (r: Block)
    requires i < PTRS_PER_BLOCK && p < U32
    ensures PtrAt(r, i) == p
    ensures forall j :: 0 <= j < PTRS_PER_BLOCK && j != i ==> PtrAt(r, j) == PtrAt(b, j)
  {
    U32InSplice(b, 4 * i, U32Bytes(p), 0);
    Splice(b, 4 * i, U32Bytes(p))
  }

  lemma ZeroBlockHasNoPtrs()
    ensures forall i :: 0 <= i < PTRS_PER_BLOCK ==> PtrAt(ZeroBlock(), i) == 0
  {
  }

  // ---- directory slots -----------------------------------------------------------

  /** Bytes of the character that `b` starts with, zero if it is not well formed (table 3-7 of the Unicode Standard:
      no overlong forms, no surrogates, nothing above U+10FFFF). */
  function CharLen(b: seq<Byte>): (n: nat)
    ensures n <= |b|
  {
    if b == [] then 0
    else if b[0] < 0x80 then 1
    else if |b| < 2 || !(0x80 <= b[1] < 0xC0) then 0
    else if 0xC2 <= b[0] < 0xE0 then 2
    else if |b| < 3 || !(0x80 <= b[2] < 0xC0) then 0
    else if 0xE0 <= b[0] < 0xF0 then
      if (b[0] == 0xE0 && b[1] < 0xA0) || (b[0] == 0xED && b[1] >= 0xA0) then 0 else 3
    else if |b| < 4 || !(0x80 <= b[3] < 0xC0) || !(0xF0 <= b[0] < 0xF5) then 0
    else if (b[0] == 0xF0 && b[1] < 0x90) || (b[0] == 0xF4 && b[1] >= 0x90) then 0
    else 4
  }

  predicate Utf8(b: seq<Byte>)
    decreases |b|
  {
    b == [] || (CharLen(b) > 0 && Utf8(b[CharLen(b)..]))
  }

  /** A string, as its UTF-8 bytes. */
  type Str = b: seq<Byte> | Utf8(b) witness []

  /** Stored bytes as the code reads a name: what is not UTF-8 reads as the empty string. */
  function Spelt(b: seq<Byte>): (s: Str)
    ensures |s| <= |b|
  {
    if Utf8(b) then b else []
  }

  /** A directory slot as the code reads it: inode 0 marks it unused. */
  datatype Slot = Slot(ino: nat, name: Str)

  const EMPTY_SLOT := Slot(0, [])

  function Min(a: nat, b: nat): nat { if a < b then a else b }

  /** The bytes of a slot's name that its length byte claims. */
  function NameBytes(b: Block, i: nat): (r: seq<Byte>)
    requires i < SLOTS_PER_BLOCK
    ensures |r| <= MAX_NAME
  {
    var off := SLOT_SIZE * i;
    b[off + 5..off + 5 + Min(b[off + 4], MAX_NAME)]
  }

  function SlotAt(b: Block, i: nat): (s: Slot)
    requires i < SLOTS_PER_BLOCK
    ensures s.ino < U32 && |s.name| <= MAX_NAME
  {
    Slot(U32At(b, SLOT_SIZE * i), Spelt(NameBytes(b, i)))
  }

  function SlotBytes(s: Slot): (r: seq<Byte>)
    requires s.ino < U32 && |s.name| <= MAX_NAME
    ensures |r| == SLOT_SIZE
  {
    U32Bytes(s.ino) + [|s.name|] + s.name + Zeros(MAX_NAME - |s.name|)
  }

  /** The fields of an encoded slot: inode number, length of the name, name, zeros. */
  lemma SlotBytesFields(s: Slot)
    requires s.ino < U32 && |s.name| <= MAX_NAME
    ensures var r := SlotBytes(s);
      && U32At(r, 0) == s.ino && r[4] == |s.name| && r[5..5 + |s.name|] == s.name
      && forall i :: 5 + |s.name| <= i < 32 ==> r[i] == 0
  {
    var r := SlotBytes(s);
    assert r[..4] == U32Bytes(s.ino);
  }

  lemma SlotOutsideSplice(b: Block, i: nat, s: Slot, j: nat)
    requires i < SLOTS_PER_BLOCK && j < SLOTS_PER_BLOCK && i != j
    requires s.ino < U32 && |s.name| <= MAX_NAME
    ensures SlotAt(Splice(b, SLOT_SIZE * i, SlotBytes(s)), j) == SlotAt(b, j)
  {
    hide Utf8, CharLen, Spelt;
    var r := Splice(b, SLOT_SIZE * i, SlotBytes(s));
    U32OutsideSplice(b, SLOT_SIZE * i, SlotBytes(s), SLOT_SIZE * j);
    var off := SLOT_SIZE * j;
    assert forall k :: off <= k < off + SLOT_SIZE ==> r[k] == b[k];
    var n := Min(b[off + 4], MAX_NAME);
    assert r[off + 5..off + 5 + n] == b[off + 5..off + 5 + n];
  }

  lemma SlotInSplice(b: Block, i: nat, s: Slot)
    requires i < SLOTS_PER_BLOCK && s.ino < U32 && |s.name| <= MAX_NAME
    ensures SlotAt(Splice(b, SLOT_SIZE * i, SlotBytes(s)), i) == s
  {
    hide Utf8, CharLen;
    U32InSplice(b, SLOT_SIZE * i, SlotBytes(s), 0);
    assert NameBytes(Splice(b, SLOT_SIZE * i, SlotBytes(s)), i) == s.name;
  }

  lemma SpliceSets(b: Block, i: nat, s: Slot)
    requires i < SLOTS_PER_BLOCK && s.ino < U32 && |s.name| <= MAX_NAME
    ensures var r: Block := Splice(b, SLOT_SIZE * i, SlotBytes(s));
      SlotAt(r, i) == s && forall j :: 0 <= j < SLOTS_PER_BLOCK && j != i ==> SlotAt(r, j) == SlotAt(b, j)
  {
    hide SlotAt, Splice, SlotBytes;
    SlotInSplice(b, i, s);
    forall j | 0 <= j < SLOTS_PER_BLOCK && j != i
      ensures SlotAt(Splice(b, SLOT_SIZE * i, SlotBytes(s)), j) == SlotAt(b, j)
    {
      SlotOutsideSplice(b, i, s, j);
    }
  }

  function SetSlot(b: Block, i: nat, s: Slot): (r: Block)
    requires i < SLOTS_PER_BLOCK && s.ino < U32 && |s.name| <= MAX_NAME
    ensures SlotAt(r, i) == s
    ensures forall j :: 0 <= j < SLOTS_PER_BLOCK && j != i ==> SlotAt(r, j) == SlotAt(b, j)
  {
    SpliceSets(b, i, s);
    Splice(b, SLOT_SIZE * i, SlotBytes(s))
  }

  lemma ZeroBlockHasNoSlots()
    ensures forall i :: 0 <= i < SLOTS_PER_BLOCK ==> SlotAt(ZeroBlock(), i) == EMPTY_SLOT
  {
  }

  // ---- inodes --------------------------------------------------------------------

  datatype Inode = Inode(flags: nat, size: nat, nblocks: nat, ctime: nat, mtime: nat,
                         direct: seq<nat>, indirect: nat, dindirect: nat)
  {
    predicate Fits() {
      && flags < U32 && size < U64 && nblocks < U32 && ctime < U64 && mtime < U64
      && |direct| == DIRECT_PTRS && indirect < U32 && dindirect < U32
      && forall i :: 0 <= i < DIRECT_PTRS ==> direct[i] < U32
    }
  }

  const NO_PTRS: seq<nat> := [0, 0, 0, 0, 0, 0, 0, 0, 0, 0, 0, 0]
  const DEFAULT_INODE := Inode(0, 0, 0, 0, 0, NO_PTRS, 0, 0)

  /** Inode number `i` of an inode-table block; C layout, 128 bytes. */
  function InodeAt(b: Block, i: nat): (n: Inode)
    requires i < INODES_PER_BLOCK
    ensures n.Fits()
  {
    var off := INODE_SIZE * i;
    Inode(U32At(b, off), U64At(b, off + 8), U32At(b, off + 16), U64At(b, off + 24), U64At(b, off + 32),
          seq(DIRECT_PTRS, j requires 0 <= j < DIRECT_PTRS => U32At(b, off + 40 + 4 * j)),
          U32At(b, off + 88), U32At(b, off + 92))
  }

  function PtrBytes(p: seq<nat>): (s: seq<Byte>)
    requires forall i :: 0 <= i < |p| ==> p[i] < U32
    ensures |s| == 4 * |p|
    ensures forall i :: 0 <= i < |p| ==> U32At(s, 4 * i) == p[i]
  {
    if p == [] then [] else
      var front := PtrBytes(p[..|p| - 1]);
      var s := front + U32Bytes(p[|p| - 1]);
      assert U32At(s, 4 * (|p| - 1)) == p[|p| - 1];
      assert forall i :: 0 <= i < |p| - 1 ==> U32At(s, 4 * i) == U32At(front, 4 * i);
      s
  }

  function InodeHead(n: Inode): (s: seq<Byte>)
    requires n.Fits()
    ensures |s| == 40
    ensures U32At(s, 0) == n.flags && U64At(s, 8) == n.size && U32At(s, 16) == n.nblocks
    ensures U64At(s, 24) == n.ctime && U64At(s, 32) == n.mtime
  {
    var f, z, nb, c, m := U32Bytes(n.flags), U64Bytes(n.size), U32Bytes(n.nblocks), U64Bytes(n.ctime),
      U64Bytes(n.mtime);
    var s := f + Zeros(4) + z + nb + Zeros(4) + c + m;
    assert s[0..4] == f && s[8..16] == z && s[16..20] == nb && s[24..32] == c && s[32..40] == m;
    s
  }

  function InodeBytes(n: Inode): (s: seq<Byte>)
    requires n.Fits()
    ensures |s| == INODE_SIZE
  {
    InodeHead(n) + PtrBytes(n.direct) + U32Bytes(n.indirect) + U32Bytes(n.dindirect) + Zeros(32)
  }

  /** The fields of an encoded inode lie where `InodeAt` looks for them. */
  lemma InodeBytesFields(n: Inode)
    requires n.Fits()
    ensures var s := InodeBytes(n);
      && U32At(s, 0) == n.flags && U64At(s, 8) == n.size && U32At(s, 16) == n.nblocks
      && U64At(s, 24) == n.ctime && U64At(s, 32) == n.mtime
      && (forall j :: 0 <= j < DIRECT_PTRS ==> U32At(s, 40 + 4 * j) == n.direct[j])
      && U32At(s, 88) == n.indirect && U32At(s, 92) == n.dindirect
  {
    var s := InodeBytes(n);
    assert s[..40] == InodeHead(n);
    var d := PtrBytes(n.direct);
    assert s[40..88] == d;
    assert s[88..92] == U32Bytes(n.indirect) && s[92..96] == U32Bytes(n.dindirect);
    forall j | 0 <= j < DIRECT_PTRS ensures U32At(s, 40 + 4 * j) == n.direct[j] {
      assert U32At(s, 40 + 4 * j) == U32At(d, 4 * j);
    }
  }

  function SetInode(b: Block, i: nat, n: Inode): (r: Block)
    requires i < INODES_PER_BLOCK && n.Fits()
  {
    Splice(b, INODE_SIZE * i, InodeBytes(n))
  }

  /** A written inode is read back exactly: the 128-byte slot holds all its fields. */
  lemma SetInodeReadsBack(b: Block, i: nat, n: Inode)
    requires i < INODES_PER_BLOCK && n.Fits()
    ensures InodeAt(SetInode(b, i, n), i) == n
  {
    hide U32At, U64At, InodeBytes, SetInode;
    var s, r, off := InodeBytes(n), SetInode(b, i, n), INODE_SIZE * i;
    InodeBytesFields(n);
    SetInodeSlice(b, i, n);
    At32(r, off, s, 0);
    At64(r, off, s, 8);
    At32(r, off, s, 16);
    At64(r, off, s, 24);
    At64(r, off, s, 32);
    At32(r, off, s, 88);
    At32(r, off, s, 92);
    forall j | 0 <= j < DIRECT_PTRS ensures U32At(r, off + 40 + 4 * j) == n.direct[j] { At32(r, off, s, 40 + 4 * j); }
    assert InodeAt(r, i).direct == n.direct;
  }

  lemma SetInodeSlice(b: Block, i: nat, n: Inode)
    requires i < INODES_PER_BLOCK && n.Fits()
    ensures SetInode(b, i, n)[INODE_SIZE * i..INODE_SIZE * i + 128] == InodeBytes(n)
  {
  }

  lemma At32(r: seq<Byte>, off: nat, s: seq<Byte>, k: nat)
    requires off + |s| <= |r| && r[off..off + |s|] == s && k + 4 <= |s|
    ensures U32At(r, off + k) == U32At(s, k)
  {
    assert r[off + k] == s[k] && r[off + k + 1] == s[k + 1] && r[off + k + 2] == s[k + 2] && r[off + k + 3] == s[k + 3];
  }

  lemma At64(r: seq<Byte>, off: nat, s: seq<Byte>, k: nat)
    requires off + |s| <= |r| && r[off..off + |s|] == s && k + 8 <= |s|
    ensures U64At(r, off + k) == U64At(s, k)
  {
    At32(r, off, s, k);
    At32(r, off, s, k + 4);
  }

  /** Writing one inode leaves every other inode of the same block alone. */
  lemma SetInodeFrame(b: Block, i: nat, n: Inode, j: nat)
    requires i < INODES_PER_BLOCK && j < INODES_PER_BLOCK && i != j && n.Fits()
    ensures InodeAt(SetInode(b, i, n), j) == InodeAt(b, j)
  {
    hide U32At, U64At, InodeBytes, SetInode;
    var r, off := SetInode(b, i, n), INODE_SIZE * j;
    SetInodeElsewhere(b, i, n, j);
    SameInode(r, b, off);
    assert InodeAt(r, j).direct == InodeAt(b, j).direct;
  }

  lemma SetInodeElsewhere(b: Block, i: nat, n: Inode, j: nat)
    requires i < INODES_PER_BLOCK && j < INODES_PER_BLOCK && i != j && n.Fits()
    ensures SetInode(b, i, n)[INODE_SIZE * j..INODE_SIZE * j + 128] == b[INODE_SIZE * j..INODE_SIZE * j + 128]
  {
  }

  lemma SameInode(r: Block, b: Block, off: nat)
    requires off + 128 <= BLOCK_SIZE && r[off..off + 128] == b[off..off + 128]
    ensures U32At(r, off) == U32At(b, off) && U64At(r, off + 8) == U64At(b, off + 8)
    ensures U32At(r, off + 16) == U32At(b, off + 16)
    ensures U64At(r, off + 24) == U64At(b, off + 24) && U64At(r, off + 32) == U64At(b, off + 32)
    ensures U32At(r, off + 88) == U32At(b, off + 88) && U32At(r, off + 92) == U32At(b, off + 92)
    ensures forall k :: 0 <= k < DIRECT_PTRS ==> U32At(r, off + 40 + 4 * k) == U32At(b, off + 40 + 4 * k)
  {
    hide U32At, U64At;
    Both32(r, b, off, 0);
    Both64(r, b, off, 8);
    Both32(r, b, off, 16);
    Both64(r, b, off, 24);
    Both64(r, b, off, 32);
    Both32(r, b, off, 88);
    Both32(r, b, off, 92);
    forall k | 0 <= k < DIRECT_PTRS
      ensures U32At(r, off + 40 + 4 * k) == U32At(b, off + 40 + 4 * k)
    {
      Both32(r, b, off, 40 + 4 * k);
    }
  }

  lemma Both32(r: Block, b: Block, off: nat, k: nat)
    requires off + 128 <= BLOCK_SIZE && r[off..off + 128] == b[off..off + 128] && k + 4 <= 128
    ensures U32At(r, off + k) == U32At(b, off + k)
  {
    At32(r, off, r[off..off + 128], k);
    At32(b, off, b[off..off + 128], k);
  }

  lemma Both64(r: Block, b: Block, off: nat, k: nat)
    requires off + 128 <= BLOCK_SIZE && r[off..off + 128] == b[off..off + 128] && k + 8 <= 128
    ensures U64At(r, off + k) == U64At(b, off + k)
  {
    Both32(r, b, off, k);
    Both32(r, b, off, k + 4);
  }

  // ---- bitmaps ---------------------------------------------------------------------

  function Pow2(n: nat): (p: nat)
    ensures p > 0
  {
    if n == 0 then 1 else 2 * Pow2(n - 1)
  }

  /** Bit `k` of `x`, counting from the least significant. */
  predicate BitOf(x: nat, k: nat) {
    if k == 0 then x % 2 == 1 else BitOf(x / 2, k - 1)
  }

  /** `x` with bit `k` forced to `on`: `x |= 1 << k` or `x &= !(1 << k)`. */
  function SetBit(x: nat, k: nat, on: bool): (y: nat)
    ensures BitOf(y, k) == on
  {
    if k == 0 then x / 2 * 2 + (if on then 1 else 0) else x % 2 + 2 * SetBit(x / 2, k - 1, on)
  }

  lemma {:induction false} SetBitBound(x: nat, k: nat, on: bool, n: nat)
    requires k < n && x < Pow2(n)
    ensures SetBit(x, k, on) < Pow2(n)
  {
    if k > 0 { SetBitBound(x / 2, k - 1, on, n - 1); }
  }

  lemma {:induction false} SetBitFrame(x: nat, k: nat, on: bool, j: nat)
    requires j != k
    ensures BitOf(SetBit(x, k, on), j) == BitOf(x, j)
  {
    var y := SetBit(x, k, on);
    if k > 0 && j > 0 {
      assert y / 2 == SetBit(x / 2, k - 1, on);
      SetBitFrame(x / 2, k - 1, on, j - 1);
    } else if k == 0 {
      assert y / 2 == x / 2;
    }
  }

  lemma {:induction false} ZeroBits(k: nat)
    ensures !BitOf(0, k)
  {
    if k > 0 { ZeroBits(k - 1); }
  }

  /** An all-ones word has every bit set, so a scan may skip it. */
  lemma {:induction false} FullWord(n: nat, k: nat)
    requires k < n
    ensures BitOf(Pow2(n) - 1, k)
  {
    assert Pow2(n) - 1 == 2 * (Pow2(n - 1) - 1) + 1;
    if k > 0 { FullWord(n - 1, k - 1); }
  }

  /** Bit `i` of a bitmap block. */
  predicate BitAt(b: Block, i: nat)
    requires i < BITS_PER_BLOCK
  {
    BitOf(b[i / 8], i % 8)
  }

  function SetBitAt(b: Block, i: nat, on: bool): (r: Block)
    requires i < BITS_PER_BLOCK
    ensures BitAt(r, i) == on
    ensures forall j :: 0 <= j < BITS_PER_BLOCK && j != i ==> BitAt(r, j) == BitAt(b, j)
  {
    assert Pow2(8) == 256;
    SetBitBound(b[i / 8], i % 8, on, 8);
    var r: Block := b[i / 8 := SetBit(b[i / 8], i % 8, on)];
    assert forall j :: 0 <= j < BITS_PER_BLOCK && j != i ==> BitAt(r, j) == BitAt(b, j) by {
      forall j | 0 <= j < BITS_PER_BLOCK && j != i ensures BitAt(r, j) == BitAt(b, j) {
        if j / 8 == i / 8 { SetBitFrame(b[i / 8], i % 8, on, j % 8); }
      }
    }
    r
  }

  lemma ZeroBlockBits()
    ensures forall i :: 0 <= i < BITS_PER_BLOCK ==> !BitAt(ZeroBlock(), i)
  {
    forall i | 0 <= i < BITS_PER_BLOCK ensures !BitAt(ZeroBlock(), i) { ZeroBits(i % 8); }
  }
}
