/** The ownership invariant read off the disk alone, without the ghost maps: which
    block each live inode's pointers name, and which slot names each live inode. */
module HepfsOnDisk {
  import opened HepfsLayout
  import opened HepfsTypes
  import opened HepfsStore
  import opened HepfsState
  import opened HepfsNames
  import opened HepfsFile
  import opened HepfsRead
  import opened HepfsDir
  import opened HepfsRemove

  /** Entry `i` of the pointer table in block `b`; 0 if there is no such table. */
  ghost function Entry(v: View, b: nat, i: nat): nat
    requires i < PTRS_PER_BLOCK
  {
    if b == 0 || b >= |v.data| then 0 else PtrAt(v.data[b], i)
  }

  /** The pointer stored on disk for role `r` of inode `ino`; 0 if there is none. */
  ghost function Stored(v: View, ino: nat, r: Role): nat
    requires v.Sized() && ino < MAX_INODES && |v.inodes[ino].direct| == DIRECT_PTRS
  {
    var n := v.inodes[ino];
    match r
    case Data(i) =>
      if i < DIRECT_PTRS then n.direct[i]
      else if i < SINGLE_END then Entry(v, n.indirect, i - DIRECT_PTRS)
      else if i < MAX_FILE_BLOCKS then Entry(v, Entry(v, n.dindirect, (i - SINGLE_END) / 1024), (i - SINGLE_END) % 1024)
      else 0
    case Indirect => n.indirect
    case DIndirect => n.dindirect
    case Level1(j) => if j < PTRS_PER_BLOCK then Entry(v, n.dindirect, j) else 0
  }

  /** Every live inode's twelve direct pointers can be read. */
  ghost predicate Readable(v: View) {
    v.Sized() && forall i :: 0 <= i < MAX_INODES && v.ibits[i] ==> |v.inodes[i].direct| == DIRECT_PTRS
  }

  lemma LiveInode(v: View, g: State, ino: nat)
    requires Core(v, g) && ino in g.lays
    ensures ino < MAX_INODES && InodeOk(v, g.owner, ino, g.lays[ino], g.nodes[ino])
    ensures |v.inodes[ino].direct| == DIRECT_PTRS
  {
  }

  /** The walk over the tables on disk finds exactly the layout. */
  lemma StoredIs(v: View, ino: nat, lay: Lay, r: Role)
    requires v.Sized() && ino < MAX_INODES && |v.inodes[ino].direct| == DIRECT_PTRS
    requires Shaped(lay) && Direct(v.inodes[ino], lay) && Tables(v.data, lay)
    ensures Stored(v, ino, r) != 0 ==> Fills(lay, r, Stored(v, ino, r))
    ensures forall b :: b != 0 && Fills(lay, r, b) ==> Stored(v, ino, r) == b
  {
    hide PtrsAre;
    match r
    case Indirect =>
    case DIndirect =>
    case Level1(j) => if j < PTRS_PER_BLOCK && lay.dind != 0 { DoubleEntry(v.data, lay, j); }
    case Data(i) =>
      if DIRECT_PTRS <= i < SINGLE_END && lay.ind != 0 {
        PtrsEntry(v.data[lay.ind], lay.blks, DIRECT_PTRS, i - DIRECT_PTRS);
      } else if SINGLE_END <= i < MAX_FILE_BLOCKS && lay.dind != 0 {
        var j := (i - SINGLE_END) / 1024;
        DoubleEntry(v.data, lay, j);
        if j < |lay.l1| { Level1Entry(v.data, lay, j, (i - SINGLE_END) % 1024); }
      }
  }

  lemma StoredOf(v: View, g: State, ino: nat, r: Role)
    requires Core(v, g) && ino in g.lays
    ensures ino < MAX_INODES && |v.inodes[ino].direct| == DIRECT_PTRS
    ensures var b := Stored(v, ino, r); b != 0 ==>
              Fills(g.lays[ino], r, b) && OwnedAs(g.owner, b, ino, r) && DATA_START <= b < |v.data|
    ensures forall b :: b != 0 && Fills(g.lays[ino], r, b) ==> Stored(v, ino, r) == b
  {
    hide Stored, Fills, PtrsAre, BitsOk, OwnersOk, Owns;
    LiveInode(v, g, ino);
    StoredIs(v, ino, g.lays[ino], r);
    if Stored(v, ino, r) != 0 { RoleOf(v, g, ino, r, Stored(v, ino, r)); }
  }

  /** Some pointer of a live inode names block `b`. */
  ghost predicate Named(v: View, b: nat)
    requires Readable(v)
  {
    exists i: nat, r: Role :: i < MAX_INODES && v.ibits[i] && Stored(v, i, r) == b
  }

  lemma ReadableOf(v: View, g: State)
    requires Core(v, g)
    ensures Readable(v)
  {
    forall i | 0 <= i < MAX_INODES && v.ibits[i] ensures |v.inodes[i].direct| == DIRECT_PTRS {
      assert InodeOk(v, g.owner, i, g.lays[i], g.nodes[i]);
    }
  }

  /** A data block's bit is set if and only if a pointer of a live inode names it. */
  lemma BlockBits(v: View, g: State, b: nat)
    requires Core(v, g) && DATA_START <= b < |v.bbits|
    ensures Readable(v) && (v.bbits[b] <==> Named(v, b))
  {
    hide Stored, InodeOk;
    ReadableOf(v, g);
    if v.bbits[b] {
      var o := g.owner[b];
      assert Fills(g.lays[o.ino], o.role, b);
      StoredOf(v, g, o.ino, o.role);
    }
    if Named(v, b) {
      var i: nat, r: Role :| i < MAX_INODES && v.ibits[i] && Stored(v, i, r) == b;
      StoredOf(v, g, i, r);
    }
  }

  /** No block is named twice: not by two inodes, and not by two pointers of one. */
  lemma NamedOnce(v: View, g: State, i: nat, r: Role, j: nat, q: Role)
    requires Core(v, g) && i in g.lays && j in g.lays
    ensures i < MAX_INODES && j < MAX_INODES && Readable(v) && v.ibits[i] && v.ibits[j]
    ensures Stored(v, i, r) == Stored(v, j, q) != 0 ==> i == j && r == q
  {
    hide Stored, InodeOk;
    ReadableOf(v, g);
    StoredOf(v, g, i, r);
    StoredOf(v, g, j, q);
  }

  /** Pointers form a nonzero prefix: where block `n` of a file is present, so is every block before it. */
  lemma NoGaps(v: View, g: State, i: nat, m: nat, n: nat)
    requires Core(v, g) && i in g.lays && m <= n
    ensures i < MAX_INODES && Readable(v) && v.ibits[i]
    ensures Stored(v, i, Data(n)) != 0 ==> Stored(v, i, Data(m)) != 0
  {
    hide Stored;
    ReadableOf(v, g);
    StoredOf(v, g, i, Data(n));
    StoredOf(v, g, i, Data(m));
    LiveInode(v, g, i);
    if Stored(v, i, Data(n)) != 0 { assert Fills(g.lays[i], Data(m), g.lays[i].blks[m]); }
  }

  /** A file's bytes are on the disk in order: byte `j` is byte `j % 4096` of the block that pointer `j / 4096`
      names. */
  lemma FileOnDisk(v: View, g: State, ino: nat, j: nat)
    requires Core(v, g) && ino in g.lays && g.nodes[ino].File? && j < |g.nodes[ino].bytes|
    ensures ino < MAX_INODES && |v.inodes[ino].direct| == DIRECT_PTRS
    ensures v.inodes[ino].flags == 1 && v.inodes[ino].size == |g.nodes[ino].bytes|
    ensures var b := Stored(v, ino, Data(j / 4096));
      0 < b < |v.data| && v.data[b][j % 4096] == g.nodes[ino].bytes[j]
  {
    hide Stored, PtrsAre, BitsOk, OwnersOk, Owns, Tables, Direct;
    LiveInode(v, g, ino);
    var lay, bytes, k := g.lays[ino], g.nodes[ino].bytes, j / 4096;
    assert k < BlocksFor(|bytes|) && BLOCK_SIZE * k <= |bytes|;
    assert Fills(lay, Data(k), lay.blks[k]);
    StoredOf(v, g, ino, Data(k));
    assert Piece(bytes, k)[j % 4096] == bytes[j];
  }

  /** Slot `i` of the directory block in direct pointer `m` of inode `d`, as stored on disk. */
  ghost function StoredSlot(v: View, d: nat, m: nat, i: nat): Slot
    requires Readable(v) && d < MAX_INODES && v.ibits[d] && m < DIRECT_PTRS && i < SLOTS_PER_BLOCK
  {
    var b := v.inodes[d].direct[m];
    if b == 0 || b >= |v.data| then EMPTY_SLOT else SlotAt(v.data[b], i)
  }

  ghost predicate IsLiveDir(v: View, d: nat)
    requires Readable(v)
  {
    d < MAX_INODES && v.ibits[d] && v.inodes[d].flags == F_DIR
  }

  ghost predicate SlotNames(v: View, d: nat, m: nat, i: nat, ino: nat)
    requires Readable(v)
  {
    IsLiveDir(v, d) && m < DIRECT_PTRS && i < SLOTS_PER_BLOCK && StoredSlot(v, d, m, i).ino == ino
  }

  lemma StoredSlotIs(v: View, g: State, d: nat, m: nat, i: nat)
    requires Core(v, g) && Readable(v) && IsLiveDir(v, d) && m < DIRECT_PTRS && i < SLOTS_PER_BLOCK
    ensures d in g.nodes && g.nodes[d].Dir?
    ensures var k := SLOTS_PER_BLOCK * m + i;
      StoredSlot(v, d, m, i) == if k < |g.nodes[d].slots| then g.nodes[d].slots[k] else EMPTY_SLOT
  {
    hide SlotsAre, BitsOk, OwnersOk, Owns, Tables;
    LiveInode(v, g, d);
    if m < |g.lays[d].blks| {
      DirScannable(v, g, d);
      SlotOnDisk(v, g, d, v.inodes[d], g.nodes[d].slots, m, i);
    }
  }

  /** An inode's bit is set if and only if it is the root or some directory slot names it. */
  lemma InodeBits(v: View, g: State, ino: nat)
    requires Core(v, g) && Names(g) && ino < MAX_INODES
    ensures Readable(v)
    ensures v.ibits[ino] <==> ino == ROOT || (ino != 0 && exists d: nat, m: nat, i: nat :: SlotNames(v, d, m, i, ino))
  {
    hide StoredSlot, InodeOk;
    ReadableOf(v, g);
    if v.ibits[ino] && ino != ROOT {
      assert NamedAt(g.nodes, g.place[ino], ino);
      var p := g.place[ino];
      FileReadable(v, g, p.dir);
      DirScannable(v, g, p.dir);
      StoredSlotIs(v, g, p.dir, p.slot / SLOTS_PER_BLOCK, p.slot % SLOTS_PER_BLOCK);
      assert SlotNames(v, p.dir, p.slot / SLOTS_PER_BLOCK, p.slot % SLOTS_PER_BLOCK, ino);
    }
    if ino != 0 && exists d: nat, m: nat, i: nat :: SlotNames(v, d, m, i, ino) {
      var d: nat, m: nat, i: nat :| SlotNames(v, d, m, i, ino);
      StoredSlotIs(v, g, d, m, i);
      assert IsSlot(g.nodes, d, SLOTS_PER_BLOCK * m + i);
    }
  }

  /** No inode has two names. */
  lemma OneName(v: View, g: State, ino: nat, d: nat, m: nat, i: nat, e: nat, p: nat, q: nat)
    requires Core(v, g) && Names(g) && Readable(v) && ino != 0
    requires SlotNames(v, d, m, i, ino) && SlotNames(v, e, p, q, ino)
    ensures d == e && m == p && i == q
  {
    hide StoredSlot, InodeOk;
    StoredSlotIs(v, g, d, m, i);
    StoredSlotIs(v, g, e, p, q);
    assert IsSlot(g.nodes, d, SLOTS_PER_BLOCK * m + i) && IsSlot(g.nodes, e, SLOTS_PER_BLOCK * p + q);
  }
}
