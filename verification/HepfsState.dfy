/** The ownership invariant of HepFS.  A block bit is set exactly when the block
    is a system block or has one owner; the owner map is functional, so no block
    has two; every pointer of a live inode names a block that inode owns in that
    very role; and the pointers of each table are a nonzero prefix. */
module HepfsState {
  import opened HepfsLayout
  import opened HepfsTypes
  import opened HepfsStore
  import opened BitCount

  const SINGLE_END: nat := 1036
  const MAX_FILE_BLOCKS: nat := 1036 + 1024 * 1024

  /** Level-1 tables behind `k` data blocks. */
  function L1Count(k: nat): (n: nat) {
    if k <= SINGLE_END then 0 else (k - SINGLE_END + 1023) / 1024
  }

  // ---- shape -------------------------------------------------------------------

  /** Pointers fill direct, then indirect, then double-indirect places, without gaps. */
  ghost predicate Shaped(lay: Lay) {
    var k := |lay.blks|;
    && k <= MAX_FILE_BLOCKS
    && (lay.ind == 0 ==> k <= DIRECT_PTRS) && (lay.ind != 0 ==> k >= DIRECT_PTRS)
    && (lay.dind == 0 ==> k <= SINGLE_END && lay.l1 == []) && (lay.dind != 0 ==> k >= SINGLE_END)
    && |lay.l1| <= PTRS_PER_BLOCK
    && k <= SINGLE_END + 1024 * |lay.l1|
    && (|lay.l1| > 0 ==> SINGLE_END + 1024 * (|lay.l1| - 1) <= k)
    && lay.ind < U32 && lay.dind < U32
    && (forall i :: 0 <= i < k ==> 0 < lay.blks[i] < U32)
    && (forall j :: 0 <= j < |lay.l1| ==> 0 < lay.l1[j] < U32)
  }

  /** At rest no table is empty. */
  ghost predicate Tight(lay: Lay) {
    var k := |lay.blks|;
    && (lay.ind != 0 <==> k > DIRECT_PTRS)
    && (lay.dind != 0 <==> k > SINGLE_END)
    && |lay.l1| == L1Count(k)
  }

  /** Table block `blk` holds `s[lo..]`, then zeros. */
  ghost predicate PtrsAre(blk: Block, s: seq<nat>, lo: nat) {
    forall j :: 0 <= j < PTRS_PER_BLOCK ==> PtrAt(blk, j) == if lo + j < |s| then s[lo + j] else 0
  }

  ghost predicate Direct(n: Inode, lay: Lay) {
    && |n.direct| == DIRECT_PTRS && n.indirect == lay.ind && n.dindirect == lay.dind
    && forall j :: 0 <= j < DIRECT_PTRS ==> n.direct[j] == if j < |lay.blks| then lay.blks[j] else 0
  }

  ghost predicate DoubleTables(data: seq<Block>, lay: Lay) {
    && lay.dind < |data|
    && (lay.dind != 0 ==> PtrsAre(data[lay.dind], lay.l1, 0))
    && forall j :: 0 <= j < |lay.l1| ==> lay.l1[j] < |data| && PtrsAre(data[lay.l1[j]], lay.blks, SINGLE_END + 1024 * j)
  }

  ghost predicate Tables(data: seq<Block>, lay: Lay) {
    && lay.ind < |data|
    && (lay.ind != 0 ==> PtrsAre(data[lay.ind], lay.blks, DIRECT_PTRS))
    && DoubleTables(data, lay)
  }

  // ---- ownership -----------------------------------------------------------------

  /** Role `r` of `lay` is filled, by block `b`. */
  ghost predicate Fills(lay: Lay, r: Role, b: nat) {
    match r
    case Data(i) => i < |lay.blks| && lay.blks[i] == b
    case Indirect => lay.ind == b && b != 0
    case DIndirect => lay.dind == b && b != 0
    case Level1(j) => j < |lay.l1| && lay.l1[j] == b
  }

  ghost predicate OwnedAs(owner: map<nat, Own>, b: nat, ino: nat, r: Role) {
    b in owner && owner[b] == Own(ino, r)
  }

  ghost predicate Owns(owner: map<nat, Own>, ino: nat, lay: Lay) {
    && (forall i :: 0 <= i < |lay.blks| ==> OwnedAs(owner, lay.blks[i], ino, Data(i)))
    && (lay.ind != 0 ==> OwnedAs(owner, lay.ind, ino, Indirect))
    && (lay.dind != 0 ==> OwnedAs(owner, lay.dind, ino, DIndirect))
    && (forall j :: 0 <= j < |lay.l1| ==> OwnedAs(owner, lay.l1[j], ino, Level1(j)))
  }

  ghost predicate BitsOk(v: View, owner: map<nat, Own>) {
    forall b :: 0 <= b < |v.bbits| ==> (v.bbits[b] <==> b < DATA_START || b in owner)
  }

  ghost predicate OwnersOk(v: View, owner: map<nat, Own>, lays: map<nat, Lay>) {
    forall b :: b in owner ==>
      && DATA_START <= b < |v.data| && b < |v.bbits|
      && owner[b].ino in lays && Fills(lays[owner[b].ino], owner[b].role, b)
  }

  ghost predicate InodesOk(v: View, lays: map<nat, Lay>, nodes: map<nat, Node>) {
    && nodes.Keys == lays.Keys
    && (forall i :: 0 <= i < |v.ibits| ==> (v.ibits[i] <==> i in lays))
    && (forall i :: i in lays ==> i < MAX_INODES)
  }

  // ---- contents ------------------------------------------------------------------

  /** Bytes of block `j` of a file. */
  function Piece(bytes: seq<Byte>, j: nat): (p: seq<Byte>)
    requires BLOCK_SIZE * j <= |bytes|
    ensures |p| <= BLOCK_SIZE
  {
    bytes[BLOCK_SIZE * j..Min(BLOCK_SIZE * (j + 1), |bytes|)]
  }

  /** The first `n` blocks start with the bytes of the file. */
  ghost predicate Written(data: seq<Block>, blks: seq<nat>, bytes: seq<Byte>, n: nat) {
    && n <= |blks|
    && forall j :: 0 <= j < n && BLOCK_SIZE * j <= |bytes| ==> blks[j] < |data| && Piece(bytes, j) <= data[blks[j]]
  }

  function BlocksFor(len: nat): (n: nat) { (len + BLOCK_SIZE - 1) / BLOCK_SIZE }

  ghost predicate FileOk(n: Inode, data: seq<Block>, lay: Lay, bytes: seq<Byte>) {
    && n.flags == F_FILE && n.size == |bytes|
    && Written(data, lay.blks, bytes, BlocksFor(|bytes|))
  }

  /** Block `m` of a directory holds slots `128*m ..`. */
  ghost predicate SlotsAre(blk: Block, slots: seq<Slot>, m: nat) {
    && SLOTS_PER_BLOCK * (m + 1) <= |slots|
    && forall i :: 0 <= i < SLOTS_PER_BLOCK ==> SlotAt(blk, i) == slots[SLOTS_PER_BLOCK * m + i]
  }

  ghost predicate DirOk(n: Inode, data: seq<Block>, lay: Lay, slots: seq<Slot>) {
    && n.flags == F_DIR
    && 1 <= |lay.blks| <= DIRECT_PTRS && lay.ind == 0 && lay.dind == 0
    && |slots| == SLOTS_PER_BLOCK * |lay.blks|
    && forall m :: 0 <= m < |lay.blks| ==> lay.blks[m] < |data| && SlotsAre(data[lay.blks[m]], slots, m)
  }

  ghost function Size(lay: Lay): nat {
    |lay.blks| + (if lay.ind == 0 then 0 else 1) + (if lay.dind == 0 then 0 else 1) + |lay.l1|
  }

  ghost predicate InodeOk(v: View, owner: map<nat, Own>, i: nat, lay: Lay, node: Node) {
    && i < |v.inodes|
    && Shaped(lay) && Tight(lay) && Owns(owner, i, lay)
    && Direct(v.inodes[i], lay) && Tables(v.data, lay)
    && v.inodes[i].nblocks == Size(lay)
    && match node
       case File(bytes) => FileOk(v.inodes[i], v.data, lay, bytes)
       case Dir(slots) => DirOk(v.inodes[i], v.data, lay, slots)
  }

  /** The invariant for everything except inode `ino`, whose layout may be under construction. */
  ghost predicate CoreExcept(v: View, g: State, ino: nat) {
    && v.Sized()
    && BitsOk(v, g.owner) && OwnersOk(v, g.owner, g.lays) && InodesOk(v, g.lays, g.nodes)
    && forall i :: i in g.lays && i != ino ==> InodeOk(v, g.owner, i, g.lays[i], g.nodes[i])
  }

  ghost predicate Core(v: View, g: State) {
    && v.Sized()
    && BitsOk(v, g.owner) && OwnersOk(v, g.owner, g.lays) && InodesOk(v, g.lays, g.nodes)
    && forall i :: i in g.lays ==> InodeOk(v, g.owner, i, g.lays[i], g.nodes[i])
  }

  /** An inode depends only on its own table entry and the blocks it owns. */
  lemma InodeFrame(v: View, w: View, owner: map<nat, Own>, owner': map<nat, Own>, i: nat, lay: Lay, node: Node)
    requires InodeOk(v, owner, i, lay, node)
    requires |w.data| == |v.data| && |w.inodes| == |v.inodes| && w.inodes[i] == v.inodes[i]
    requires forall b :: b in owner && owner[b].ino == i && b < |v.data| ==> w.data[b] == v.data[b]
    requires forall b :: b in owner && owner[b].ino == i ==> b in owner' && owner'[b] == owner[b]
    ensures InodeOk(w, owner', i, lay, node)
  {
    assert forall k :: 0 <= k < |lay.blks| ==> OwnedAs(owner, lay.blks[k], i, Data(k));
    assert forall j :: 0 <= j < |lay.l1| ==> OwnedAs(owner, lay.l1[j], i, Level1(j));
    assert Owns(owner', i, lay);
    assert Tables(w.data, lay);
    match node
    case File(bytes) => assert Written(w.data, lay.blks, bytes, BlocksFor(|bytes|));
    case Dir(slots) => assert DirOk(w.inodes[i], w.data, lay, slots);
  }

  /** The layout after block `b` takes role `r`. */
  ghost function Put(lay: Lay, r: Role, b: nat): Lay {
    match r
    case Data(_) => lay.(blks := lay.blks + [b])
    case Indirect => lay.(ind := b)
    case DIndirect => lay.(dind := b)
    case Level1(_) => lay.(l1 := lay.l1 + [b])
  }

  /** Role `r` is the next free one of its kind. */
  ghost predicate Next(lay: Lay, r: Role) {
    match r
    case Data(i) => i == |lay.blks|
    case Indirect => lay.ind == 0
    case DIndirect => lay.dind == 0
    case Level1(j) => j == |lay.l1|
  }

  ghost function Grown(g: State, ino: nat, r: Role, b: nat): State
    requires ino in g.lays
  {
    g.(owner := g.owner[b := Own(ino, r)], lays := g.lays[ino := Put(g.lays[ino], r, b)])
  }

  lemma GrowOwners(v: View, g: State, ino: nat, r: Role, b: nat)
    requires OwnersOk(v, g.owner, g.lays) && ino in g.lays && Next(g.lays[ino], r)
    requires DATA_START <= b < |v.bbits| && b < |v.data| && b !in g.owner
    ensures var h := Grown(g, ino, r, b); OwnersOk(v, h.owner, h.lays)
  {
    var h := Grown(g, ino, r, b);
    forall x | x in h.owner
      ensures DATA_START <= x < |v.data| && x < |v.bbits| && h.owner[x].ino in h.lays
      ensures Fills(h.lays[h.owner[x].ino], h.owner[x].role, x)
    {
      if x != b { assert x in g.owner; }
    }
  }

  lemma GrowOwns(owner: map<nat, Own>, ino: nat, lay: Lay, r: Role, b: nat)
    requires Owns(owner, ino, lay) && Next(lay, r) && b != 0 && b !in owner
    ensures Owns(owner[b := Own(ino, r)], ino, Put(lay, r, b))
  {
    assert forall i :: 0 <= i < |lay.blks| ==> OwnedAs(owner, lay.blks[i], ino, Data(i));
    assert forall j :: 0 <= j < |lay.l1| ==> OwnedAs(owner, lay.l1[j], ino, Level1(j));
  }

  /** Giving inode `ino` a fresh block disturbs no other inode. */
  lemma GrowCore(v: View, g: State, ino: nat, r: Role, b: nat, w: View)
    requires CoreExcept(v, g, ino) && ino in g.lays && Next(g.lays[ino], r)
    requires DATA_START <= b < |v.bbits| && b < |v.data| && !v.bbits[b]
    requires w == v.(bbits := v.bbits[b := true], data := v.data[b := ZeroBlock()])
    ensures CoreExcept(w, Grown(g, ino, r, b), ino)
  {
    hide InodeOk;
    var h := Grown(g, ino, r, b);
    assert b !in g.owner;
    GrowOwners(v, g, ino, r, b);
    assert OwnersOk(w, h.owner, h.lays);
    forall i | i in h.lays && i != ino ensures InodeOk(w, h.owner, i, h.lays[i], h.nodes[i]) {
      InodeFrame(v, w, g.owner, h.owner, i, g.lays[i], g.nodes[i]);
    }
  }

  lemma OwnedRange(v: View, g: State, ino: nat, b: nat)
    requires CoreExcept(v, g, ino) && b in g.owner
    ensures DATA_START <= b < |v.data| && b < |v.bbits|
  {
  }

  /** Writing a block of inode `ino` disturbs no other inode. */
  lemma WriteCore(v: View, g: State, ino: nat, b: nat, blk: Block)
    requires CoreExcept(v, g, ino) && b in g.owner && g.owner[b].ino == ino && b < |v.data|
    ensures CoreExcept(v.(data := v.data[b := blk]), g, ino)
  {
    hide InodeOk;
    var w := v.(data := v.data[b := blk]);
    forall i | i in g.lays && i != ino ensures InodeOk(w, g.owner, i, g.lays[i], g.nodes[i]) {
      InodeFrame(v, w, g.owner, g.owner, i, g.lays[i], g.nodes[i]);
    }
    forall x | x in g.owner
      ensures DATA_START <= x < |w.data| && x < |w.bbits| && g.owner[x].ino in g.lays
      ensures Fills(g.lays[g.owner[x].ino], g.owner[x].role, x)
    {
    }
  }

  // ---- free space ------------------------------------------------------------------

  /** Data blocks that can still be allocated: clear bits of blocks the disk really has. */
  ghost function FreeBlocks(v: View): nat {
    Clear(v.bbits, DATA_START, Min(|v.bbits|, |v.data|))
  }

  /** Inode numbers that can still be allocated. */
  ghost function FreeInodes(v: View): nat
    requires |v.ibits| >= MAX_INODES
  {
    Clear(v.ibits, 0, MAX_INODES)
  }

  // ---- allocation and block writes on behalf of one inode ----------------------------

  /** `alloc_block` for role `r` of inode `ino`. */
  method AllocFor(vol: Volume, ino: nat, ghost r: Role) returns (b: Option<nat>)
    requires vol.Valid() && CoreExcept(vol.v, vol.g, ino) && ino in vol.g.lays
    requires Next(vol.g.lays[ino], r) && Owns(vol.g.owner, ino, vol.g.lays[ino])
    modifies vol`disk, vol`v, vol`g
    ensures b.Some? <==> old(FreeBlocks(vol.v)) > 0
    ensures b.Some? ==>
      && vol.Valid() && CoreExcept(vol.v, vol.g, ino)
      && DATA_START <= b.value < |old(vol.v).data| && b.value < U32 && b.value !in old(vol.g).owner
      && vol.g == Grown(old(vol.g), ino, r, b.value)
      && vol.v == old(vol.v).(bbits := vol.v.bbits, data := old(vol.v).data[b.value := ZeroBlock()])
      && Owns(vol.g.owner, ino, vol.g.lays[ino])
      && FreeBlocks(vol.v) == old(FreeBlocks(vol.v)) - 1
      && FirstClear(old(vol.v).bbits, DATA_START, b)
  {
    ghost var v := vol.v;
    ghost var n := Min(|v.bbits|, |v.data|);
    b := vol.AllocBlock();
    if b.Some? {
      GrowCore(v, vol.g, ino, r, b.value, vol.v);
      GrowOwns(vol.g.owner, ino, vol.g.lays[ino], r, b.value);
      vol.g := Grown(vol.g, ino, r, b.value);
      ClearSome(v.bbits, DATA_START, n, b.value);
      ClearSet(v.bbits, DATA_START, n, b.value);
    } else {
      ClearNone(v.bbits, DATA_START, n);
    }
  }

  method WriteFor(vol: Volume, ghost ino: nat, b: nat, blk: Block)
    requires vol.Valid() && CoreExcept(vol.v, vol.g, ino)
    requires b in vol.g.owner && vol.g.owner[b].ino == ino
    modifies vol`disk, vol`v
    ensures vol.Valid() && CoreExcept(vol.v, vol.g, ino)
    ensures b < |old(vol.v).data| && vol.v == old(vol.v).(data := old(vol.v).data[b := blk])
    ensures FreeBlocks(vol.v) == old(FreeBlocks(vol.v))
  {
    WriteCore(vol.v, vol.g, ino, b, blk);
    vol.WriteBlock(b, blk);
  }
}
