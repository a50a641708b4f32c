/** Reading and writing file contents through direct, indirect and double-indirect blocks. */
module HepfsFile {
  import opened HepfsLayout
  import opened HepfsTypes
  import opened HepfsStore
  import opened HepfsState
  import opened HepfsNames

  function Max(a: nat, b: nat): nat { if a < b then b else a }

  /** Blocks, tables included, behind `k` data blocks. */
  function FullSize(k: nat): nat {
    k + (if k > DIRECT_PTRS then 1 else 0) + (if k > SINGLE_END then 1 else 0) + L1Count(k)
  }

  /** A file under rewriting: `c` of its blocks hold `bytes` already, and it will
      end with `K` data blocks. */
  ghost predicate Flight(v: View, g: State, ino: nat, bytes: seq<Byte>, c: nat, K: nat) {
    && ino in g.lays
    && var lay := g.lays[ino];
    && Shaped(lay) && Owns(g.owner, ino, lay)
    && Within(lay, K)
    && c <= |lay.blks| && c <= BlocksFor(|bytes|)
    && Written(v.data, lay.blks, bytes, c)
  }

  /** The inode image in memory, not yet on disk. */
  ghost predicate Image(n: Inode, lay: Lay) {
    Direct(n, lay) && n.nblocks == Size(lay)
  }

  ghost predicate Within(lay: Lay, K: nat) {
    && |lay.blks| <= K
    && (lay.ind != 0 ==> K > DIRECT_PTRS) && (lay.dind != 0 ==> K > SINGLE_END) && |lay.l1| <= L1Count(K)
  }

  /** Nothing that belongs to another inode differs: not its table entry, not its
      layout, not its blocks nor what they hold. */
  ghost predicate Kept(v: View, g: State, w: View, h: State, ino: nat) {
    && w.ibits == v.ibits && |w.data| == |v.data| && |w.inodes| == |v.inodes|
    && (forall i :: 0 <= i < |v.inodes| && i != ino ==> w.inodes[i] == v.inodes[i])
    && h.lays.Keys == g.lays.Keys
    && (forall i :: i in g.lays && i != ino ==> h.lays[i] == g.lays[i])
    && (forall b :: b in g.owner ==> b in h.owner && h.owner[b] == g.owner[b])
    && (forall b :: b in h.owner && b !in g.owner ==> h.owner[b].ino == ino)
    && (forall b :: b in g.owner && b < |v.data| && g.owner[b].ino != ino ==> w.data[b] == v.data[b])
  }

  /** Only inode `ino`'s layout and data blocks differ. */
  ghost predicate OnlyLay(v: View, g: State, w: View, h: State, ino: nat) {
    && Kept(v, g, w, h, ino) && w.inodes == v.inodes
    && h.nodes == g.nodes && h.place == g.place && h.rank == g.rank
  }

  ghost function Budget(v: View, g: State, ino: nat): nat
    requires ino in g.lays
  {
    FreeBlocks(v) + Size(g.lays[ino])
  }

  lemma SizeBelow(lay: Lay, K: nat)
    requires Shaped(lay) && Within(lay, K)
    ensures Size(lay) <= FullSize(K)
    ensures |lay.blks| < K || (lay.ind == 0 && K > DIRECT_PTRS) || (lay.dind == 0 && K > SINGLE_END)
              || |lay.l1| < L1Count(K)
            ==> Size(lay) < FullSize(K)
  {
  }

  ghost predicate IsTable(owner: map<nat, Own>, x: nat, ino: nat) {
    x in owner && owner[x].ino == ino && !owner[x].role.Data?
  }

  lemma TablesFrame(data: seq<Block>, owner: map<nat, Own>, ino: nat, lay: Lay, x: nat, blk: Block)
    requires Owns(owner, ino, lay) && x < |data|
    requires !IsTable(owner, x, ino) || owner[x].role.Indirect?
    ensures DoubleTables(data, lay) ==> DoubleTables(data[x := blk], lay)
    ensures Tables(data, lay) && !IsTable(owner, x, ino) ==> Tables(data[x := blk], lay)
  {
    assert forall j :: 0 <= j < |lay.l1| ==> OwnedAs(owner, lay.l1[j], ino, Level1(j));
  }

  lemma WrittenFrame(data: seq<Block>, owner: map<nat, Own>, ino: nat, lay: Lay, bytes: seq<Byte>, c: nat, x: nat,
                     blk: Block)
    requires Owns(owner, ino, lay) && x < |data| && Written(data, lay.blks, bytes, c)
    requires x !in owner || owner[x].ino != ino || !owner[x].role.Data? || owner[x].role.i >= c
    ensures Written(data[x := blk], lay.blks, bytes, c)
  {
    assert forall i :: 0 <= i < |lay.blks| ==> OwnedAs(owner, lay.blks[i], ino, Data(i));
  }

  /** A block image that starts with `chunk`. */
  function PageOf(chunk: seq<Byte>): (b: Block)
    requires |chunk| <= BLOCK_SIZE
    ensures chunk <= b
  {
    chunk + Zeros(BLOCK_SIZE - |chunk|)
  }

  lemma GrowOnlyLay(v: View, g: State, v1: View, g1: State, w: View, ino: nat, r: Role, b: nat)
    requires OnlyLay(v, g, v1, g1, ino) && ino in g1.lays && b !in g1.owner && b < |v1.data|
    requires w == v1.(bbits := w.bbits, data := v1.data[b := ZeroBlock()])
    ensures OnlyLay(v, g, w, Grown(g1, ino, r, b), ino)
  {
  }

  /** There is room for one more block in role `r`. */
  ghost predicate Room(lay: Lay, r: Role, K: nat) {
    Next(lay, r) && Shaped(Put(lay, r, 1)) && Within(Put(lay, r, 1), K)
  }

  lemma RoomSize(lay: Lay, r: Role, K: nat)
    requires Shaped(lay) && Within(lay, K) && Room(lay, r, K)
    ensures Size(lay) < FullSize(K)
    ensures forall b: nat :: 0 < b < U32 ==>
              Shaped(Put(lay, r, b)) && Within(Put(lay, r, b), K) && Size(Put(lay, r, b)) == Size(lay) + 1
  {
    SizeBelow(lay, K);
  }

  /** Allocate a block for role `r` of the file under rewriting. */
  method AllocFlight(vol: Volume, ino: nat, ghost r: Role, ghost v0: View, ghost g0: State,
                     ghost data: seq<Byte>, ghost c: nat, ghost K: nat) returns (b: Option<nat>)
    requires vol.Valid() && CoreExcept(vol.v, vol.g, ino) && Flight(vol.v, vol.g, ino, data, c, K)
    requires Room(vol.g.lays[ino], r, K) && OnlyLay(v0, g0, vol.v, vol.g, ino)
    modifies vol`disk, vol`v, vol`g
    ensures b.None? ==> Budget(old(vol.v), old(vol.g), ino) < FullSize(K)
    ensures b.Some? ==>
      && vol.Valid() && CoreExcept(vol.v, vol.g, ino) && Flight(vol.v, vol.g, ino, data, c, K)
      && OnlyLay(v0, g0, vol.v, vol.g, ino)
      && Budget(vol.v, vol.g, ino) == Budget(old(vol.v), old(vol.g), ino)
      && DATA_START <= b.value < U32 && b.value < |vol.v.data| == |old(vol.v).data| && b.value !in old(vol.g).owner
      && vol.g.lays[ino] == Put(old(vol.g).lays[ino], r, b.value)
      && Size(vol.g.lays[ino]) == Size(old(vol.g).lays[ino]) + 1
      && vol.v.data == old(vol.v).data[b.value := ZeroBlock()] && vol.v.data[b.value] == ZeroBlock()
      && (DoubleTables(old(vol.v).data, old(vol.g).lays[ino]) ==> DoubleTables(vol.v.data, old(vol.g).lays[ino]))
      && (Tables(old(vol.v).data, old(vol.g).lays[ino]) ==> Tables(vol.v.data, old(vol.g).lays[ino]))
  {
    hide CoreExcept, Kept, OnlyLay, Shaped, Within, Tied, Owns, DoubleTables;
    ghost var v, g, lay := vol.v, vol.g, vol.g.lays[ino];
    RoomSize(lay, r, K);
    b := AllocFor(vol, ino, r);
    if b.Some? {
      GrowOnlyLay(v0, g0, v, g, vol.v, ino, r, b.value);
      TablesFrame(v.data, g.owner, ino, lay, b.value, ZeroBlock());
      WrittenFrame(v.data, g.owner, ino, lay, data, c, b.value, ZeroBlock());
      assert Put(lay, r, b.value).blks[..|lay.blks|] == lay.blks;
    }
  }

  lemma WriteOnlyLay(v: View, g: State, v1: View, h: State, w: View, ino: nat, b: nat)
    requires OnlyLay(v, g, v1, h, ino) && b in h.owner && h.owner[b].ino == ino && b < |v1.data|
    requires w == v1.(data := w.data) && |w.data| == |v1.data|
    requires forall x :: 0 <= x < |w.data| && x != b ==> w.data[x] == v1.data[x]
    ensures OnlyLay(v, g, w, h, ino)
  {
  }

  lemma NoTables(data: seq<Block>, lay: Lay)
    requires Shaped(lay) && lay.ind == 0 && lay.dind == 0 && |data| > 0
    ensures Tables(data, lay)
  {
  }

  /** Write the next piece of `data` into block `blk`, the `c`-th of the file. */
  method WriteChunk(vol: Volume, ghost ino: nat, data: seq<Byte>, c: nat, blk: nat, ghost v0: View, ghost g0: State,
                    ghost K: nat)
    requires vol.Valid() && CoreExcept(vol.v, vol.g, ino) && Flight(vol.v, vol.g, ino, data, c, K)
    requires BLOCK_SIZE * c < |data| && c < |vol.g.lays[ino].blks| && blk == vol.g.lays[ino].blks[c]
    requires OnlyLay(v0, g0, vol.v, vol.g, ino)
    modifies vol`disk, vol`v
    ensures vol.Valid() && CoreExcept(vol.v, vol.g, ino) && Flight(vol.v, vol.g, ino, data, c + 1, K)
    ensures OnlyLay(v0, g0, vol.v, vol.g, ino)
    ensures DoubleTables(old(vol.v).data, vol.g.lays[ino]) ==> DoubleTables(vol.v.data, vol.g.lays[ino])
    ensures Tables(old(vol.v).data, vol.g.lays[ino]) ==> Tables(vol.v.data, vol.g.lays[ino])
    ensures FreeBlocks(vol.v) == old(FreeBlocks(vol.v))
  {
    hide CoreExcept, Kept, OnlyLay, Shaped, Within, Tied, DoubleTables;
    ghost var lay, v := vol.g.lays[ino], vol.v;
    assert OwnedAs(vol.g.owner, lay.blks[c], ino, Data(c));
    var chunk := data[BLOCK_SIZE * c..Min(BLOCK_SIZE * (c + 1), |data|)];
    var page := PageOf(chunk);
    WriteFor(vol, ino, blk, page);
    WriteOnlyLay(v0, g0, v, vol.g, vol.v, ino, blk);
    TablesFrame(v.data, vol.g.owner, ino, lay, blk, page);
    WrittenFrame(v.data, vol.g.owner, ino, lay, data, c, blk, page);
    assert chunk == Piece(data, c);
  }

  /** What each phase of `write_file` keeps. */
  ghost predicate Progress(v0: View, g0: State, v: View, g: State, ino: nat, n0: Inode, n: Inode,
                           data: seq<Byte>, c: nat, K: nat) {
    && CoreExcept(v, g, ino) && Flight(v, g, ino, data, c, K)
    && OnlyLay(v0, g0, v, g, ino)
    && ino in g0.lays && Budget(v, g, ino) == Budget(v0, g0, ino)
    && Image(n, g.lays[ino])
    && n == n0.(direct := n.direct, indirect := n.indirect, dindirect := n.dindirect, nblocks := n.nblocks)
  }

  /** Phase 1: the twelve direct blocks. */
  method WriteDirect(vol: Volume, ino: nat, n0: Inode, data: seq<Byte>, ghost v0: View, ghost g0: State, ghost K: nat)
    returns (ok: bool, n: Inode, c: nat)
    requires vol.Valid() && Progress(v0, g0, vol.v, vol.g, ino, n0, n0, data, 0, K)
    requires Tables(vol.v.data, vol.g.lays[ino]) && BlocksFor(|data|) <= K
    modifies vol`disk, vol`v, vol`g
    ensures !ok ==> Budget(v0, g0, ino) < FullSize(K)
    ensures ok ==>
      && vol.Valid() && Progress(v0, g0, vol.v, vol.g, ino, n0, n, data, c, K)
      && Tables(vol.v.data, vol.g.lays[ino])
      && c == Min(DIRECT_PTRS, BlocksFor(|data|)) && |vol.g.lays[ino].blks| == Max(old(|vol.g.lays[ino].blks|), c)
  {
    hide CoreExcept, Kept, OnlyLay, Tied, Written, Owns, DoubleTables, FullSize;
    n := n0;
    c := 0;
    ok := true;
    while BLOCK_SIZE * c < |data| && c < DIRECT_PTRS
      invariant 0 <= c <= DIRECT_PTRS && c <= BlocksFor(|data|)
      invariant vol.Valid() && Progress(v0, g0, vol.v, vol.g, ino, n0, n, data, c, K)
      invariant Tables(vol.v.data, vol.g.lays[ino])
      invariant |vol.g.lays[ino].blks| == Max(old(|vol.g.lays[ino].blks|), c)
    {
      if n.direct[c] == 0 {
        var b := AllocFlight(vol, ino, Data(c), v0, g0, data, c, K);
        if b.None? { return false, n, c; }
        n := n.(direct := n.direct[c := b.value], nblocks := n.nblocks + 1);
        NoTables(vol.v.data, vol.g.lays[ino]);
      }
      WriteChunk(vol, ino, data, c, n.direct[c], v0, g0, K);
      c := c + 1;
    }
  }

  /** Append a block to the pointers of a table. */
  lemma PtrsAppend(blk: Block, s: seq<nat>, lo: nat, p: nat)
    requires PtrsAre(blk, s, lo) && lo <= |s| < lo + PTRS_PER_BLOCK && p < U32
    ensures PtrsAre(SetPtr(blk, |s| - lo, p), s + [p], lo)
  {
  }

  lemma PtrsBeyond(blk: Block, s: seq<nat>, lo: nat, p: nat)
    requires PtrsAre(blk, s, lo) && lo + PTRS_PER_BLOCK <= |s|
    ensures PtrsAre(blk, s + [p], lo)
  {
  }

  lemma EmptyPtrs(s: seq<nat>, lo: nat)
    requires |s| <= lo
    ensures PtrsAre(ZeroBlock(), s, lo)
  {
    ZeroBlockHasNoPtrs();
  }

  /** Phase 2: the single-indirect table, edited in memory and flushed once. */
  method WriteIndirect(vol: Volume, ino: nat, ghost n0: Inode, n1: Inode, data: seq<Byte>, ghost v0: View,
                       ghost g0: State, ghost K: nat)
    returns (ok: bool, n: Inode, c: nat)
    requires vol.Valid() && Progress(v0, g0, vol.v, vol.g, ino, n0, n1, data, DIRECT_PTRS, K)
    requires Tables(vol.v.data, vol.g.lays[ino]) && BlocksFor(|data|) <= K && BLOCK_SIZE * DIRECT_PTRS < |data|
    modifies vol`disk, vol`v, vol`g
    ensures !ok ==> Budget(v0, g0, ino) < FullSize(K)
    ensures ok ==>
      && vol.Valid() && Progress(v0, g0, vol.v, vol.g, ino, n0, n, data, c, K)
      && Tables(vol.v.data, vol.g.lays[ino]) && vol.g.lays[ino].ind != 0
      && c == Min(SINGLE_END, BlocksFor(|data|)) && |vol.g.lays[ino].blks| == Max(old(|vol.g.lays[ino].blks|), c)
  {
    hide CoreExcept, Kept, OnlyLay, Tied, Written, Owns, DoubleTables, PtrsAre;
    n := n1;
    c := DIRECT_PTRS;
    if n.indirect == 0 {
      var b := AllocFlight(vol, ino, Indirect, v0, g0, data, c, K);
      if b.None? { return false, n, c; }
      n := n.(indirect := b.value, nblocks := n.nblocks + 1);
      assert vol.v.data[b.value] == ZeroBlock();
      EmptyPtrs(vol.g.lays[ino].blks, DIRECT_PTRS);
      assert PtrsAre(vol.v.data[b.value], vol.g.lays[ino].blks, DIRECT_PTRS);
      assert DoubleTables(vol.v.data, vol.g.lays[ino]) by {
        NoTables(vol.v.data, vol.g.lays[ino].(ind := 0, blks := []));
        DoubleSame(vol.v.data, vol.g.lays[ino].(ind := 0, blks := []), vol.g.lays[ino]);
      }
    } else {
      assert PtrsAre(vol.v.data[n.indirect], vol.g.lays[ino].blks, DIRECT_PTRS);
    }
    IndirectOwned(vol.g, ino);
    OwnedRange(vol.v, vol.g, ino, n.indirect);
    var page := vol.ReadBlock(n.indirect);
    ok, n, page, c := IndirectLoop(vol, ino, n0, n, page, data, v0, g0, K);
    if !ok { return; }
    // flush the indirect table
    ghost var v, lay := vol.v, vol.g.lays[ino];
    IndirectOwned(vol.g, ino);
    WriteFor(vol, ino, n.indirect, page);
    WriteOnlyLay(v0, g0, v, vol.g, vol.v, ino, n.indirect);
    TablesFrame(v.data, vol.g.owner, ino, lay, n.indirect, page);
    WrittenFrame(v.data, vol.g.owner, ino, lay, data, c, n.indirect, page);
  }

  lemma IndirectOwned(g: State, ino: nat)
    requires ino in g.lays && Owns(g.owner, ino, g.lays[ino]) && g.lays[ino].ind != 0
    ensures OwnedAs(g.owner, g.lays[ino].ind, ino, Indirect)
  {
  }

  lemma DoubleSame(data: seq<Block>, a: Lay, b: Lay)
    requires DoubleTables(data, a) && a.dind == b.dind && a.l1 == b.l1 == []
    ensures DoubleTables(data, b)
  {
  }

  method IndirectLoop(vol: Volume, ino: nat, ghost n0: Inode, n1: Inode, page0: Block, data: seq<Byte>, ghost v0: View,
                      ghost g0: State, ghost K: nat)
    returns (ok: bool, n: Inode, page: Block, c: nat)
    requires vol.Valid() && Progress(v0, g0, vol.v, vol.g, ino, n0, n1, data, DIRECT_PTRS, K)
    requires DoubleTables(vol.v.data, vol.g.lays[ino]) && vol.g.lays[ino].ind != 0
    requires PtrsAre(page0, vol.g.lays[ino].blks, DIRECT_PTRS)
    requires BlocksFor(|data|) <= K && BLOCK_SIZE * DIRECT_PTRS < |data|
    modifies vol`disk, vol`v, vol`g
    ensures !ok ==> Budget(v0, g0, ino) < FullSize(K)
    ensures ok ==>
      && vol.Valid() && Progress(v0, g0, vol.v, vol.g, ino, n0, n, data, c, K)
      && DoubleTables(vol.v.data, vol.g.lays[ino]) && vol.g.lays[ino].ind != 0
      && PtrsAre(page, vol.g.lays[ino].blks, DIRECT_PTRS)
      && c == Min(SINGLE_END, BlocksFor(|data|)) && |vol.g.lays[ino].blks| == Max(old(|vol.g.lays[ino].blks|), c)
  {
    hide CoreExcept, Kept, OnlyLay, Tied, Written, Owns, DoubleTables, PtrsAre, FullSize, SetPtr, PtrAt;
    n, page, ok := n1, page0, true;
    var i := 0;
    c := DIRECT_PTRS;
    while BLOCK_SIZE * c < |data| && i < PTRS_PER_BLOCK
      invariant c == DIRECT_PTRS + i <= SINGLE_END && c <= BlocksFor(|data|)
      invariant vol.Valid() && Progress(v0, g0, vol.v, vol.g, ino, n0, n, data, c, K)
      invariant DoubleTables(vol.v.data, vol.g.lays[ino]) && vol.g.lays[ino].ind != 0
      invariant PtrsAre(page, vol.g.lays[ino].blks, DIRECT_PTRS)
      invariant |vol.g.lays[ino].blks| == Max(old(|vol.g.lays[ino].blks|), c)
    {
      var existing := PtrAt(page, i);
      PtrsEntry(page, vol.g.lays[ino].blks, DIRECT_PTRS, i);
      var blk := existing;
      if existing == 0 {
        ghost var lay := vol.g.lays[ino];
        var b := AllocFlight(vol, ino, Data(c), v0, g0, data, c, K);
        if b.None? { return false, n, page, c; }
        n := n.(nblocks := n.nblocks + 1);
        PtrsAppend(page, lay.blks, DIRECT_PTRS, b.value);
        page := SetPtr(page, i, b.value);
        blk := b.value;
        DoubleSame(vol.v.data, lay, vol.g.lays[ino]);
      }
      WriteChunk(vol, ino, data, c, blk, v0, g0, K);
      c, i := c + 1, i + 1;
    }
  }

  lemma PtrsEntry(blk: Block, s: seq<nat>, lo: nat, i: nat)
    requires PtrsAre(blk, s, lo) && i < PTRS_PER_BLOCK
    ensures PtrAt(blk, i) == if lo + i < |s| then s[lo + i] else 0
  {
  }

  /** Double-indirect tables with one more level-1 table, still empty. */
  lemma TablesNewLevel1(data: seq<Block>, owner: map<nat, Own>, ino: nat, lay: Lay, b: nat, page: Block,
                        data': seq<Block>)
    requires Shaped(lay) && Owns(owner, ino, lay) && Tables(data, lay) && lay.dind != 0 && lay.ind != 0
    requires |lay.l1| < PTRS_PER_BLOCK && |lay.blks| == SINGLE_END + 1024 * |lay.l1|
    requires b !in owner && b < |data| && b < U32
    requires page == SetPtr(data[lay.dind], |lay.l1|, b) && data' == data[b := ZeroBlock()][lay.dind := page]
    ensures Tables(data', lay.(l1 := lay.l1 + [b]))
  {
    hide PtrsAre;
    var lay' := lay.(l1 := lay.l1 + [b]);
    PtrsAppend(data[lay.dind], lay.l1, 0, b);
    EmptyPtrs(lay.blks, SINGLE_END + 1024 * |lay.l1|);
    forall j | 0 <= j < |lay'.l1|
      ensures lay'.l1[j] < |data'| && PtrsAre(data'[lay'.l1[j]], lay'.blks, SINGLE_END + 1024 * j)
    {
      if j < |lay.l1| { assert OwnedAs(owner, lay.l1[j], ino, Level1(j)); }
    }
    assert DoubleTables(data', lay');
  }

  /** Double-indirect tables with one more data block in the last level-1 table. */
  lemma TablesNewData(data: seq<Block>, owner: map<nat, Own>, ino: nat, lay: Lay, b: nat, j: nat, page: Block,
                      data': seq<Block>)
    requires Shaped(lay) && Owns(owner, ino, lay) && Tables(data, lay) && lay.dind != 0 && lay.ind != 0
    requires j < |lay.l1| && SINGLE_END + 1024 * j <= |lay.blks| < SINGLE_END + 1024 * (j + 1)
    requires b !in owner && b < |data| && b < U32
    requires page == SetPtr(data[lay.l1[j]], |lay.blks| - (SINGLE_END + 1024 * j), b)
    requires data' == data[b := ZeroBlock()][lay.l1[j] := page]
    ensures Tables(data', lay.(blks := lay.blks + [b]))
  {
    hide PtrsAre;
    var lay' := lay.(blks := lay.blks + [b]);
    assert OwnedAs(owner, lay.l1[j], ino, Level1(j));
    PtrsAppend(data[lay.l1[j]], lay.blks, SINGLE_END + 1024 * j, b);
    PtrsBeyond(data[lay.ind], lay.blks, DIRECT_PTRS, b);
    forall m | 0 <= m < |lay'.l1|
      ensures lay'.l1[m] < |data'| && PtrsAre(data'[lay'.l1[m]], lay'.blks, SINGLE_END + 1024 * m)
    {
      assert OwnedAs(owner, lay.l1[m], ino, Level1(m));
      if m < j { PtrsBeyond(data[lay.l1[m]], lay.blks, SINGLE_END + 1024 * m, b); } else { assert m == j; }
    }
    assert DoubleTables(data', lay');
  }

  /** Writing a table block of the file keeps all but its tables. */
  method WriteTable(vol: Volume, ghost ino: nat, ghost n0: Inode, ghost n: Inode, b: nat, page: Block,
                    ghost data: seq<Byte>, ghost c: nat, ghost v0: View, ghost g0: State, ghost K: nat)
    requires vol.Valid() && Progress(v0, g0, vol.v, vol.g, ino, n0, n, data, c, K)
    requires IsTable(vol.g.owner, b, ino)
    modifies vol`disk, vol`v
    ensures vol.Valid() && Progress(v0, g0, vol.v, vol.g, ino, n0, n, data, c, K)
    ensures b < |old(vol.v).data| && vol.v.data == old(vol.v).data[b := page]
  {
    hide CoreExcept, Kept, OnlyLay, Tied, Written, Owns;
    ghost var v := vol.v;
    WriteFor(vol, ino, b, page);
    WriteOnlyLay(v0, g0, v, vol.g, vol.v, ino, b);
    WrittenFrame(v.data, vol.g.owner, ino, vol.g.lays[ino], data, c, b, page);
  }

  lemma DoubleOwned(v: View, g: State, ino: nat)
    requires ino in g.lays && CoreExcept(v, g, ino) && Owns(g.owner, ino, g.lays[ino]) && g.lays[ino].dind != 0
    ensures OwnedAs(g.owner, g.lays[ino].dind, ino, DIndirect)
    ensures DATA_START <= g.lays[ino].dind < |v.data|
  {
  }

  lemma Level1Owned(v: View, g: State, ino: nat, j: nat)
    requires ino in g.lays && CoreExcept(v, g, ino) && Owns(g.owner, ino, g.lays[ino]) && j < |g.lays[ino].l1|
    ensures OwnedAs(g.owner, g.lays[ino].l1[j], ino, Level1(j))
    ensures DATA_START <= g.lays[ino].l1[j] < |v.data|
  {
    assert OwnedAs(g.owner, g.lays[ino].l1[j], ino, Level1(j));
  }

  lemma DoubleEntry(data: seq<Block>, lay: Lay, j: nat)
    requires Tables(data, lay) && lay.dind != 0 && j < PTRS_PER_BLOCK
    ensures PtrAt(data[lay.dind], j) == if j < |lay.l1| then lay.l1[j] else 0
  {
  }

  lemma Level1Entry(data: seq<Block>, lay: Lay, j: nat, m: nat)
    requires Tables(data, lay) && j < |lay.l1| && m < PTRS_PER_BLOCK
    ensures lay.l1[j] < |data|
    ensures var i := SINGLE_END + 1024 * j + m; PtrAt(data[lay.l1[j]], m) == if i < |lay.blks| then lay.blks[i] else 0
  {
    assert PtrsAre(data[lay.l1[j]], lay.blks, SINGLE_END + 1024 * j);
  }

  /** The level-1 table for data block `counter` of the double-indirect range, allocated if missing. */
  method Level1Table(vol: Volume, ino: nat, ghost n0: Inode, n1: Inode, counter: nat, ghost data: seq<Byte>,
                     ghost v0: View, ghost g0: State, ghost K: nat) returns (ok: bool, n: Inode, l1: nat)
    requires vol.Valid() && Progress(v0, g0, vol.v, vol.g, ino, n0, n1, data, SINGLE_END + counter, K)
    requires Tables(vol.v.data, vol.g.lays[ino]) && vol.g.lays[ino].dind != 0
    requires counter < 1024 * 1024 && SINGLE_END + counter < K
    modifies vol`disk, vol`v, vol`g
    ensures !ok ==> Budget(v0, g0, ino) < FullSize(K)
    ensures ok ==>
      && vol.Valid() && Progress(v0, g0, vol.v, vol.g, ino, n0, n, data, SINGLE_END + counter, K)
      && Tables(vol.v.data, vol.g.lays[ino]) && vol.g.lays[ino].dind != 0
      && vol.g.lays[ino].blks == old(vol.g).lays[ino].blks
      && counter / 1024 < |vol.g.lays[ino].l1| && l1 == vol.g.lays[ino].l1[counter / 1024]
  {
    hide CoreExcept, Kept, OnlyLay, Tied, Written, Owns, DoubleTables, PtrsAre;
    n, ok := n1, true;
    var idx := counter / PTRS_PER_BLOCK;
    DoubleOwned(vol.v, vol.g, ino);
    DoubleEntry(vol.v.data, vol.g.lays[ino], idx);
    var page := vol.ReadBlock(n.dindirect);
    l1 := PtrAt(page, idx);
    if l1 == 0 {
      ghost var v, g, lay := vol.v, vol.g, vol.g.lays[ino];
      var b := AllocFlight(vol, ino, Level1(idx), v0, g0, data, SINGLE_END + counter, K);
      if b.None? { return false, n, l1; }
      n := n.(nblocks := n.nblocks + 1);
      page := SetPtr(page, idx, b.value);
      DoubleOwned(vol.v, vol.g, ino);
      WriteTable(vol, ino, n0, n, n.dindirect, page, data, SINGLE_END + counter, v0, g0, K);
      TablesNewLevel1(v.data, g.owner, ino, lay, b.value, page, vol.v.data);
      l1 := b.value;
    }
  }

  /** Data block `counter` of the double-indirect range, allocated if missing. */
  method DoubleBlock(vol: Volume, ino: nat, ghost n0: Inode, n1: Inode, counter: nat, l1: nat, ghost data: seq<Byte>,
                     ghost v0: View, ghost g0: State, ghost K: nat) returns (ok: bool, n: Inode, blk: nat)
    requires vol.Valid() && Progress(v0, g0, vol.v, vol.g, ino, n0, n1, data, SINGLE_END + counter, K)
    requires Tables(vol.v.data, vol.g.lays[ino]) && vol.g.lays[ino].dind != 0
    requires counter / 1024 < |vol.g.lays[ino].l1| && l1 == vol.g.lays[ino].l1[counter / 1024]
    requires counter < 1024 * 1024 && SINGLE_END + counter < K
    modifies vol`disk, vol`v, vol`g
    ensures !ok ==> Budget(v0, g0, ino) < FullSize(K)
    ensures ok ==>
      && vol.Valid() && Progress(v0, g0, vol.v, vol.g, ino, n0, n, data, SINGLE_END + counter, K)
      && Tables(vol.v.data, vol.g.lays[ino]) && vol.g.lays[ino].dind != 0
      && |vol.g.lays[ino].blks| == Max(old(|vol.g.lays[ino].blks|), SINGLE_END + counter + 1)
      && blk == vol.g.lays[ino].blks[SINGLE_END + counter]
  {
    hide CoreExcept, Kept, OnlyLay, Tied, Written, Owns, DoubleTables, PtrsAre;
    n, ok := n1, true;
    ghost var j := counter / 1024;
    var idx := counter % PTRS_PER_BLOCK;
    assert counter == 1024 * j + idx;
    Level1Owned(vol.v, vol.g, ino, j);
    Level1Entry(vol.v.data, vol.g.lays[ino], j, idx);
    var page := vol.ReadBlock(l1);
    blk := PtrAt(page, idx);
    if blk == 0 {
      ok, n, blk := NewDoubleBlock(vol, ino, n0, n, j, idx, l1, page, data, v0, g0, K);
    }
  }

  /** Allocate the data block at entry `m` of level-1 table `j` and link it there. */
  method NewDoubleBlock(vol: Volume, ino: nat, ghost n0: Inode, n1: Inode, ghost j: nat, m: nat, l1: nat, page0: Block,
                        ghost data: seq<Byte>,
                        ghost v0: View, ghost g0: State, ghost K: nat) returns (ok: bool, n: Inode, blk: nat)
    requires vol.Valid() && m < PTRS_PER_BLOCK && SINGLE_END + 1024 * j + m < K
    requires Progress(v0, g0, vol.v, vol.g, ino, n0, n1, data, SINGLE_END + 1024 * j + m, K)
    requires Tables(vol.v.data, vol.g.lays[ino]) && vol.g.lays[ino].dind != 0
    requires |vol.g.lays[ino].blks| == SINGLE_END + 1024 * j + m
    requires j < |vol.g.lays[ino].l1| && l1 == vol.g.lays[ino].l1[j] && l1 < |vol.v.data| && page0 == vol.v.data[l1]
    modifies vol`disk, vol`v, vol`g
    ensures !ok ==> Budget(v0, g0, ino) < FullSize(K)
    ensures ok ==>
      && vol.Valid() && Progress(v0, g0, vol.v, vol.g, ino, n0, n, data, SINGLE_END + 1024 * j + m, K)
      && Tables(vol.v.data, vol.g.lays[ino]) && vol.g.lays[ino].dind != 0
      && vol.g.lays[ino].blks == old(vol.g.lays[ino].blks) + [blk]
  {
    hide CoreExcept, Kept, OnlyLay, Tied, Written, Owns, DoubleTables, PtrsAre, SetPtr;
    n, blk := n1, 0;
    ghost var v, g, lay := vol.v, vol.g, vol.g.lays[ino];
    var b := AllocFlight(vol, ino, Data(SINGLE_END + 1024 * j + m), v0, g0, data, SINGLE_END + 1024 * j + m, K);
    if b.None? { return false, n, blk; }
    n := n.(nblocks := n.nblocks + 1);
    var page := SetPtr(page0, m, b.value);
    Level1Owned(vol.v, vol.g, ino, j);
    WriteTable(vol, ino, n0, n, l1, page, data, SINGLE_END + 1024 * j + m, v0, g0, K);
    TablesNewData(v.data, g.owner, ino, lay, b.value, j, page, vol.v.data);
    ok, blk := true, b.value;
  }

  /** The double-indirect table, allocated if missing. */
  method DoubleRoot(vol: Volume, ino: nat, ghost n0: Inode, n1: Inode, ghost data: seq<Byte>, ghost v0: View,
                    ghost g0: State, ghost K: nat)
    returns (ok: bool, n: Inode)
    requires vol.Valid() && Progress(v0, g0, vol.v, vol.g, ino, n0, n1, data, SINGLE_END, K)
    requires Tables(vol.v.data, vol.g.lays[ino]) && vol.g.lays[ino].ind != 0 && SINGLE_END < K
    modifies vol`disk, vol`v, vol`g
    ensures !ok ==> Budget(v0, g0, ino) < FullSize(K)
    ensures ok ==>
      && vol.Valid() && Progress(v0, g0, vol.v, vol.g, ino, n0, n, data, SINGLE_END, K)
      && Tables(vol.v.data, vol.g.lays[ino]) && vol.g.lays[ino].dind != 0
      && vol.g.lays[ino].blks == old(vol.g.lays[ino].blks)
  {
    hide CoreExcept, Kept, OnlyLay, Tied, Written, Owns, DoubleTables, PtrsAre;
    n, ok := n1, true;
    if n.dindirect == 0 {
      ghost var lay := vol.g.lays[ino];
      var b := AllocFlight(vol, ino, DIndirect, v0, g0, data, SINGLE_END, K);
      if b.None? { return false, n; }
      n := n.(dindirect := b.value, nblocks := n.nblocks + 1);
      NewDouble(vol.v.data, lay, b.value);
    }
  }

  /** Phase 3: double-indirect blocks. */
  method WriteDouble(vol: Volume, ino: nat, ghost n0: Inode, n1: Inode, data: seq<Byte>, ghost v0: View,
                     ghost g0: State, ghost K: nat)
    returns (ok: bool, n: Inode)
    requires vol.Valid() && Progress(v0, g0, vol.v, vol.g, ino, n0, n1, data, SINGLE_END, K)
    requires Tables(vol.v.data, vol.g.lays[ino]) && vol.g.lays[ino].ind != 0
    requires BlocksFor(|data|) <= K && BLOCK_SIZE * SINGLE_END < |data|
    modifies vol`disk, vol`v, vol`g
    ensures !ok ==> Budget(v0, g0, ino) < FullSize(K) || BlocksFor(|data|) > MAX_FILE_BLOCKS
    ensures ok ==>
      && vol.Valid() && Progress(v0, g0, vol.v, vol.g, ino, n0, n, data, BlocksFor(|data|), K)
      && Tables(vol.v.data, vol.g.lays[ino])
      && |vol.g.lays[ino].blks| == Max(old(|vol.g.lays[ino].blks|), BlocksFor(|data|))
      && BlocksFor(|data|) <= MAX_FILE_BLOCKS
  {
    hide CoreExcept, Kept, OnlyLay, Tied, Written, Owns, Tables, Image, FullSize, Within;
    ok, n := DoubleRoot(vol, ino, n0, n1, data, v0, g0, K);
    if !ok { return; }
    var counter := 0;
    while BLOCK_SIZE * (SINGLE_END + counter) < |data|
      invariant SINGLE_END + counter <= BlocksFor(|data|)
      invariant vol.Valid() && Progress(v0, g0, vol.v, vol.g, ino, n0, n, data, SINGLE_END + counter, K)
      invariant Tables(vol.v.data, vol.g.lays[ino]) && vol.g.lays[ino].dind != 0
      invariant |vol.g.lays[ino].blks| == Max(old(|vol.g.lays[ino].blks|), SINGLE_END + counter)
      invariant counter <= 1024 * 1024
    {
      if counter >= 1024 * 1024 { return false, n; }
      var l1, blk;
      ok, n, l1 := Level1Table(vol, ino, n0, n, counter, data, v0, g0, K);
      if !ok { return; }
      ok, n, blk := DoubleBlock(vol, ino, n0, n, counter, l1, data, v0, g0, K);
      if !ok { return; }
      WriteChunk(vol, ino, data, SINGLE_END + counter, blk, v0, g0, K);
      counter := counter + 1;
    }
  }

  lemma NewDouble(data: seq<Block>, lay: Lay, b: nat)
    requires Shaped(lay) && Tables(data, lay) && lay.dind == 0 && 0 < b < |data| && data[b] == ZeroBlock()
    ensures Tables(data, lay.(dind := b))
  {
    EmptyPtrs(lay.l1, 0);
  }

  /** Data blocks that must be free for a file of `k` blocks to take `len` bytes. */
  function Need(k: nat, len: nat): int {
    FullSize(Max(k, BlocksFor(len))) - FullSize(k)
  }

  lemma TightSize(lay: Lay)
    requires Tight(lay)
    ensures Size(lay) == FullSize(|lay.blks|)
  {
  }

  lemma L1Monotone(a: nat, b: nat)
    requires a <= b
    ensures L1Count(a) <= L1Count(b)
  {
  }

  /** Every file in a valid volume can start to be rewritten. */
  lemma StartFlight(v: View, g: State, ino: nat, bytes: seq<Byte>)
    requires Core(v, g) && ino in g.lays
    ensures var K := Max(|g.lays[ino].blks|, BlocksFor(|bytes|));
            Progress(v, g, v, g, ino, v.inodes[ino], v.inodes[ino], bytes, 0, K)
    ensures Tables(v.data, g.lays[ino]) && Tight(g.lays[ino])
  {
    assert InodeOk(v, g.owner, ino, g.lays[ino], g.nodes[ino]);
    L1Monotone(|g.lays[ino].blks|, Max(|g.lays[ino].blks|, BlocksFor(|bytes|)));
    assert CoreExcept(v, g, ino);
  }

  lemma FullFlight(lay: Lay)
    requires Shaped(lay) && Within(lay, |lay.blks|)
    ensures Tight(lay)
  {
  }

  lemma FinishInode(v: View, g: State, ino: nat, n: Inode, bytes: seq<Byte>)
    requires ino in g.lays && ino < |v.inodes|
    requires Flight(v, g, ino, bytes, BlocksFor(|bytes|), |g.lays[ino].blks|) && Image(n, g.lays[ino])
    requires Tables(v.data, g.lays[ino]) && n.flags == F_FILE && n.size == |bytes|
    ensures InodeOk(v.(inodes := v.inodes[ino := n]), g.owner, ino, g.lays[ino], File(bytes))
    ensures Tight(g.lays[ino])
  {
    hide PtrsAre, Written;
    FullFlight(g.lays[ino]);
  }

  /** Putting a finished inode back among the others restores the invariant. */
  lemma CommitInode(v: View, g: State, ino: nat, n: Inode, node: Node)
    requires CoreExcept(v, g, ino) && ino in g.lays && ino < |v.inodes|
    requires InodeOk(v.(inodes := v.inodes[ino := n]), g.owner, ino, g.lays[ino], node)
    ensures Core(v.(inodes := v.inodes[ino := n]), g.(nodes := g.nodes[ino := node]))
  {
    hide Shaped, Tight, Tables, Direct, FileOk, DirOk, Owns;
    var w, h := v.(inodes := v.inodes[ino := n]), g.(nodes := g.nodes[ino := node]);
    forall i | i in h.lays ensures InodeOk(w, h.owner, i, h.lays[i], h.nodes[i]) {
      if i != ino { InodeFrame(v, w, g.owner, h.owner, i, g.lays[i], g.nodes[i]); }
    }
    assert OwnersOk(w, h.owner, h.lays);
  }

  lemma ImageFits(n0: Inode, n: Inode, lay: Lay, size: nat)
    requires n0.Fits() && Shaped(lay) && Image(n, lay) && size < U64
    requires n == n0.(direct := n.direct, indirect := n.indirect, dindirect := n.dindirect, nblocks := n.nblocks)
    ensures n.(size := size).Fits()
  {
  }

  lemma InodeKind(v: View, g: State, ino: nat)
    requires Core(v, g) && ino in g.nodes
    ensures ino in g.lays && ino < MAX_INODES && ino < |v.inodes|
    ensures v.inodes[ino].flags == if g.nodes[ino].File? then F_FILE else F_DIR
  {
    assert InodeOk(v, g.owner, ino, g.lays[ino], g.nodes[ino]);
  }

  lemma Resized(v0: View, g0: State, v: View, g: State, ino: nat, n0: Inode, n: Inode, bytes: seq<Byte>, c: nat, K: nat,
                size: nat)
    requires Progress(v0, g0, v, g, ino, n0, n, bytes, c, K)
    ensures Progress(v0, g0, v, g, ino, n0.(size := size), n.(size := size), bytes, c, K)
  {
  }

  lemma LayKept(v0: View, g0: State, v: View, g: State, ino: nat, n: Inode, bytes: seq<Byte>)
    requires OnlyLay(v0, g0, v, g, ino) && ino < |v0.inodes|
    ensures |v.inodes| == |v0.inodes|
    ensures Kept(v0, g0, v.(inodes := v.inodes[ino := n]), g.(nodes := g.nodes[ino := File(bytes)]), ino)
    ensures g.nodes == g0.nodes && g.place == g0.place && g.rank == g0.rank
  {
  }

  /** The three phases: the blocks hold `data`, the inode on disk is still the old one. */
  method WriteBlocks(vol: Volume, ino: nat, n0: Inode, data: seq<Byte>, ghost v0: View, ghost g0: State, ghost K: nat)
    returns (ok: bool, n: Inode)
    requires vol.Valid() && Progress(v0, g0, vol.v, vol.g, ino, n0, n0, data, 0, K)
    requires Tables(vol.v.data, vol.g.lays[ino]) && BlocksFor(|data|) <= K
    modifies vol`disk, vol`v, vol`g
    ensures !ok ==> Budget(v0, g0, ino) < FullSize(K) || BlocksFor(|data|) > MAX_FILE_BLOCKS
    ensures ok ==>
      && vol.Valid() && Progress(v0, g0, vol.v, vol.g, ino, n0, n, data, BlocksFor(|data|), K)
      && Tables(vol.v.data, vol.g.lays[ino]) && BlocksFor(|data|) <= MAX_FILE_BLOCKS
      && |vol.g.lays[ino].blks| == Max(old(|vol.g.lays[ino].blks|), BlocksFor(|data|))
  {
    hide Progress, Tables, Tied;
    var c;
    ok, n, c := WriteDirect(vol, ino, n0, data, v0, g0, K);
    if !ok { return; }
    if BLOCK_SIZE * c < |data| {
      ok, n, c := WriteIndirect(vol, ino, n0, n, data, v0, g0, K);
      if !ok { return; }
    }
    if BLOCK_SIZE * c < |data| {
      ok, n := WriteDouble(vol, ino, n0, n, data, v0, g0, K);
    }
  }

  /** The new size and the inode write that make the file's new state count. */
  method Seal(vol: Volume, ino: nat, ghost n0: Inode, n1: Inode, data: seq<Byte>, ghost v0: View, ghost g0: State,
              ghost K: nat)
    requires vol.Valid() && Progress(v0, g0, vol.v, vol.g, ino, n0, n1, data, BlocksFor(|data|), K)
    requires Tables(vol.v.data, vol.g.lays[ino]) && |vol.g.lays[ino].blks| == K && BlocksFor(|data|) <= MAX_FILE_BLOCKS
    requires ino < MAX_INODES && ino < |v0.inodes| && n0.Fits() && n0.flags == F_FILE
    modifies vol`disk, vol`v, vol`g
    ensures vol.Valid() && Core(vol.v, vol.g) && Kept(v0, g0, vol.v, vol.g, ino)
    ensures vol.g == g0.(owner := vol.g.owner, lays := vol.g.lays, nodes := g0.nodes[ino := File(data)])
    ensures FreeBlocks(vol.v) + FullSize(K) == Budget(v0, g0, ino)
    ensures ino in vol.g.lays && |vol.g.lays[ino].blks| == K
  {
    hide Core, CoreExcept, Kept, OnlyLay, Tied, Written, Owns, DoubleTables, PtrsAre, Shaped, Within, Tables;
    ImageFits(n0, n1, vol.g.lays[ino], |data|);
    Resized(v0, g0, vol.v, vol.g, ino, n0, n1, data, BlocksFor(|data|), K, |data|);
    var n := n1.(size := |data|);
    LayKept(v0, g0, vol.v, vol.g, ino, n, data);
    FinishInode(vol.v, vol.g, ino, n, data);
    CommitInode(vol.v, vol.g, ino, n, File(data));
    TightSize(vol.g.lays[ino]);
    vol.WriteInode(ino, n);
    vol.g := vol.g.(nodes := vol.g.nodes[ino := File(data)]);
  }

  /** Rewrite a file from offset 0.  It succeeds exactly when the inode is a file and
      the blocks it lacks are free; then the file holds `data`, whether it grew or
      shrank, and every other inode and block is as it was. */
  method WriteFile(vol: Volume, ino: nat, data: seq<Byte>) returns (ok: bool)
    requires Good(vol) && ino in vol.g.nodes
    modifies vol`disk, vol`v, vol`g
    ensures ok <==> old(vol.g.nodes[ino].File?) && BlocksFor(|data|) <= MAX_FILE_BLOCKS
                    && Need(|old(vol.g).lays[ino].blks|, |data|) <= old(FreeBlocks(vol.v))
    ensures ok ==>
      && Good(vol)
      && vol.g == old(vol.g).(owner := vol.g.owner, lays := vol.g.lays, nodes := old(vol.g).nodes[ino := File(data)])
      && Kept(old(vol.v), old(vol.g), vol.v, vol.g, ino)
      && FreeBlocks(vol.v) == old(FreeBlocks(vol.v)) - Need(|old(vol.g).lays[ino].blks|, |data|)
      && ino in vol.g.lays && |vol.g.lays[ino].blks| == Max(|old(vol.g).lays[ino].blks|, BlocksFor(|data|))
  {
    hide Core, CoreExcept, Kept, OnlyLay, Tied, Written, Owns, DoubleTables, PtrsAre, Shaped, Within, Names, Tables;
    InodeKind(vol.v, vol.g, ino);
    var n0 := vol.ReadInode(ino);
    if n0.flags != F_FILE { return false; }
    ghost var v0, g0 := vol.v, vol.g;
    ghost var K := Max(|g0.lays[ino].blks|, BlocksFor(|data|));
    StartFlight(v0, g0, ino, data);
    TightSize(g0.lays[ino]);
    var n;
    ok, n := WriteBlocks(vol, ino, n0, data, v0, g0, K);
    if !ok { return; }
    Seal(vol, ino, n0, n, data, v0, g0, K);
    NamesFile(g0, vol.g, ino, data);
  }
}
