/** Reading a file back.  The loops stop at the first zero pointer, which is sound
    because the pointers of every table are a nonzero prefix. */
module HepfsRead {
  import opened HepfsLayout
  import opened HepfsTypes
  import opened HepfsStore
  import opened HepfsState
  import opened HepfsNames

  /** `out` is what has been read after `i` blocks. */
  ghost predicate ReadSoFar(bytes: seq<Byte>, out: seq<Byte>, left: nat, i: nat) {
    && |out| == Min(|bytes|, BLOCK_SIZE * i) && out == bytes[..|out|]
    && left == |bytes| - |out|
  }

  lemma ReadStep(data: seq<Block>, blks: seq<nat>, bytes: seq<Byte>, out: seq<Byte>, left: nat, i: nat)
    requires Written(data, blks, bytes, BlocksFor(|bytes|)) && ReadSoFar(bytes, out, left, i) && left > 0
    ensures i < |blks| && blks[i] < |data|
    ensures var chunk := Min(left, BLOCK_SIZE); ReadSoFar(bytes, out + data[blks[i]][..chunk], left - chunk, i + 1)
  {
    assert i < BlocksFor(|bytes|);
    var p := Piece(bytes, i);
    assert p <= data[blks[i]];
    assert bytes[..BLOCK_SIZE * i] + p == bytes[..BLOCK_SIZE * i + |p|];
  }

  ghost predicate Readable(v: View, g: State, ino: nat, bytes: seq<Byte>) {
    && Core(v, g) && ino in g.lays && ino < |v.inodes|
    && var lay := g.lays[ino];
    && Shaped(lay) && Direct(v.inodes[ino], lay) && Tables(v.data, lay)
    && Written(v.data, lay.blks, bytes, BlocksFor(|bytes|))
  }

  lemma FileReadable(v: View, g: State, ino: nat)
    requires Core(v, g) && ino in g.nodes
    ensures ino < MAX_INODES && ino < |v.inodes|
    ensures v.inodes[ino].flags == if g.nodes[ino].File? then F_FILE else F_DIR
    ensures g.nodes[ino].File? ==> Readable(v, g, ino, g.nodes[ino].bytes) && v.inodes[ino].size == |g.nodes[ino].bytes|
  {
    assert InodeOk(v, g.owner, ino, g.lays[ino], g.nodes[ino]);
  }

  /** Block `i` of the file and every table on the way to it are data blocks of the disk. */
  lemma OwnedBlocks(v: View, g: State, ino: nat)
    requires Core(v, g) && ino in g.lays
    ensures var lay := g.lays[ino];
      && (forall i :: 0 <= i < |lay.blks| ==> DATA_START <= lay.blks[i] < |v.data|)
      && (lay.ind != 0 ==> DATA_START <= lay.ind < |v.data|)
      && (lay.dind != 0 ==> DATA_START <= lay.dind < |v.data|)
      && (forall j :: 0 <= j < |lay.l1| ==> DATA_START <= lay.l1[j] < |v.data|)
  {
    var lay := g.lays[ino];
    assert InodeOk(v, g.owner, ino, lay, g.nodes[ino]);
    forall i | 0 <= i < |lay.blks| ensures DATA_START <= lay.blks[i] < |v.data| {
      assert OwnedAs(g.owner, lay.blks[i], ino, Data(i));
    }
    forall j | 0 <= j < |lay.l1| ensures DATA_START <= lay.l1[j] < |v.data| {
      assert OwnedAs(g.owner, lay.l1[j], ino, Level1(j));
    }
  }

  method ReadDirect(vol: Volume, ghost ino: nat, n: Inode, ghost bytes: seq<Byte>) returns (out: seq<Byte>, left: nat)
    requires vol.Valid() && Readable(vol.v, vol.g, ino, bytes) && n == vol.v.inodes[ino] && n.size == |bytes|
    ensures ReadSoFar(bytes, out, left, DIRECT_PTRS)
  {
    hide Core, Tied, Tables, Written;
    OwnedBlocks(vol.v, vol.g, ino);
    out, left := [], n.size;
    var i := 0;
    while i < DIRECT_PTRS
      invariant 0 <= i <= DIRECT_PTRS && ReadSoFar(bytes, out, left, i)
    {
      var blk := n.direct[i];
      if blk != 0 {
        if left == 0 { return; }
        ReadStep(vol.v.data, vol.g.lays[ino].blks, bytes, out, left, i);
        var page := vol.ReadBlock(blk);
        var chunk := Min(left, BLOCK_SIZE);
        out := out + page[..chunk];
        left := left - chunk;
      } else if left > 0 {
        ReadStep(vol.v.data, vol.g.lays[ino].blks, bytes, out, left, i);
        assert false;
      }
      i := i + 1;
    }
  }

  /** One table of pointers, starting at block `lo` of the file. */
  method ReadTable(vol: Volume, ghost ino: nat, table: Block, ghost lo: nat, ghost bytes: seq<Byte>, out0: seq<Byte>,
                   left0: nat)
    returns (out: seq<Byte>, left: nat)
    requires vol.Valid() && Readable(vol.v, vol.g, ino, bytes)
    requires PtrsAre(table, vol.g.lays[ino].blks, lo) && ReadSoFar(bytes, out0, left0, lo)
    ensures ReadSoFar(bytes, out, left, lo + PTRS_PER_BLOCK)
  {
    hide Core, Tied, Tables, Written;
    OwnedBlocks(vol.v, vol.g, ino);
    out, left := out0, left0;
    var i := 0;
    while i < PTRS_PER_BLOCK
      invariant 0 <= i <= PTRS_PER_BLOCK && ReadSoFar(bytes, out, left, lo + i)
    {
      if left == 0 { return; }
      ReadStep(vol.v.data, vol.g.lays[ino].blks, bytes, out, left, lo + i);
      var blk := PtrAt(table, i);
      assert blk == vol.g.lays[ino].blks[lo + i];
      if blk == 0 { assert false; return; }
      var page := vol.ReadBlock(blk);
      var chunk := Min(left, BLOCK_SIZE);
      out := out + page[..chunk];
      left := left - chunk;
      i := i + 1;
    }
  }

  method ReadDouble(vol: Volume, ghost ino: nat, dind: Block, ghost bytes: seq<Byte>, out0: seq<Byte>, left0: nat)
    returns (out: seq<Byte>, left: nat)
    requires vol.Valid() && Readable(vol.v, vol.g, ino, bytes)
    requires PtrsAre(dind, vol.g.lays[ino].l1, 0) && ReadSoFar(bytes, out0, left0, SINGLE_END)
    ensures left == 0 && out == bytes
  {
    hide Core, Tied, Written;
    OwnedBlocks(vol.v, vol.g, ino);
    out, left := out0, left0;
    ghost var lay := vol.g.lays[ino];
    var j := 0;
    while j < PTRS_PER_BLOCK
      invariant 0 <= j <= PTRS_PER_BLOCK && ReadSoFar(bytes, out, left, SINGLE_END + 1024 * j)
    {
      if left == 0 { return; }
      ReadStep(vol.v.data, lay.blks, bytes, out, left, SINGLE_END + 1024 * j);
      var l1 := PtrAt(dind, j);
      assert j < |lay.l1| && l1 == lay.l1[j];
      if l1 == 0 { assert false; return; }
      var page := vol.ReadBlock(l1);
      out, left := ReadTable(vol, ino, page, SINGLE_END + 1024 * j, bytes, out, left);
      j := j + 1;
    }
    if left > 0 { ReadStep(vol.v.data, lay.blks, bytes, out, left, SINGLE_END + 1024 * j); assert false; }
  }

  /** Read a whole file: the bytes last written to it.  `None` is the panic on a directory. */
  method ReadFile(vol: Volume, ino: nat) returns (r: Option<seq<Byte>>)
    requires Good(vol) && ino in vol.g.nodes
    ensures r == if vol.g.nodes[ino].File? then Some(vol.g.nodes[ino].bytes) else None
  {
    hide Core, Tied, Written, PtrsAre;
    FileReadable(vol.v, vol.g, ino);
    var n := vol.ReadInode(ino);
    if n.flags != F_FILE { return None; }
    ghost var bytes := vol.g.nodes[ino].bytes;
    OwnedBlocks(vol.v, vol.g, ino);
    var out, left := ReadDirect(vol, ino, n, bytes);
    if left > 0 {
      ReadStep(vol.v.data, vol.g.lays[ino].blks, bytes, out, left, DIRECT_PTRS);
    }
    if left > 0 && n.indirect != 0 {
      var page := vol.ReadBlock(n.indirect);
      out, left := ReadTable(vol, ino, page, DIRECT_PTRS, bytes, out, left);
      if left > 0 { ReadStep(vol.v.data, vol.g.lays[ino].blks, bytes, out, left, SINGLE_END); }
    }
    if left > 0 && n.dindirect != 0 {
      var page := vol.ReadBlock(n.dindirect);
      out, left := ReadDouble(vol, ino, page, bytes, out, left);
    }
    assert bytes[..|bytes|] == bytes;
    r := Some(out);
  }
}
