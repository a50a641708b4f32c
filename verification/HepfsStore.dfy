/** Block I/O, bitmaps and the inode table of HepFS, on a disk of raw 4 KiB
    blocks.  The ghost view `v` is what the bytes of the disk mean: two bitmaps,
    the inode table and the data region.  Every routine here is stated as a change of the
    view; `Valid` ties the view to the bytes. */
module HepfsStore {
  import opened HepfsLayout
  import opened HepfsTypes

  datatype Bitmap = InodeMap | BlockMap {
    function Start(): nat { if InodeMap? then INODE_BM_BLOCK else BLOCK_BM_BLOCK }
    function Len(): nat { if InodeMap? then 1 else BLOCK_BM_LEN }
  }

  datatype View = View(ibits: seq<bool>, bbits: seq<bool>, inodes: seq<Inode>, data: seq<Block>) {
    ghost function Bits(m: Bitmap): seq<bool> { if m.InodeMap? then ibits else bbits }

    ghost function WithBit(m: Bitmap, i: nat, on: bool): View
      requires i < |Bits(m)|
    {
      if m.InodeMap? then this.(ibits := ibits[i := on]) else this.(bbits := bbits[i := on])
    }

    ghost predicate Sized() {
      && |ibits| == BITS_PER_BLOCK
      && |bbits| == BLOCK_BM_LEN * BITS_PER_BLOCK
      && |inodes| == MAX_INODES
      && |data| > DATA_START
    }
  }

  ghost predicate BitOnDisk(disk: seq<Block>, m: Bitmap, i: nat)
    requires |disk| > DATA_START && i < m.Len() * BITS_PER_BLOCK
  {
    BitAt(disk[m.Start() + i / BITS_PER_BLOCK], i % BITS_PER_BLOCK)
  }

  ghost function InodeOnDisk(disk: seq<Block>, i: nat): Inode
    requires |disk| > DATA_START && i < MAX_INODES
  {
    InodeAt(disk[INODE_TBL_BLOCK + i / INODES_PER_BLOCK], i % INODES_PER_BLOCK)
  }

  ghost predicate BitsTied(disk: seq<Block>, v: View, m: Bitmap)
    requires |disk| > DATA_START
  {
    && |v.Bits(m)| == m.Len() * BITS_PER_BLOCK
    && forall i {:trigger BitOnDisk(disk, m, i)} :: 0 <= i < m.Len() * BITS_PER_BLOCK ==>
         v.Bits(m)[i] == BitOnDisk(disk, m, i)
  }

  ghost predicate InodesTied(disk: seq<Block>, v: View)
    requires |disk| > DATA_START
  {
    && |v.inodes| == MAX_INODES
    && forall i {:trigger InodeOnDisk(disk, i)} :: 0 <= i < MAX_INODES ==> v.inodes[i] == InodeOnDisk(disk, i)
  }

  ghost predicate DataTied(disk: seq<Block>, v: View) {
    && |v.data| == |disk|
    && forall b {:trigger disk[b]} :: DATA_START <= b < |disk| ==> v.data[b] == disk[b]
  }

  ghost predicate Tied(disk: seq<Block>, v: View) {
    && |disk| > DATA_START
    && BitsTied(disk, v, InodeMap) && BitsTied(disk, v, BlockMap)
    && InodesTied(disk, v)
    && DataTied(disk, v)
  }

  lemma BitsSized(disk: seq<Block>, v: View, m: Bitmap)
    requires Tied(disk, v)
    ensures |v.Bits(m)| == m.Len() * BITS_PER_BLOCK
  {
  }

  lemma BitsFrame(disk: seq<Block>, v: View, m: Bitmap, b: nat, blk: Block)
    requires |disk| > DATA_START && b < |disk| && BitsTied(disk, v, m)
    requires b < m.Start() || m.Start() + m.Len() <= b
    ensures BitsTied(disk[b := blk], v, m)
  {
    var d := disk[b := blk];
    forall i {:trigger BitOnDisk(d, m, i)} | 0 <= i < m.Len() * BITS_PER_BLOCK
      ensures v.Bits(m)[i] == BitOnDisk(d, m, i)
    {
      assert BitOnDisk(disk, m, i) == BitOnDisk(d, m, i);
    }
  }

  lemma InodesFrame(disk: seq<Block>, v: View, b: nat, blk: Block)
    requires |disk| > DATA_START && b < |disk| && InodesTied(disk, v)
    requires b < INODE_TBL_BLOCK || DATA_START <= b
    ensures InodesTied(disk[b := blk], v)
  {
    var d := disk[b := blk];
    forall i {:trigger InodeOnDisk(d, i)} | 0 <= i < MAX_INODES ensures v.inodes[i] == InodeOnDisk(d, i) {
      assert InodeOnDisk(disk, i) == InodeOnDisk(d, i);
    }
  }

  /** Rewriting one bit of a bitmap block changes that bit of the view and nothing else. */
  lemma BitTied(disk: seq<Block>, v: View, m: Bitmap, idx: nat, on: bool)
    requires Tied(disk, v) && idx < m.Len() * BITS_PER_BLOCK
    ensures var b := m.Start() + idx / BITS_PER_BLOCK;
            Tied(disk[b := SetBitAt(disk[b], idx % BITS_PER_BLOCK, on)], v.WithBit(m, idx, on))
  {
    var b := m.Start() + idx / BITS_PER_BLOCK;
    var d := disk[b := SetBitAt(disk[b], idx % BITS_PER_BLOCK, on)];
    var w := v.WithBit(m, idx, on);
    var o := if m.InodeMap? then BlockMap else InodeMap;
    BitsFrame(disk, v, o, b, d[b]);
    InodesFrame(disk, v, b, d[b]);
    forall i {:trigger BitOnDisk(d, m, i)} | 0 <= i < m.Len() * BITS_PER_BLOCK
      ensures w.Bits(m)[i] == BitOnDisk(d, m, i)
    {
      assert BitOnDisk(disk, m, i) == v.Bits(m)[i];
      if i / BITS_PER_BLOCK == idx / BITS_PER_BLOCK && i != idx {
        assert i % BITS_PER_BLOCK != idx % BITS_PER_BLOCK;
      }
    }
    assert BitsTied(d, w, m);
    assert w.Bits(o) == v.Bits(o);
    forall i {:trigger BitOnDisk(d, o, i)} | 0 <= i < o.Len() * BITS_PER_BLOCK
      ensures w.Bits(o)[i] == BitOnDisk(d, o, i)
    {
    }
  }

  lemma InodeTied(disk: seq<Block>, v: View, ino: nat, n: Inode)
    requires Tied(disk, v) && ino < MAX_INODES && n.Fits()
    ensures var b := INODE_TBL_BLOCK + ino / INODES_PER_BLOCK;
            Tied(disk[b := SetInode(disk[b], ino % INODES_PER_BLOCK, n)], v.(inodes := v.inodes[ino := n]))
  {
    hide SetInode, InodeAt, BitOnDisk;
    var b := INODE_TBL_BLOCK + ino / INODES_PER_BLOCK;
    var d := disk[b := SetInode(disk[b], ino % INODES_PER_BLOCK, n)];
    var w := v.(inodes := v.inodes[ino := n]);
    BitsFrame(disk, v, InodeMap, b, d[b]);
    BitsFrame(disk, v, BlockMap, b, d[b]);
    forall i {:trigger InodeOnDisk(d, i)} | 0 <= i < MAX_INODES ensures w.inodes[i] == InodeOnDisk(d, i) {
      assert InodeOnDisk(disk, i) == v.inodes[i];
      if i == ino {
        SetInodeReadsBack(disk[b], ino % INODES_PER_BLOCK, n);
      } else if i / INODES_PER_BLOCK == ino / INODES_PER_BLOCK {
        SetInodeFrame(disk[b], ino % INODES_PER_BLOCK, n, i % INODES_PER_BLOCK);
      }
    }
    assert w.Bits(InodeMap) == v.Bits(InodeMap) && w.Bits(BlockMap) == v.Bits(BlockMap);
    assert BitsTied(d, w, InodeMap) && BitsTied(d, w, BlockMap);
  }

  lemma DataBlockTied(disk: seq<Block>, v: View, b: nat, blk: Block)
    requires Tied(disk, v) && DATA_START <= b < |disk|
    ensures Tied(disk[b := blk], v.(data := v.data[b := blk]))
  {
    var d, w := disk[b := blk], v.(data := v.data[b := blk]);
    BitsFrame(disk, v, InodeMap, b, blk);
    BitsFrame(disk, v, BlockMap, b, blk);
    InodesFrame(disk, v, b, blk);
    assert BitsTied(d, w, InodeMap) && BitsTied(d, w, BlockMap) && InodesTied(d, w);
  }

  /** What the bytes of any disk mean, valid HepFS or not. */
  ghost function Meaning(disk: seq<Block>): (v: View)
    requires |disk| > DATA_START
    ensures Tied(disk, v)
  {
    View(seq(BITS_PER_BLOCK, i requires 0 <= i < BITS_PER_BLOCK => BitOnDisk(disk, InodeMap, i)),
         seq(BLOCK_BM_LEN * BITS_PER_BLOCK,
           i requires 0 <= i < BLOCK_BM_LEN * BITS_PER_BLOCK => BitOnDisk(disk, BlockMap, i)),
         seq(MAX_INODES, i requires 0 <= i < MAX_INODES => InodeOnDisk(disk, i)),
         disk)
  }

  lemma ClearedBits(d: seq<Block>, v: View, disk: seq<Block>) returns (w: View)
    requires Tied(d, v) && |disk| == |d|
    requires forall b :: 0 <= b < |disk| ==>
               disk[b] == if INODE_BM_BLOCK <= b < INODE_TBL_BLOCK then ZeroBlock() else d[b]
    ensures Tied(disk, w) && w == v.(ibits := w.ibits, bbits := w.bbits)
    ensures forall i :: 0 <= i < |w.ibits| ==> !w.ibits[i]
    ensures forall i :: 0 <= i < |w.bbits| ==> !w.bbits[i]
  {
    w := v.(ibits := seq(BITS_PER_BLOCK, _ => false), bbits := seq(BLOCK_BM_LEN * BITS_PER_BLOCK, _ => false));
    ZeroBlockBits();
    forall i {:trigger InodeOnDisk(disk, i)} | 0 <= i < MAX_INODES ensures w.inodes[i] == InodeOnDisk(disk, i) {
      assert InodeOnDisk(d, i) == v.inodes[i];
    }
  }

  lemma ClearedInodes(d: seq<Block>, v: View, disk: seq<Block>) returns (w: View)
    requires Tied(d, v) && |disk| == |d|
    requires forall b :: 0 <= b < |disk| ==> disk[b] == if INODE_TBL_BLOCK <= b < DATA_START then ZeroBlock() else d[b]
    ensures Tied(disk, w) && w == v.(inodes := w.inodes)
  {
    w := v.(inodes := seq(MAX_INODES, i requires 0 <= i < MAX_INODES => InodeOnDisk(disk, i)));
    forall m: Bitmap, i: nat {:trigger BitOnDisk(disk, m, i)} | i < m.Len() * BITS_PER_BLOCK
      ensures w.Bits(m)[i] == BitOnDisk(disk, m, i)
    {
      assert BitOnDisk(d, m, i) == v.Bits(m)[i];
    }
  }

  /** The first clear bit at or above `skip`, if any. */
  ghost predicate FirstClear(bits: seq<bool>, skip: nat, r: Option<nat>) {
    match r
    case None => forall j :: skip <= j < |bits| ==> bits[j]
    case Some(i) => skip <= i < |bits| && !bits[i] && forall j :: skip <= j < i ==> bits[j]
  }

  class Volume {
    var disk: seq<Block>
    var generation: nat
    ghost var v: View
    ghost var g: State

    ghost predicate Valid()
      reads this`disk, this`v
    {
      Tied(disk, v)
    }

    constructor (contents: seq<Block>)
      requires |contents| > DATA_START
      ensures Valid() && disk == contents
    {
      disk := contents;
      generation := 0;
      v := Meaning(contents);
      g := State(map[], map[], map[], map[], map[]);
    }

    method BitmapAlloc(m: Bitmap, skip: nat) returns (r: Option<nat>)
      requires Valid()
      modifies this`disk, this`v
      ensures Valid()
      ensures FirstClear(old(v).Bits(m), skip, r)
      ensures v == if r.Some? then old(v).WithBit(m, r.value, true) else old(v)
    {
      hide Tied;
      BitsSized(disk, v, m);
      ghost var bits := v.Bits(m);
      var bi := 0;
      while bi < m.Len()
        invariant 0 <= bi <= m.Len()
        invariant v == old(v) && disk == old(disk)
        invariant forall j :: skip <= j < bi * BITS_PER_BLOCK ==> bits[j]
      {
        var byte := 0;
        while byte < BLOCK_SIZE
          invariant 0 <= byte <= BLOCK_SIZE
          invariant v == old(v) && disk == old(disk)
          invariant forall j :: skip <= j < bi * BITS_PER_BLOCK + byte * 8 ==> bits[j]
        {
          r := ClearBitOfByte(m, bi, byte, skip);
          if r.Some? {
            ClaimBit(m, bi, r.value);
            return;
          }
          byte := byte + 1;
        }
        bi := bi + 1;
      }
      r := None;
    }

    /** Write bitmap block `bi` back with bit `idx` set. */
    method ClaimBit(m: Bitmap, bi: nat, idx: nat)
      requires Valid() && idx < m.Len() * BITS_PER_BLOCK && idx / BITS_PER_BLOCK == bi
      modifies this`disk, this`v
      ensures Valid() && v == old(v).WithBit(m, idx, true)
    {
      BitTied(disk, v, m, idx, true);
      var at := m.Start() + bi;
      disk := disk[at := SetBitAt(disk[at], idx % BITS_PER_BLOCK, true)];
      v := v.WithBit(m, idx, true);
    }

    /** The innermost scan: an all-ones byte is skipped without looking at its bits. */
    method ClearBitOfByte(m: Bitmap, bi: nat, byte: nat, skip: nat) returns (r: Option<nat>)
      requires Valid() && bi < m.Len() && byte < BLOCK_SIZE
      ensures var lo, bits := bi * BITS_PER_BLOCK + byte * 8, v.Bits(m);
              match r
              case None => forall j :: lo <= j < lo + 8 && skip <= j ==> bits[j]
              case Some(i) =>
                skip <= i && lo <= i < lo + 8 && !bits[i] && forall j :: lo <= j < i && skip <= j ==> bits[j]
    {
      var buf := disk[m.Start() + bi];
      var lo := bi * BITS_PER_BLOCK + byte * 8;
      ghost var bits := v.Bits(m);
      forall k | 0 <= k < 8 ensures bits[lo + k] == BitOf(buf[byte], k) {
        BitIndex(bi, byte, k);
        assert BitOnDisk(disk, m, lo + k) == bits[lo + k];
      }
      if buf[byte] == 0xFF {
        forall j | lo <= j < lo + 8 ensures bits[j] {
          assert Pow2(8) == 256;
          FullWord(8, j - lo);
          assert bits[lo + (j - lo)];
        }
        return None;
      }
      var bit := 0;
      while bit < 8
        invariant 0 <= bit <= 8
        invariant forall j :: lo <= j < lo + bit && skip <= j ==> bits[j]
      {
        assert bits[lo + bit] == BitOf(buf[byte], bit);
        if !BitOf(buf[byte], bit) && lo + bit >= skip {
          return Some(lo + bit);
        }
        bit := bit + 1;
      }
      r := None;
    }

    method BitmapSet(m: Bitmap, idx: nat, used: bool)
      requires Valid() && idx < m.Len() * BITS_PER_BLOCK
      modifies this`disk, this`v
      ensures Valid() && v == old(v).WithBit(m, idx, used)
    {
      BitTied(disk, v, m, idx, used);
      var b := m.Start() + idx / BITS_PER_BLOCK;
      disk := disk[b := SetBitAt(disk[b], idx % BITS_PER_BLOCK, used)];
      v := v.WithBit(m, idx, used);
    }

    /** Zero the inode bitmap and the block bitmap. */
    method ClearBitmaps()
      requires Valid()
      modifies this`disk, this`v
      ensures Valid() && v == old(v).(ibits := v.ibits, bbits := v.bbits)
      ensures forall i :: 0 <= i < |v.ibits| ==> !v.ibits[i]
      ensures forall i :: 0 <= i < |v.bbits| ==> !v.bbits[i]
    {
      ghost var d := disk;
      var i := 0;
      while i < BLOCK_BM_LEN + 1
        invariant 0 <= i <= BLOCK_BM_LEN + 1 && |disk| == |d| && v == old(v)
        invariant forall b :: 0 <= b < |disk| ==>
                    disk[b] == if INODE_BM_BLOCK <= b < INODE_BM_BLOCK + i then ZeroBlock() else d[b]
      {
        disk := disk[INODE_BM_BLOCK + i := ZeroBlock()];
        i := i + 1;
      }
      v := ClearedBits(d, v, disk);
    }

    /** Zero the inode table. */
    method ClearInodeTable()
      requires Valid()
      modifies this`disk, this`v
      ensures Valid() && v == old(v).(inodes := v.inodes)
    {
      ghost var d := disk;
      var i := 0;
      while i < INODE_TBL_LEN
        invariant 0 <= i <= INODE_TBL_LEN && |disk| == |d| && v == old(v)
        invariant forall b :: 0 <= b < |disk| ==>
                    disk[b] == if INODE_TBL_BLOCK <= b < INODE_TBL_BLOCK + i then ZeroBlock() else d[b]
      {
        disk := disk[INODE_TBL_BLOCK + i := ZeroBlock()];
        i := i + 1;
      }
      v := ClearedInodes(d, v, disk);
    }

    method ReadInode(ino: nat) returns (n: Inode)
      requires Valid() && ino < MAX_INODES
      ensures n == v.inodes[ino] && n.Fits()
    {
      assert v.inodes[ino] == InodeOnDisk(disk, ino);
      n := InodeAt(disk[INODE_TBL_BLOCK + ino / INODES_PER_BLOCK], ino % INODES_PER_BLOCK);
    }

    method WriteInode(ino: nat, n: Inode)
      requires Valid() && ino < MAX_INODES && n.Fits()
      modifies this`disk, this`v
      ensures Valid() && v == old(v).(inodes := old(v).inodes[ino := n])
    {
      InodeTied(disk, v, ino, n);
      var b := INODE_TBL_BLOCK + ino / INODES_PER_BLOCK;
      disk := disk[b := SetInode(disk[b], ino % INODES_PER_BLOCK, n)];
      v := v.(inodes := v.inodes[ino := n]);
    }

    method ReadBlock(b: nat) returns (blk: Block)
      requires Valid() && DATA_START <= b < |v.data|
      ensures blk == v.data[b]
    {
      blk := disk[b];
    }

    method WriteBlock(b: nat, blk: Block)
      requires Valid() && DATA_START <= b < |v.data|
      modifies this`disk, this`v
      ensures Valid() && v == old(v).(data := old(v).data[b := blk])
    {
      DataBlockTied(disk, v, b, blk);
      disk := disk[b := blk];
      v := v.(data := v.data[b := blk]);
    }

    /** Claim the lowest free data block and zero it.  `None` is the panic: no
        free bit, or a free bit for a block past the end of the disk. */
    method AllocBlock() returns (r: Option<nat>)
      requires Valid()
      modifies this`disk, this`v
      ensures Valid()
      ensures r.Some? ==>
        && FirstClear(old(v).bbits, DATA_START, r) && r.value < |old(v).data| && r.value < U32
        && v == old(v).(bbits := old(v).bbits[r.value := true], data := old(v).data[r.value := ZeroBlock()])
      ensures r.None? ==> forall b :: DATA_START <= b < |old(v).bbits| && b < |old(v).data| ==> old(v).bbits[b]
    {
      r := BitmapAlloc(BlockMap, DATA_START);
      if r.Some? {
        if r.value >= |disk| { return None; }
        WriteBlock(r.value, ZeroBlock());
      }
    }

    /** Claim the lowest free inode number.  `None` is the panic. */
    method AllocInode() returns (r: Option<nat>)
      requires Valid()
      modifies this`disk, this`v
      ensures Valid()
      ensures r.Some? ==> FirstClear(old(v).ibits, 0, r) && r.value < MAX_INODES
                          && v == old(v).(ibits := old(v).ibits[r.value := true])
      ensures r.None? ==> forall i :: 0 <= i < MAX_INODES ==> old(v).ibits[i]
    {
      r := BitmapAlloc(InodeMap, 0);
      if r.Some? && r.value >= MAX_INODES { return None; }
    }
  }

  lemma BitIndex(bi: nat, byte: nat, k: nat)
    requires byte < BLOCK_SIZE && k < 8
    ensures var i := bi * BITS_PER_BLOCK + byte * 8 + k;
      i / BITS_PER_BLOCK == bi && i % BITS_PER_BLOCK == byte * 8 + k && (byte * 8 + k) / 8 == byte
        && (byte * 8 + k) % 8 == k
  {
  }
}
