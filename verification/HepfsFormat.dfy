/** A fresh volume: whatever the disk held, after formatting it is a valid HepFS
    whose only inode is an empty root directory. */
module HepfsFormat {
  import opened HepfsLayout
  import opened HepfsTypes
  import opened HepfsStore
  import opened HepfsState
  import opened BitCount
  import opened HepfsNames
  import opened HepfsFile
  import opened HepfsDir
  import opened HepfsCreate

  /** Metadata cleared, system blocks marked, and the root inode taken but not yet filled in. */
  ghost function Bare(): State {
    State(map[], map[ROOT := EMPTY_LAY], map[ROOT := File([])], map[], map[ROOT := 0])
  }

  lemma BareCore(v: View)
    requires v.Sized()
    requires forall b :: 0 <= b < |v.bbits| ==> (v.bbits[b] <==> b < DATA_START)
    requires forall i :: 0 <= i < |v.ibits| ==> (v.ibits[i] <==> i == ROOT)
    ensures CoreExcept(v, Bare(), ROOT) && Owns(Bare().owner, ROOT, EMPTY_LAY)
  {
  }

  lemma RootNames(g: State, slots: seq<Slot>)
    requires g.nodes == map[ROOT := Dir(slots)] && g.place == map[] && g.rank == map[ROOT := 0]
    requires forall j :: 0 <= j < |slots| ==> slots[j].ino == 0
    ensures Names(g)
  {
  }

  lemma FirstFree(bits: seq<bool>, lo: nat, hi: nat)
    requires lo < hi <= |bits| && !bits[lo]
    ensures Clear(bits, lo, hi) > 0
  {
    ClearSome(bits, lo, hi, lo);
  }

  method Format(vol: Volume)
    requires vol.Valid()
    modifies vol
    ensures Good(vol) && vol.generation == old(vol.generation) && |vol.disk| == old(|vol.disk|)
    ensures vol.g.nodes == map[ROOT := Dir(EmptySlots(SLOTS_PER_BLOCK))]
    ensures vol.g.owner.Keys == {DATA_START} && vol.g.owner[DATA_START] == Own(ROOT, Data(0))
  {
    hide Tied, Core, CoreExcept, Names, Owns, InodeOk;
    SizedDisk(vol.disk, vol.v);
    ghost var size := |vol.v.data|;
    vol.ClearBitmaps();
    SizedDisk(vol.disk, vol.v);
    var b := 0;
    while b < DATA_START
      invariant 0 <= b <= DATA_START && vol.Valid() && vol.v.Sized() && |vol.v.data| == size
      invariant vol.generation == old(vol.generation)
      invariant forall i :: 0 <= i < |vol.v.bbits| ==> (vol.v.bbits[i] <==> i < b)
      invariant forall i :: 0 <= i < |vol.v.ibits| ==> !vol.v.ibits[i]
    {
      vol.BitmapSet(BlockMap, b, true);
      SizedDisk(vol.disk, vol.v);
      b := b + 1;
    }
    vol.BitmapSet(InodeMap, ROOT, true);
    vol.ClearInodeTable();
    SizedDisk(vol.disk, vol.v);
    vol.g := Bare();
    BareCore(vol.v);
    FirstFree(vol.v.bbits, DATA_START, Min(|vol.v.bbits|, |vol.v.data|));
    ghost var bits := vol.v.bbits;
    var root := AllocFor(vol, ROOT, Data(0));
    var n := DEFAULT_INODE.(flags := F_DIR, nblocks := 1, direct := NO_PTRS[0 := root.value]);
    assert [] + [root.value] == [root.value];
    EmptyDirOk(vol.v, vol.g.owner, ROOT, root.value, n);
    CommitInode(vol.v, vol.g, ROOT, n, Dir(EmptySlots(SLOTS_PER_BLOCK)));
    vol.WriteInode(ROOT, n);
    vol.g := vol.g.(nodes := vol.g.nodes[ROOT := Dir(EmptySlots(SLOTS_PER_BLOCK))]);
    assert vol.g.nodes == map[ROOT := Dir(EmptySlots(SLOTS_PER_BLOCK))];
    RootNames(vol.g, EmptySlots(SLOTS_PER_BLOCK));
    // clear the root directory's block (again: it was zeroed when allocated)
    assert vol.v.data[root.value := ZeroBlock()] == vol.v.data;
    assert vol.v.(data := vol.v.data[root.value := ZeroBlock()]) == vol.v;
    vol.WriteBlock(root.value, ZeroBlock());
    SizedDisk(vol.disk, vol.v);
    assert root.value == DATA_START;
  }

  lemma SizedDisk(disk: seq<Block>, v: View)
    requires Tied(disk, v)
    ensures v.Sized() && |v.data| == |disk|
  {
  }
}
