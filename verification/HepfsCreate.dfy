/** Creating files and directories. */
module HepfsCreate {
  import opened HepfsLayout
  import opened HepfsTypes
  import opened HepfsStore
  import opened HepfsState
  import opened BitCount
  import opened HepfsNames
  import opened HepfsFile
  import opened HepfsDir
  import opened HepfsTree

  /** Inodes outside `S` keep their table entry, their layout and the contents of their blocks. */
  ghost predicate Untouched(v: View, g: State, w: View, h: State, S: set<nat>) {
    && |w.data| == |v.data| && |w.inodes| == |v.inodes|
    && (forall i :: i in g.lays && i !in S ==>
         i in h.lays && h.lays[i] == g.lays[i] && (i < |v.inodes| ==> w.inodes[i] == v.inodes[i]))
    && (forall b :: b in g.owner && g.owner[b].ino !in S ==>
          b in h.owner && h.owner[b] == g.owner[b] && (b < |v.data| ==> w.data[b] == v.data[b]))
  }

  lemma UntouchedTrans(v0: View, g0: State, v1: View, g1: State, v2: View, g2: State, R: set<nat>, T: set<nat>,
                       S: set<nat>)
    requires Untouched(v0, g0, v1, g1, R) && Untouched(v1, g1, v2, g2, T)
    requires forall i :: (i in R || i in T) && i in g0.lays ==> i in S
    requires forall b :: b in g0.owner ==> g0.owner[b].ino in g0.lays
    ensures Untouched(v0, g0, v2, g2, S)
  {
  }

  /** The invariant and the frame do not mention the name-space part of the ghost state. */
  lemma RenamedState(v: View, g: State, w: View, h: State, h': State, S: set<nat>)
    requires Core(w, h) && Untouched(v, g, w, h, S)
    requires h' == h.(place := h'.place, rank := h'.rank)
    ensures Core(w, h') && Untouched(v, g, w, h', S)
  {
    hide InodeOk, BitsOk, OwnersOk;
  }

  lemma KeptUntouched(v: View, g: State, w: View, h: State, ino: nat)
    requires Kept(v, g, w, h, ino)
    ensures Untouched(v, g, w, h, {ino})
  {
  }

  lemma OwnersLive(v: View, g: State)
    requires Core(v, g)
    ensures forall b :: b in g.owner ==> g.owner[b].ino in g.lays
  {
  }

  /** The state once inode `ino` is taken, holding nothing yet. */
  ghost function Fresh(g: State, ino: nat): State {
    g.(lays := g.lays[ino := EMPTY_LAY], nodes := g.nodes[ino := File([])])
  }

  lemma FreshCore(v: View, g: State, ino: nat)
    requires Core(v, g) && ino < |v.ibits| && !v.ibits[ino] && ino < MAX_INODES
    ensures ino !in g.lays && CoreExcept(v.(ibits := v.ibits[ino := true]), Fresh(g, ino), ino)
    ensures Owns(g.owner, ino, EMPTY_LAY)
  {
    hide InodeOk;
    var w, h := v.(ibits := v.ibits[ino := true]), Fresh(g, ino);
    assert OwnersOk(w, h.owner, h.lays);
    forall i | i in h.lays && i != ino ensures InodeOk(w, h.owner, i, h.lays[i], h.nodes[i]) {
      InodeFrame(v, w, g.owner, h.owner, i, g.lays[i], g.nodes[i]);
    }
  }

  method NewInode(vol: Volume) returns (r: Option<nat>)
    requires vol.Valid() && Core(vol.v, vol.g)
    modifies vol`disk, vol`v, vol`g
    ensures r.Some? <==> old(FreeInodes(vol.v)) > 0
    ensures r.Some? ==> |vol.v.ibits| >= MAX_INODES && FreeInodes(vol.v) == old(FreeInodes(vol.v)) - 1
    ensures r.Some? ==>
      && vol.Valid() && r.value < MAX_INODES && r.value !in old(vol.g).lays && FirstClear(old(vol.v).ibits, 0, r)
      && vol.v == old(vol.v).(ibits := old(vol.v).ibits[r.value := true])
      && vol.g == Fresh(old(vol.g), r.value) && CoreExcept(vol.v, vol.g, r.value)
      && Owns(vol.g.owner, r.value, EMPTY_LAY)
  {
    hide Tied, CoreExcept, InodeOk, Owns;
    ghost var v, g := vol.v, vol.g;
    r := vol.AllocInode();
    if r.Some? {
      FreshCore(v, g, r.value);
      vol.g := Fresh(g, r.value);
      ClearSome(v.ibits, 0, MAX_INODES, r.value);
      ClearSet(v.ibits, 0, MAX_INODES, r.value);
    } else {
      ClearNone(v.ibits, 0, MAX_INODES);
    }
  }

  lemma EmptyFileOk(v: View, owner: map<nat, Own>, ino: nat, n: Inode)
    requires ino < |v.inodes| && |v.data| > 0 && Owns(owner, ino, EMPTY_LAY) && n == DEFAULT_INODE.(flags := F_FILE)
    ensures InodeOk(v.(inodes := v.inodes[ino := n]), owner, ino, EMPTY_LAY, File([]))
  {
    NoTables(v.data, EMPTY_LAY);
  }

  lemma EmptyDirOk(v: View, owner: map<nat, Own>, ino: nat, b: nat, n: Inode)
    requires ino < |v.inodes| && 0 < b < |v.data| && b < U32 && v.data[b] == ZeroBlock()
    requires Owns(owner, ino, Lay([b], 0, 0, []))
    requires n == DEFAULT_INODE.(flags := F_DIR, nblocks := 1, direct := NO_PTRS[0 := b])
    ensures InodeOk(v.(inodes := v.inodes[ino := n]), owner, ino, Lay([b], 0, 0, []), Dir(EmptySlots(SLOTS_PER_BLOCK)))
  {
    hide Tables, SlotsAre, Owns;
    NoTables(v.data, Lay([b], 0, 0, []));
    ZeroSlots([], 0);
    assert [] + EmptySlots(SLOTS_PER_BLOCK) == EmptySlots(SLOTS_PER_BLOCK);
  }

  /** A new inode with its empty node, not yet named. */
  method NewNode(vol: Volume, isDir: bool) returns (r: Option<nat>)
    requires vol.Valid() && Core(vol.v, vol.g)
    modifies vol`disk, vol`v, vol`g
    ensures r.Some? <==> old(FreeInodes(vol.v)) > 0 && (isDir ==> old(FreeBlocks(vol.v)) > 0)
    ensures r.Some? ==>
      && vol.Valid() && Core(vol.v, vol.g) && r.value < MAX_INODES && r.value !in old(vol.g).lays
      && FirstClear(old(vol.v).ibits, 0, r)
      && vol.g == old(vol.g).(owner := vol.g.owner, lays := vol.g.lays,
           nodes := old(vol.g).nodes[r.value := EmptyNode(isDir)])
      && vol.g.lays.Keys == old(vol.g).lays.Keys + {r.value}
      && Untouched(old(vol.v), old(vol.g), vol.v, vol.g, {})
      && (!isDir ==>
           vol.g.owner == old(vol.g).owner && vol.v.bbits == old(vol.v).bbits && vol.g.lays[r.value] == EMPTY_LAY)
      && FreeBlocks(vol.v) == old(FreeBlocks(vol.v)) - (if isDir then 1 else 0)
      && FreeInodes(vol.v) == old(FreeInodes(vol.v)) - 1
  {
    hide Tied, Core, CoreExcept, InodeOk, Owns, Untouched, FirstClear;
    ghost var v, g := vol.v, vol.g;
    SizedCore(v, g);
    OwnersLive(v, g);
    r := NewInode(vol);
    if r.None? { return; }
    var ino := r.value;
    ghost var v1, g1 := vol.v, vol.g;
    var ok, n := FirstBlock(vol, ino, isDir);
    if !ok { return None; }
    CommitInode(vol.v, vol.g, ino, n, EmptyNode(isDir));
    NewUntouched(v, g, v1, g1, vol.v, vol.g, ino, n, EmptyNode(isDir));
    vol.WriteInode(ino, n);
    vol.g := vol.g.(nodes := vol.g.nodes[ino := EmptyNode(isDir)]);
    assert g.nodes[ino := File([])][ino := EmptyNode(isDir)] == g.nodes[ino := EmptyNode(isDir)];
  }

  /** The inode image of an empty file, or of a directory with its first block. */
  method FirstBlock(vol: Volume, ino: nat, isDir: bool) returns (ok: bool, n: Inode)
    requires vol.Valid() && CoreExcept(vol.v, vol.g, ino) && vol.v.Sized() && ino < |vol.v.inodes| && |vol.v.data| > 0
    requires ino in vol.g.lays && vol.g.lays[ino] == EMPTY_LAY && Owns(vol.g.owner, ino, EMPTY_LAY)
    modifies vol`disk, vol`v, vol`g
    ensures ok <==> (isDir ==> old(FreeBlocks(vol.v)) > 0)
    ensures ok ==>
      && vol.Valid() && CoreExcept(vol.v, vol.g, ino) && n.Fits() && ino in vol.g.lays
      && vol.v == old(vol.v).(bbits := vol.v.bbits, data := vol.v.data)
      && InodeOk(vol.v.(inodes := vol.v.inodes[ino := n]), vol.g.owner, ino, vol.g.lays[ino], EmptyNode(isDir))
      && vol.g == old(vol.g).(owner := vol.g.owner, lays := old(vol.g).lays[ino := vol.g.lays[ino]])
      && Untouched(old(vol.v), old(vol.g), vol.v, vol.g, {ino})
      && (!isDir ==> vol.v == old(vol.v) && vol.g == old(vol.g))
      && FreeBlocks(vol.v) == old(FreeBlocks(vol.v)) - (if isDir then 1 else 0)
  {
    hide Tied, CoreExcept, InodeOk, Owns, FirstClear;
    n := DEFAULT_INODE.(flags := F_FILE);
    if !isDir {
      EmptyFileOk(vol.v, vol.g.owner, ino, n);
      return true, n;
    }
    var b := AllocFor(vol, ino, Data(0));
    if b.None? { return false, n; }
    n := DEFAULT_INODE.(flags := F_DIR, nblocks := 1, direct := NO_PTRS[0 := b.value]);
    assert [] + [b.value] == [b.value];
    EmptyDirOk(vol.v, vol.g.owner, ino, b.value, n);
    ok := true;
  }

  lemma NewUntouched(v: View, g: State, v1: View, g1: State, v2: View, g2: State, ino: nat, n: Inode, node: Node)
    requires v1 == v.(ibits := v1.ibits) && g1 == Fresh(g, ino) && Untouched(v1, g1, v2, g2, {ino})
    requires ino !in g.lays && ino < |v2.inodes| && forall b :: b in g.owner ==> g.owner[b].ino in g.lays
    ensures Untouched(v, g, v2.(inodes := v2.inodes[ino := n]), g2.(nodes := g2.nodes[ino := node]), {})
  {
  }

  ghost function EmptyNode(isDir: bool): Node {
    if isDir then Dir(EmptySlots(SLOTS_PER_BLOCK)) else File([])
  }

  lemma SizedCore(v: View, g: State)
    requires Core(v, g)
    ensures v.Sized()
  {
  }

  /** The abstract state after creating `node` as `name` under `parent`. */
  ghost function Created(g: State, parent: nat, name: Str, ino: nat, node: Node): State
    requires parent in g.nodes && g.nodes[parent].Dir? && parent in g.rank
  {
    var slots := g.nodes[parent].slots;
    g.(nodes := g.nodes[ino := node][parent := Dir(AddSlot(slots, Slot(ino, name)))],
       place := g.place[ino := Place(parent, First(slots, Holds(0), 0))],
       rank := g.rank[ino := g.rank[parent] + 1])
  }

  /** A second entry of a name already taken breaks unique names, and nothing else. */
  lemma CreatedNames(g: State, h: State, parent: nat, name: Str, ino: nat, isDir: bool)
    requires Names(g) && parent in g.nodes && g.nodes[parent].Dir?
    requires ino != 0 && ino !in g.nodes
    requires var c := Created(g, parent, name, ino, EmptyNode(isDir));
             h.nodes == c.nodes && h.place == c.place && h.rank == c.rank
    ensures Tree(h) && (Names(h) <==> Lookup(g.nodes[parent].slots, name).None?)
  {
    hide First, AddSlot, Placed, Lookup, Tree, UniqueNames;
    var slots := g.nodes[parent].slots;
    AddSlotPlaces(slots, Slot(ino, name));
    RootLive(g);
    EnterTree(g, h, parent, First(slots, Holds(0), 0), Slot(ino, name), EmptyNode(isDir));
    if Lookup(slots, name).None? {
      EnterNames(g, h, parent, First(slots, Holds(0), 0), Slot(ino, name), EmptyNode(isDir));
    } else {
      TwiceNamed(slots, Slot(ino, name));
    }
  }

  lemma TwiceNamed(slots: seq<Slot>, s: Slot)
    requires Lookup(slots, s.name).Some? && s.ino != 0
    ensures !UniqueNames(AddSlot(slots, s))
  {
    hide AddSlot;
    AddSlotPlaces(slots, s);
    var r, a, b := AddSlot(slots, s), First(slots, Named(s.name), 0), First(slots, Holds(0), 0);
    assert Named(s.name)(slots[a]);
    assert r[a].ino != 0 && r[b].ino != 0 && r[a].name == r[b].name && a != b;
  }

  lemma NodesLive(v: View, g: State)
    requires Core(v, g)
    ensures g.nodes.Keys == g.lays.Keys
  {
  }

  /** Create a file or directory.  `None` is a panic: no inode, no block, no slot, or a
      name of more than 27 bytes.  The code does not look whether the name is taken: a second entry
      is made, and names stay unique if and only if there was none. */
  method Create(vol: Volume, parent: nat, name: Str, isDir: bool) returns (r: Option<nat>)
    requires Good(vol) && parent in vol.g.nodes && vol.g.nodes[parent].Dir?
    modifies vol
    ensures vol.generation == old(vol.generation) + 1
    ensures r.Some? <==>
      && old(FreeInodes(vol.v)) > 0 && |name| <= MAX_NAME && (isDir ==> old(FreeBlocks(vol.v)) > 0)
      && HasRoom(old(vol.g).nodes[parent].slots, old(FreeBlocks(vol.v)) - if isDir then 1 else 0)
    ensures r.Some? ==>
      && vol.Valid()
      && Core(vol.v, vol.g)
      && Tree(vol.g)
      && r.value !in old(vol.g).nodes
      && FirstClear(old(vol.v).ibits, 0, r)
      && (Good(vol) <==> Lookup(old(vol.g).nodes[parent].slots, name).None?)
      && vol.g == Created(old(vol.g), parent, name, r.value, EmptyNode(isDir)).(owner := vol.g.owner,
           lays := vol.g.lays)
      && Untouched(old(vol.v), old(vol.g), vol.v, vol.g, {parent})
      && vol.g.lays.Keys == old(vol.g).lays.Keys + {r.value}
      && (!isDir && HasSlot(old(vol.g).nodes[parent].slots) ==> vol.g.owner == old(vol.g).owner)
      && (!isDir ==> vol.g.lays[r.value] == EMPTY_LAY)
      && FreeInodes(vol.v) == old(FreeInodes(vol.v)) - 1
      && FreeBlocks(vol.v) == old(FreeBlocks(vol.v)) - (if isDir then 1 else 0)
                              - (if HasSlot(old(vol.g).nodes[parent].slots) then 0 else 1)
  {
    hide Tied, Core, Names, Tree, Untouched, First, AddSlot, Lookup, FirstClear, HasSlot, FreeBlocks;
    vol.generation := vol.generation + 1;
    ghost var v, g, slots := vol.v, vol.g, vol.g.nodes[parent].slots;
    NodesLive(v, g);
    OwnersLive(v, g);
    r := NewNode(vol, isDir);
    if r.None? { return; }
    var ino := r.value;
    ghost var v1, g1 := vol.v, vol.g;
    RootLive(g);
    assert g1.nodes[parent] == g.nodes[parent] && ino != 0;
    var ok := AddDirEntry(vol, parent, name, ino);
    if !ok { return None; }
    KeptUntouched(v1, g1, vol.v, vol.g, parent);
    UntouchedTrans(v, g, v1, g1, vol.v, vol.g, {}, {parent}, {parent});
    ghost var c, g2 := Created(g, parent, name, ino, EmptyNode(isDir)), vol.g;
    vol.g := vol.g.(place := c.place, rank := c.rank);
    RenamedState(v, g, vol.v, g2, vol.g, {parent});
    CreatedNames(g, vol.g, parent, name, ino, isDir);
  }

  lemma RootLive(g: State)
    requires Names(g)
    ensures ROOT in g.nodes && g.nodes[ROOT].Dir? && g.rank.Keys == g.nodes.Keys
  {
  }
}
