/** Renaming and moving: the directory slot is rewritten, what it points to is not. */
module HepfsOps {
  import opened HepfsLayout
  import opened HepfsTypes
  import opened HepfsStore
  import opened HepfsState
  import opened HepfsNames
  import opened HepfsFile
  import opened HepfsDir
  import opened HepfsTree
  import opened HepfsCreate
  import opened HepfsRemove

  /** Rename an entry in place; false, and nothing changes, if the old name is absent,
      or the new one is taken or too long. */
  method Rename(vol: Volume, parent: nat, oldName: Str, newName: Str) returns (ok: bool)
    requires Good(vol) && parent in vol.g.nodes && vol.g.nodes[parent].Dir?
    modifies vol
    ensures vol.generation == old(vol.generation) + 1 && Good(vol)
    ensures ok <==> |newName| <= MAX_NAME && Lookup(old(vol.g).nodes[parent].slots, newName).None?
                    && Lookup(old(vol.g).nodes[parent].slots, oldName).Some?
    ensures !ok ==> vol.disk == old(vol.disk) && vol.g == old(vol.g)
    ensures ok ==>
      var slots := old(vol.g).nodes[parent].slots;
      var k := First(slots, Named(oldName), 0);
      && k < |slots| && vol.g == WithSlots(old(vol.g), parent, slots[k := Slot(slots[k].ino, newName)])
      && Untouched(old(vol.v), old(vol.g), vol.v, vol.g, {parent})
  {
    hide Core, Tied, Untouched, Tree, UniqueNames, Utf8, SlotAt, First, Lookup, Kept;
    vol.generation := vol.generation + 1;
    var taken := FindInDir(vol, parent, newName);
    if taken.Some? || |newName| > MAX_NAME { return false; }
    ghost var v, g := vol.v, vol.g;
    DirScannable(v, g, parent);
    var n := vol.ReadInode(parent);
    DirScans(v, g, parent, n, g.nodes[parent].slots);
    var k := Scan(vol, n, Named(oldName), g.nodes[parent].slots, |g.lays[parent].blks|);
    if k.None? { return false; }
    var at := k.value;
    SlotOnDisk(v, g, parent, n, g.nodes[parent].slots, at / SLOTS_PER_BLOCK, at % SLOTS_PER_BLOCK);
    var page := vol.ReadBlock(n.direct[at / SLOTS_PER_BLOCK]);
    var e := SlotAt(page, at % SLOTS_PER_BLOCK);
    PutSlot(vol, parent, n, at, Slot(e.ino, newName));
    KeptUntouched(v, g, vol.v, vol.g, parent);
    RenameNames(g, vol.g, parent, at, newName);
    ok := true;
  }

  lemma StoredName(v: View, g: State, dir: nat, k: nat)
    requires Core(v, g) && IsSlot(g.nodes, dir, k)
    ensures |g.nodes[dir].slots[k].name| <= MAX_NAME && g.nodes[dir].slots[k].ino < U32
  {
    DirScannable(v, g, dir);
    SlotOnDisk(v, g, dir, v.inodes[dir], g.nodes[dir].slots, k / SLOTS_PER_BLOCK, k % SLOTS_PER_BLOCK);
  }

  /** The move is not refused: the entry exists, and the name is free in the other directory. */
  ghost predicate Movable(g: State, from: nat, to: nat, name: Str)
    requires from in g.nodes && g.nodes[from].Dir? && to in g.nodes && g.nodes[to].Dir?
  {
    from != to && Lookup(g.nodes[to].slots, name).None? && Lookup(g.nodes[from].slots, name).Some?
  }

  lemma MovedState(g: State, h: State, x: nat, from: nat, to: nat, name: Str)
    requires Names(g) && from in g.nodes && g.nodes[from].Dir? && to in g.nodes && g.nodes[to].Dir?
    requires Movable(g, from, to, name)
    requires Lookup(g.nodes[from].slots, name) == Some(x)
    requires var kf, kt := First(g.nodes[from].slots, Named(name), 0), First(g.nodes[to].slots, Holds(0), 0);
      && h.nodes == g.nodes[from := Dir(g.nodes[from].slots[kf := EMPTY_SLOT])]
                           [to := Dir(AddSlot(g.nodes[to].slots, Slot(x, name)))]
      && h.place == g.place[x := Place(to, kt)] && h.rank == MovedRank(g, x, to)
    ensures Names(h) <==> !Under(g, x, to)
    ensures Treelike(h) <==> !Under(g, x, to)
    ensures Moved(g, h, x, from, First(g.nodes[from].slots, Named(name), 0), to, First(g.nodes[to].slots, Holds(0), 0))
  {
    hide First, AddSlot, Placed, Under, Tree, UniqueNames;
    LookupPlace(g, from, name);
    AddSlotPlaces(g.nodes[to].slots, Slot(x, name));
    var kf, kt := First(g.nodes[from].slots, Named(name), 0), First(g.nodes[to].slots, Holds(0), 0);
    MoveIsTreeIff(g, h, x, from, kf, to, kt);
    assert h == h.(place := h.place, rank := h.rank);
    if !Under(g, x, to) { MoveNames(g, h, x, from, kf, to, kt); }
  }

  /** Move an entry to another directory.  The code does not look where that directory is: the move is made
      all the same, and leaves a tree if and only if the directory is not the entry or below it.  `None`
      is the panic: the destination has no slot and none can be added. */
  method MoveEntry(vol: Volume, from: nat, to: nat, name: Str) returns (r: Option<bool>)
    requires Good(vol) && from in vol.g.nodes && vol.g.nodes[from].Dir? && to in vol.g.nodes && vol.g.nodes[to].Dir?
    modifies vol
    ensures vol.generation == old(vol.generation) + 1
    ensures r == Some(false) <==> !Movable(old(vol.g), from, to, name)
    ensures r == Some(false) ==> Good(vol) && vol.disk == old(vol.disk) && vol.g == old(vol.g)
    ensures r == None <==>
      Movable(old(vol.g), from, to, name) && !HasRoom(old(vol.g).nodes[to].slots, old(FreeBlocks(vol.v)))
    ensures r == Some(true) ==>
      var x := Lookup(old(vol.g).nodes[from].slots, name).value;
      && vol.Valid() && Core(vol.v, vol.g)
      && Moved(old(vol.g), vol.g, x, from, First(old(vol.g).nodes[from].slots, Named(name), 0), to,
           First(old(vol.g).nodes[to].slots, Holds(0), 0))
      && vol.g.nodes[to] == Dir(AddSlot(old(vol.g).nodes[to].slots, Slot(x, name)))
      && Untouched(old(vol.v), old(vol.g), vol.v, vol.g, {from, to})
      && vol.g.lays.Keys == old(vol.g).lays.Keys
      && FreeBlocks(vol.v) == old(FreeBlocks(vol.v)) - (if HasSlot(old(vol.g).nodes[to].slots) then 0 else 1)
      && (Good(vol) <==> !Under(old(vol.g), x, to)) && (Treelike(vol.g) <==> !Under(old(vol.g), x, to))
  {
    hide Core, Tied, Untouched, Names, First, AddSlot, Placed, Under, MovedRank, Lookup, Kept, FreeBlocks, Treelike;
    vol.generation := vol.generation + 1;
    if from == to { return Some(false); }
    ghost var v, g := vol.v, vol.g;
    var taken := FindInDir(vol, to, name);
    if taken.Some? { return Some(false); }
    var x := FindInDir(vol, from, name);
    if x.None? { return Some(false); }
    TreeOf(g);
    LookupPlace(g, from, name);
    ghost var kf, kt := First(g.nodes[from].slots, Named(name), 0), First(g.nodes[to].slots, Holds(0), 0);
    StoredName(v, g, from, kf);
    ClearSlot(vol, from, x.value, kf);
    ghost var v1, g1 := vol.v, vol.g;
    var ok := AddDirEntry(vol, to, name, x.value);
    if !ok { return None; }
    ghost var v2, g2 := vol.v, vol.g;
    KeptTwice(v, g, v1, g1, v2, g2, from, to);
    vol.g := g2.(place := g.place[x.value := Place(to, kt)], rank := MovedRank(g, x.value, to));
    RenamedState(v, g, v2, g2, vol.g, {from, to});
    MovedState(g, vol.g, x.value, from, to, name);
    r := Some(true);
  }

  lemma TreeOf(g: State)
    requires Names(g)
    ensures Tree(g)
  {
  }

  lemma KeptKeys(v: View, g: State, w: View, h: State, ino: nat)
    requires Kept(v, g, w, h, ino)
    ensures h.lays.Keys == g.lays.Keys
  {
  }

  lemma KeptTwice(v: View, g: State, v1: View, g1: State, v2: View, g2: State, i: nat, j: nat)
    requires Core(v, g) && Kept(v, g, v1, g1, i) && Kept(v1, g1, v2, g2, j)
    ensures Untouched(v, g, v2, g2, {i, j}) && g2.lays.Keys == g.lays.Keys
  {
    hide Core, Untouched, Kept;
    KeptUntouched(v, g, v1, g1, i);
    KeptUntouched(v1, g1, v2, g2, j);
    OwnersLive(v, g);
    UntouchedTrans(v, g, v1, g1, v2, g2, {i}, {j}, {i, j});
    KeptKeys(v, g, v1, g1, i);
    KeptKeys(v1, g1, v2, g2, j);
  }
}
