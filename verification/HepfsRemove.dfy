/** Removing an entry: its blocks are found by the same stop-at-zero walk that reads
    them, and exactly the bits of the blocks it owns are cleared. */
module HepfsRemove {
  import opened HepfsLayout
  import opened HepfsTypes
  import opened HepfsStore
  import opened HepfsState
  import opened HepfsNames
  import opened HepfsFile
  import opened HepfsRead
  import opened HepfsDir
  import opened HepfsTree
  import opened HepfsCreate

  /** How far the release of an inode's blocks has come. */
  datatype Stage = Stage(blks: nat, ind: bool, dind: bool, l1: nat) {
    predicate Done(r: Role) {
      match r
      case Data(i) => i < blks
      case Indirect => ind
      case DIndirect => dind
      case Level1(j) => j < l1
    }
  }

  ghost predicate Released(v0: View, v: View, owner: map<nat, Own>, ino: nat, st: Stage) {
    && v == v0.(bbits := v.bbits) && |v.bbits| == |v0.bbits|
    && forall b :: 0 <= b < |v.bbits| ==>
         (v.bbits[b] <==> v0.bbits[b] && !(b in owner && owner[b].ino == ino && st.Done(owner[b].role)))
  }

  lemma ReleaseStep(v0: View, v: View, owner: map<nat, Own>, ino: nat, st: Stage, b: nat, st': Stage)
    requires Released(v0, v, owner, ino, st) && b in owner && owner[b].ino == ino && b < |v.bbits|
    requires forall x :: x in owner && owner[x].ino == ino ==>
               (st'.Done(owner[x].role) <==> st.Done(owner[x].role) || x == b)
    ensures Released(v0, v.(bbits := v.bbits[b := false]), owner, ino, st')
  {
  }

  /** What the walk over the pointers of inode `ino` relies on. */
  ghost predicate Walkable(v: View, g: State, ino: nat, n: Inode) {
    && Core(v, g) && ino in g.lays
    && var lay := g.lays[ino];
    && Shaped(lay) && Tight(lay) && Direct(n, lay) && Tables(v.data, lay)
  }

  /** Each block has one role, so releasing one block completes one role. */
  lemma OneRole(v: View, g: State, ino: nat, st: Stage, b: nat, st': Stage)
    requires Core(v, g) && ino in g.lays && b in g.owner && g.owner[b].ino == ino
    requires forall r: Role :: st'.Done(r) <==> st.Done(r) || r == g.owner[b].role
    ensures forall x :: x in g.owner && g.owner[x].ino == ino ==>
              (st'.Done(g.owner[x].role) <==> st.Done(g.owner[x].role) || x == b)
    ensures b < |v.bbits| && b < BLOCK_BM_LEN * BITS_PER_BLOCK
  {
    hide InodeOk;
    forall x | x in g.owner && g.owner[x].ino == ino && g.owner[x].role == g.owner[b].role ensures x == b {
      assert Fills(g.lays[ino], g.owner[x].role, x) && Fills(g.lays[ino], g.owner[b].role, b);
    }
  }

  lemma RoleOf(v: View, g: State, ino: nat, r: Role, b: nat)
    requires Core(v, g) && ino in g.lays && Fills(g.lays[ino], r, b)
    ensures OwnedAs(g.owner, b, ino, r) && DATA_START <= b < |v.data|
  {
    assert InodeOk(v, g.owner, ino, g.lays[ino], g.nodes[ino]);
  }

  /** Clear the bit of block `b`, which fills role `r`. */
  method ReleaseOne(vol: Volume, ghost v0: View, ghost ino: nat, ghost st: Stage, b: nat, ghost r: Role,
                    ghost st': Stage)
    requires vol.Valid() && Core(v0, vol.g) && ino in vol.g.lays && Fills(vol.g.lays[ino], r, b)
    requires Released(v0, vol.v, vol.g.owner, ino, st)
    requires forall q: Role :: st'.Done(q) <==> st.Done(q) || q == r
    modifies vol`disk, vol`v
    ensures vol.Valid() && Released(v0, vol.v, vol.g.owner, ino, st')
  {
    hide Core, Tied;
    RoleOf(v0, vol.g, ino, r, b);
    OneRole(v0, vol.g, ino, st, b, st');
    ReleaseStep(v0, vol.v, vol.g.owner, ino, st, b, st');
    vol.BitmapSet(BlockMap, b, false);
  }

  method ReleaseDirect(vol: Volume, ghost v0: View, ghost ino: nat, n: Inode)
    requires vol.Valid() && Walkable(v0, vol.g, ino, n) && vol.v == v0
    modifies vol`disk, vol`v
    ensures vol.Valid()
    ensures Released(v0, vol.v, vol.g.owner, ino, Stage(Min(DIRECT_PTRS, |vol.g.lays[ino].blks|), false, false, 0))
  {
    hide Core, Tied, Released, Tables, Shaped;
    ghost var lay := vol.g.lays[ino];
    StartRelease(v0, vol.g, ino);
    var i := 0;
    while i < DIRECT_PTRS
      invariant 0 <= i <= DIRECT_PTRS && vol.Valid()
      invariant Released(v0, vol.v, vol.g.owner, ino, Stage(Min(i, |lay.blks|), false, false, 0))
    {
      if n.direct[i] != 0 {
        ReleaseOne(vol, v0, ino, Stage(i, false, false, 0), n.direct[i], Data(i), Stage(i + 1, false, false, 0));
      } else {
        NonZero(lay);
      }
      i := i + 1;
    }
  }

  lemma StartRelease(v: View, g: State, ino: nat)
    ensures Released(v, v, g.owner, ino, Stage(0, false, false, 0))
  {
  }

  lemma NonZero(lay: Lay)
    requires Shaped(lay)
    ensures forall i :: 0 <= i < |lay.blks| ==> lay.blks[i] != 0
    ensures forall j :: 0 <= j < |lay.l1| ==> lay.l1[j] != 0
  {
  }

  /** Release the data blocks named by one table, stopping at its first zero pointer. */
  method ReleaseTable(vol: Volume, ghost v0: View, ghost ino: nat, table: Block, ghost lo: nat, ghost st: Stage)
    requires vol.Valid() && Core(v0, vol.g) && ino in vol.g.lays && Shaped(vol.g.lays[ino])
    requires PtrsAre(table, vol.g.lays[ino].blks, lo) && lo <= |vol.g.lays[ino].blks|
    requires st.blks == lo && Released(v0, vol.v, vol.g.owner, ino, st)
    modifies vol`disk, vol`v
    ensures vol.Valid()
    ensures Released(v0, vol.v, vol.g.owner, ino, st.(blks := Min(lo + PTRS_PER_BLOCK, |vol.g.lays[ino].blks|)))
  {
    hide Core, Tied, Released, Shaped;
    ghost var lay := vol.g.lays[ino];
    NonZero(lay);
    var i := 0;
    while i < PTRS_PER_BLOCK
      invariant 0 <= i <= PTRS_PER_BLOCK && lo + i <= |lay.blks| && vol.Valid()
      invariant Released(v0, vol.v, vol.g.owner, ino, st.(blks := lo + i))
    {
      var blk := PtrAt(table, i);
      assert blk == if lo + i < |lay.blks| then lay.blks[lo + i] else 0;
      if blk == 0 { break; }
      ReleaseOne(vol, v0, ino, st.(blks := lo + i), blk, Data(lo + i), st.(blks := lo + i + 1));
      i := i + 1;
    }
  }

  method ReleaseIndirect(vol: Volume, ghost v0: View, ghost ino: nat, n: Inode)
    requires vol.Valid() && Walkable(v0, vol.g, ino, n) && n.indirect != 0
    requires Released(v0, vol.v, vol.g.owner, ino, Stage(DIRECT_PTRS, false, false, 0))
    modifies vol`disk, vol`v
    ensures vol.Valid()
    ensures Released(v0, vol.v, vol.g.owner, ino, Stage(Min(SINGLE_END, |vol.g.lays[ino].blks|), true, false, 0))
  {
    hide Core, Tied, PtrsAre;
    ghost var lay := vol.g.lays[ino];
    RoleOf(v0, vol.g, ino, Indirect, n.indirect);
    var table := vol.ReadBlock(n.indirect);
    ReleaseTable(vol, v0, ino, table, DIRECT_PTRS, Stage(DIRECT_PTRS, false, false, 0));
    ghost var k := Min(SINGLE_END, |lay.blks|);
    ReleaseOne(vol, v0, ino, Stage(k, false, false, 0), n.indirect, Indirect, Stage(k, true, false, 0));
  }

  method ReleaseDouble(vol: Volume, ghost v0: View, ghost ino: nat, n: Inode)
    requires vol.Valid() && Walkable(v0, vol.g, ino, n) && n.dindirect != 0
    requires Released(v0, vol.v, vol.g.owner, ino, Stage(SINGLE_END, true, false, 0))
    modifies vol`disk, vol`v
    ensures vol.Valid()
    ensures Released(v0, vol.v, vol.g.owner, ino, Stage(|vol.g.lays[ino].blks|, true, true, |vol.g.lays[ino].l1|))
  {
    hide Core, Tied, PtrsAre;
    ghost var lay := vol.g.lays[ino];
    RoleOf(v0, vol.g, ino, DIndirect, n.dindirect);
    var dind := vol.ReadBlock(n.dindirect);
    NonZero(lay);
    var j := 0;
    while j < PTRS_PER_BLOCK
      invariant 0 <= j <= PTRS_PER_BLOCK && j <= |lay.l1| && vol.Valid()
      invariant Released(v0, vol.v, vol.g.owner, ino, Stage(Min(SINGLE_END + 1024 * j, |lay.blks|), true, false, j))
    {
      DoubleEntry(v0.data, lay, j);
      var l1 := PtrAt(dind, j);
      if l1 == 0 { break; }
      RoleOf(v0, vol.g, ino, Level1(j), l1);
      var table := vol.ReadBlock(l1);
      ghost var k := Min(SINGLE_END + 1024 * (j + 1), |lay.blks|);
      ReleaseTable(vol, v0, ino, table, SINGLE_END + 1024 * j, Stage(SINGLE_END + 1024 * j, true, false, j));
      ReleaseOne(vol, v0, ino, Stage(k, true, false, j), l1, Level1(j), Stage(k, true, false, j + 1));
      j := j + 1;
    }
    ReleaseOne(vol, v0, ino, Stage(|lay.blks|, true, false, |lay.l1|), n.dindirect, DIndirect,
      Stage(|lay.blks|, true, true, |lay.l1|));
  }

  /** The owner map without inode `ino`. */
  ghost function Disowned(owner: map<nat, Own>, ino: nat): map<nat, Own> {
    map b | b in owner && owner[b].ino != ino :: owner[b]
  }

  /** Free every block of an inode: direct, then indirect, then double-indirect. */
  method ReleaseAll(vol: Volume, ghost ino: nat, n: Inode)
    requires vol.Valid() && Walkable(vol.v, vol.g, ino, n)
    modifies vol`disk, vol`v
    ensures vol.Valid() && vol.v == old(vol.v).(bbits := vol.v.bbits) && |vol.v.bbits| == |old(vol.v).bbits|
    ensures BitsOk(vol.v, Disowned(vol.g.owner, ino))
  {
    hide Core, Tied, Tables;
    ghost var v0, lay := vol.v, vol.g.lays[ino];
    ReleaseDirect(vol, v0, ino, n);
    if n.indirect != 0 { ReleaseIndirect(vol, v0, ino, n); }
    if n.dindirect != 0 { ReleaseDouble(vol, v0, ino, n); }
    AllReleased(v0, vol.v, vol.g, ino, Stage(|lay.blks|, n.indirect != 0, n.dindirect != 0, |lay.l1|));
  }

  lemma AllReleased(v0: View, v: View, g: State, ino: nat, st: Stage)
    requires Core(v0, g) && ino in g.lays && Released(v0, v, g.owner, ino, st)
    requires st == Stage(|g.lays[ino].blks|, g.lays[ino].ind != 0, g.lays[ino].dind != 0, |g.lays[ino].l1|)
    ensures BitsOk(v, Disowned(g.owner, ino))
  {
    hide InodeOk;
    forall b | 0 <= b < |v.bbits| ensures v.bbits[b] <==> b < DATA_START || b in Disowned(g.owner, ino) {
      if b in g.owner && g.owner[b].ino == ino { assert Fills(g.lays[ino], g.owner[b].role, b); }
    }
  }

  /** The state without inode `ino`, before its directory slot is cleared. */
  ghost function Without(g: State, ino: nat): State {
    g.(owner := Disowned(g.owner, ino), lays := g.lays - {ino}, nodes := g.nodes - {ino})
  }

  lemma WithoutCore(v: View, g: State, ino: nat, w: View)
    requires Core(v, g) && ino in g.lays && ino < |v.inodes| && ino < |v.ibits|
    requires w == v.(bbits := w.bbits, ibits := v.ibits[ino := false], inodes := v.inodes[ino := DEFAULT_INODE])
    requires |w.bbits| == |v.bbits| && BitsOk(w, Disowned(g.owner, ino))
    ensures Core(w, Without(g, ino)) && Untouched(v, g, w, Without(g, ino), {ino})
  {
    hide InodeOk, BitsOk, OwnersOk, Untouched;
    WithoutInodes(v, g, ino, w);
    WithoutOwners(v, g, ino, w);
    WithoutUntouched(v, g, ino, w);
  }

  lemma WithoutOwners(v: View, g: State, ino: nat, w: View)
    requires Core(v, g) && ino in g.lays
    requires w == v.(bbits := w.bbits, ibits := w.ibits, inodes := w.inodes) && |w.bbits| == |v.bbits|
    ensures OwnersOk(w, Without(g, ino).owner, Without(g, ino).lays)
  {
    hide InodeOk, BitsOk;
  }

  lemma WithoutUntouched(v: View, g: State, ino: nat, w: View)
    requires ino in g.lays && ino < |v.inodes|
    requires w == v.(bbits := w.bbits, ibits := w.ibits, inodes := v.inodes[ino := DEFAULT_INODE])
    ensures Untouched(v, g, w, Without(g, ino), {ino})
  {
  }

  lemma WithoutInodes(v: View, g: State, ino: nat, w: View)
    requires Core(v, g) && ino in g.lays && ino < |v.inodes| && ino < |v.ibits|
    requires w == v.(bbits := w.bbits, ibits := v.ibits[ino := false], inodes := v.inodes[ino := DEFAULT_INODE])
    ensures forall i :: i in Without(g, ino).lays ==>
              && i in Without(g, ino).nodes
              && InodeOk(w, Without(g, ino).owner, i, Without(g, ino).lays[i], Without(g, ino).nodes[i])
  {
    hide InodeOk, BitsOk;
    var h := Without(g, ino);
    forall i | i in h.lays ensures i in h.nodes && InodeOk(w, h.owner, i, h.lays[i], h.nodes[i]) {
      InodeFrame(v, w, g.owner, h.owner, i, g.lays[i], g.nodes[i]);
    }
  }

  /** The final state of a removal. */
  ghost function Removed(g: State, parent: nat, k: nat, ino: nat): State
    requires IsSlot(g.nodes, parent, k)
  {
    g.(owner := Disowned(g.owner, ino), lays := g.lays - {ino},
       nodes := (g.nodes - {ino})[parent := Dir(g.nodes[parent].slots[k := EMPTY_SLOT])],
       place := g.place - {ino}, rank := g.rank - {ino})
  }

  /** An entry can be removed when it is a file or a directory without entries. */
  ghost predicate Removable(g: State, parent: nat, name: Str)
    requires parent in g.nodes && g.nodes[parent].Dir?
  {
    var r := Lookup(g.nodes[parent].slots, name);
    r.Some? && r.value in g.nodes && Childless(g.nodes[r.value])
  }

  /** In a tree, the entry found by name is the place of its inode. */
  lemma LookupPlace(g: State, parent: nat, name: Str)
    requires Tree(g) && parent in g.nodes && g.nodes[parent].Dir? && Lookup(g.nodes[parent].slots, name).Some?
    ensures var ino, k := Lookup(g.nodes[parent].slots, name).value, First(g.nodes[parent].slots, Named(name), 0);
      && IsSlot(g.nodes, parent, k) && g.nodes[parent].slots[k] == Slot(ino, name)
      && ino in g.nodes && ino != ROOT && ino in g.place && g.place[ino] == Place(parent, k) && ino != parent
      && First(g.nodes[parent].slots, Holds(ino), 0) == k
  {
    var slots := g.nodes[parent].slots;
    var k := First(slots, Named(name), 0);
    var ino := slots[k].ino;
    assert IsSlot(g.nodes, parent, k);
    assert g.place[ino] == Place(parent, k);
    assert g.rank[parent] < g.rank[ino];
    var f := First(slots, Holds(ino), 0);
    assert Holds(ino)(slots[k]);
    if f < k { assert IsSlot(g.nodes, parent, f); }
  }

  lemma ChildlessListing(slots: seq<Slot>)
    ensures Listing(slots) == [] <==> Childless(Dir(slots))
  {
    if Listing(slots) != [] {
      assert Listing(slots)[0] in slots;
    } else {
      forall j | 0 <= j < |slots| ensures slots[j].ino == 0 {
        assert slots[j] in slots;
      }
    }
  }

  /** Clear the slot that holds `ino`. */
  method ClearSlot(vol: Volume, dir: nat, ino: nat, ghost k: nat)
    requires vol.Valid() && Core(vol.v, vol.g) && dir in vol.g.nodes && vol.g.nodes[dir].Dir?
    requires k == First(vol.g.nodes[dir].slots, Holds(ino), 0) < |vol.g.nodes[dir].slots|
    modifies vol`disk, vol`v, vol`g
    ensures vol.Valid() && Core(vol.v, vol.g)
    ensures vol.g == WithSlots(old(vol.g), dir, old(vol.g).nodes[dir].slots[k := EMPTY_SLOT])
    ensures vol.v == old(vol.v).(data := vol.v.data)
    ensures Kept(old(vol.v), old(vol.g), vol.v, vol.g, dir) && FreeBlocks(vol.v) == old(FreeBlocks(vol.v))
  {
    hide Core, Tied, Kept;
    DirScannable(vol.v, vol.g, dir);
    var n := vol.ReadInode(dir);
    DirScans(vol.v, vol.g, dir, n, vol.g.nodes[dir].slots);
    var at := Scan(vol, n, Holds(ino), vol.g.nodes[dir].slots, |vol.g.lays[dir].blks|);
    PutSlot(vol, dir, n, at.value, EMPTY_SLOT);
  }

  lemma WalkableOf(v: View, g: State, ino: nat)
    requires Core(v, g) && ino in g.nodes
    ensures ino < MAX_INODES && ino < |v.inodes| && ino < |v.ibits| && Walkable(v, g, ino, v.inodes[ino])
  {
    assert InodeOk(v, g.owner, ino, g.lays[ino], g.nodes[ino]);
  }

  /** Release inode `ino` and all its blocks. */
  method FreeInode(vol: Volume, ino: nat, n: Inode)
    requires vol.Valid() && Core(vol.v, vol.g) && ino in vol.g.nodes && ino < |vol.v.inodes| && n == vol.v.inodes[ino]
    modifies vol`disk, vol`v, vol`g
    ensures vol.Valid() && Core(vol.v, vol.g) && vol.g == Without(old(vol.g), ino)
    ensures Untouched(old(vol.v), old(vol.g), vol.v, vol.g, {ino})
    ensures ino < |vol.v.inodes| && vol.v.inodes[ino] == DEFAULT_INODE
  {
    hide Core, Tied, Walkable, Untouched, BitsOk;
    ghost var v, g := vol.v, vol.g;
    WalkableOf(v, g, ino);
    NodesLive(v, g);
    ReleaseAll(vol, ino, n);
    vol.BitmapSet(InodeMap, ino, false);
    vol.WriteInode(ino, DEFAULT_INODE);
    SameBits(vol.v, v.(bbits := vol.v.bbits), Disowned(g.owner, ino));
    WithoutCore(v, g, ino, vol.v);
    vol.g := Without(g, ino);
  }

  lemma SameBits(v: View, w: View, owner: map<nat, Own>)
    requires BitsOk(w, owner) && v.bbits == w.bbits
    ensures BitsOk(v, owner)
  {
  }

  /** Remove a file or an empty directory; false, and nothing changes, otherwise. */
  method Remove(vol: Volume, parent: nat, name: Str) returns (ok: bool)
    requires Good(vol) && parent in vol.g.nodes && vol.g.nodes[parent].Dir?
    modifies vol
    ensures vol.generation == old(vol.generation) + 1 && Good(vol)
    ensures ok <==> Removable(old(vol.g), parent, name)
    ensures !ok ==> vol.disk == old(vol.disk) && vol.g == old(vol.g)
    ensures ok ==>
      var ino, k := Lookup(old(vol.g).nodes[parent].slots, name).value,
        First(old(vol.g).nodes[parent].slots, Named(name), 0);
      && IsSlot(old(vol.g).nodes, parent, k) && vol.g == Removed(old(vol.g), parent, k, ino)
      && Untouched(old(vol.v), old(vol.g), vol.v, vol.g, {parent, ino})
      && ino < |vol.v.inodes| && vol.v.inodes[ino] == DEFAULT_INODE
  {
    hide Core, Tied, Untouched, Tree, First, Lookup, Childless, Listing, UniqueNames, Kept, FreeBlocks, SlotsSeen;
    vol.generation := vol.generation + 1;
    ghost var v, g := vol.v, vol.g;
    var r := FindInDir(vol, parent, name);
    if r.None? { return false; }
    var ino := r.value;
    LookupPlace(g, parent, name);
    ghost var k := First(g.nodes[parent].slots, Named(name), 0);
    FileReadable(v, g, ino);
    var n := vol.ReadInode(ino);
    if ino == ROOT { assert false; return false; }
    if n.flags == F_DIR {
      var l := ListDir(vol, ino);
      ChildlessListing(g.nodes[ino].slots);
      if l.value != [] { return false; }
    } else {
      FileChildless(g.nodes[ino]);
    }
    FreeInode(vol, ino, n);
    ghost var v1, g1 := vol.v, vol.g;
    assert g1.nodes[parent] == g.nodes[parent];
    ClearSlot(vol, parent, ino, k);
    KeptUntouched(v1, g1, vol.v, vol.g, parent);
    OwnersLive(v, g);
    UntouchedTrans(v, g, v1, g1, vol.v, vol.g, {ino}, {parent}, {parent, ino});
    ghost var g2 := vol.g;
    vol.g := Removed(g, parent, k, ino);
    RenamedState(v, g, vol.v, g2, vol.g, {parent, ino});
    DropNames(g, vol.g, parent, k, ino);
    ok := true;
  }

  lemma FileChildless(node: Node)
    requires node.File?
    ensures Childless(node)
  {
  }
}
