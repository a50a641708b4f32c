/** Directories as arrays of slots: scanning, listing, and writing one slot. */
module HepfsDir {
  import opened HepfsLayout
  import opened HepfsTypes
  import opened HepfsStore
  import opened HepfsState
  import opened HepfsFile
  import opened HepfsRead

  const MAX_SLOTS: nat := 1536

  /** Index of the first slot at or after `i` that satisfies `p`; `|slots|` if none does. */
  function First(slots: seq<Slot>, p: Slot -> bool, i: nat): (k: nat)
    requires i <= |slots|
    ensures i <= k <= |slots|
    ensures k < |slots| ==> p(slots[k])
    ensures forall j :: i <= j < k ==> !p(slots[j])
    decreases |slots| - i
  {
    if i == |slots| || p(slots[i]) then i else First(slots, p, i + 1)
  }

  function Named(name: Str): Slot -> bool {
    (s: Slot) => s.ino != 0 && s.name == name
  }

  function Holds(ino: nat): Slot -> bool {
    (s: Slot) => s.ino == ino
  }

  /** The entry a name resolves to. */
  function Lookup(slots: seq<Slot>, name: Str): (r: Option<nat>)
    ensures r.Some? ==> r.value != 0 && exists k :: 0 <= k < |slots| && slots[k] == Slot(r.value, name)
    ensures r.None? <==> forall k :: 0 <= k < |slots| ==> slots[k].ino == 0 || slots[k].name != name
  {
    var k := First(slots, Named(name), 0);
    if k < |slots| then assert slots[k] == Slot(slots[k].ino, name); Some(slots[k].ino) else None
  }

  /** The used slots, in slot order. */
  function Listing(slots: seq<Slot>): (l: seq<Slot>)
    ensures forall s :: s in l <==> s in slots && s.ino != 0
  {
    if slots == [] then []
    else
      var last := slots[|slots| - 1];
      Listing(slots[..|slots| - 1]) + if last.ino != 0 then [last] else []
  }

  /** A directory with room for a new entry: the first unused slot, else the first slot of a new block. */
  function AddSlot(slots: seq<Slot>, s: Slot): (r: seq<Slot>) {
    var k := First(slots, Holds(0), 0);
    if k < |slots| then slots[k := s] else slots + [s] + EmptySlots(SLOTS_PER_BLOCK - 1)
  }

  function EmptySlots(n: nat): (r: seq<Slot>)
    ensures |r| == n && forall i :: 0 <= i < n ==> r[i] == EMPTY_SLOT
  {
    seq(n, _ => EMPTY_SLOT)
  }

  /** What scanning a directory needs to know of the disk. */
  ghost predicate Scannable(v: View, g: State, dir: nat, n: Inode, slots: seq<Slot>) {
    && dir in g.lays
    && var lay := g.lays[dir];
    && Shaped(lay) && Direct(n, lay) && DirOk(n, v.data, lay, slots)
    && forall i :: 0 <= i < |lay.blks| ==> DATA_START <= lay.blks[i] < |v.data|
  }

  lemma DirScannable(v: View, g: State, dir: nat)
    requires Core(v, g) && dir in g.nodes && g.nodes[dir].Dir?
    ensures dir < MAX_INODES && dir < |v.inodes| && Scannable(v, g, dir, v.inodes[dir], g.nodes[dir].slots)
  {
    assert InodeOk(v, g.owner, dir, g.lays[dir], g.nodes[dir]);
    OwnedBlocks(v, g, dir);
  }

  lemma SlotOnDisk(v: View, g: State, dir: nat, n: Inode, slots: seq<Slot>, m: nat, i: nat)
    requires Scannable(v, g, dir, n, slots) && m < |g.lays[dir].blks| && i < SLOTS_PER_BLOCK
    ensures n.direct[m] == g.lays[dir].blks[m] != 0 && DATA_START <= n.direct[m] < |v.data|
    ensures SLOTS_PER_BLOCK * m + i < |slots| && SlotAt(v.data[n.direct[m]], i) == slots[SLOTS_PER_BLOCK * m + i]
  {
    assert SlotsAre(v.data[g.lays[dir].blks[m]], slots, m);
  }

  /** The nonzero direct pointers of `n` are a prefix, and its blocks hold `slots`. */
  ghost predicate Scans(data: seq<Block>, n: Inode, slots: seq<Slot>, k: nat) {
    && |n.direct| == DIRECT_PTRS && k <= DIRECT_PTRS && |slots| == SLOTS_PER_BLOCK * k
    && (forall m :: 0 <= m < DIRECT_PTRS ==> (n.direct[m] != 0 <==> m < k))
    && forall m :: 0 <= m < k ==> DATA_START <= n.direct[m] < |data| && SlotsAre(data[n.direct[m]], slots, m)
  }

  lemma DirScans(v: View, g: State, dir: nat, n: Inode, slots: seq<Slot>)
    requires Scannable(v, g, dir, n, slots)
    ensures Scans(v.data, n, slots, |g.lays[dir].blks|)
  {
  }

  /** The slots a scan of any inode sees: its direct blocks, whatever they hold. */
  ghost function SlotsSeen(data: seq<Block>, lay: Lay): (slots: seq<Slot>)
    requires forall i :: 0 <= i < |lay.blks| ==> lay.blks[i] < |data|
  {
    var k := Min(|lay.blks|, DIRECT_PTRS);
    seq(SLOTS_PER_BLOCK * k,
      i requires 0 <= i < SLOTS_PER_BLOCK * k => SlotAt(data[lay.blks[i / SLOTS_PER_BLOCK]], i % SLOTS_PER_BLOCK))
  }

  lemma SeenBlock(data: seq<Block>, lay: Lay, m: nat)
    requires (forall i :: 0 <= i < |lay.blks| ==> lay.blks[i] < |data|) && m < Min(|lay.blks|, DIRECT_PTRS)
    ensures SlotsAre(data[lay.blks[m]], SlotsSeen(data, lay), m)
  {
    var slots := SlotsSeen(data, lay);
    forall i | 0 <= i < SLOTS_PER_BLOCK ensures SlotAt(data[lay.blks[m]], i) == slots[SLOTS_PER_BLOCK * m + i] {
      assert (SLOTS_PER_BLOCK * m + i) / SLOTS_PER_BLOCK == m && (SLOTS_PER_BLOCK * m + i) % SLOTS_PER_BLOCK == i;
    }
  }

  lemma SeenScans(data: seq<Block>, lay: Lay, n: Inode)
    requires Direct(n, lay) && forall i :: 0 <= i < |lay.blks| ==> DATA_START <= lay.blks[i] < |data|
    ensures Scans(data, n, SlotsSeen(data, lay), Min(|lay.blks|, DIRECT_PTRS))
  {
    hide SlotsAre;
    forall m | 0 <= m < Min(|lay.blks|, DIRECT_PTRS) ensures SlotsAre(data[lay.blks[m]], SlotsSeen(data, lay), m) {
      SeenBlock(data, lay, m);
    }
  }

  lemma AnyScans(v: View, g: State, ino: nat)
    requires Core(v, g) && ino in g.nodes
    ensures ino in g.lays && ino < MAX_INODES && ino < |v.inodes|
    ensures forall i :: 0 <= i < |g.lays[ino].blks| ==> DATA_START <= g.lays[ino].blks[i] < |v.data|
    ensures Scans(v.data, v.inodes[ino], SlotsSeen(v.data, g.lays[ino]), Min(|g.lays[ino].blks|, DIRECT_PTRS))
  {
    hide Scans, SlotsSeen, FileOk, DirOk, Tables;
    assert InodeOk(v, g.owner, ino, g.lays[ino], g.nodes[ino]);
    OwnedBlocks(v, g, ino);
    SeenScans(v.data, g.lays[ino], v.inodes[ino]);
  }

  /** Of a directory, a scan sees its slots. */
  lemma DirSeen(v: View, g: State, dir: nat)
    requires Core(v, g) && dir in g.nodes && g.nodes[dir].Dir?
    ensures dir in g.lays && forall i :: 0 <= i < |g.lays[dir].blks| ==> g.lays[dir].blks[i] < |v.data|
    ensures SlotsSeen(v.data, g.lays[dir]) == g.nodes[dir].slots
  {
    hide Core;
    DirScannable(v, g, dir);
    var slots := g.nodes[dir].slots;
    forall i | 0 <= i < |slots| ensures SlotsSeen(v.data, g.lays[dir])[i] == slots[i] {
      SlotOnDisk(v, g, dir, v.inodes[dir], slots, i / SLOTS_PER_BLOCK, i % SLOTS_PER_BLOCK);
    }
  }

  /** One directory block: position of its first slot that satisfies `p`, or 128. */
  method ScanBlock(page: Block, p: Slot -> bool, ghost slots: seq<Slot>, ghost m: nat) returns (i: nat)
    requires SlotsAre(page, slots, m)
    requires First(slots, p, 0) == First(slots, p, SLOTS_PER_BLOCK * m)
    ensures i <= SLOTS_PER_BLOCK && First(slots, p, 0) == First(slots, p, SLOTS_PER_BLOCK * m + i)
    ensures i < SLOTS_PER_BLOCK ==> First(slots, p, 0) == SLOTS_PER_BLOCK * m + i
  {
    i := 0;
    while i < SLOTS_PER_BLOCK
      invariant 0 <= i <= SLOTS_PER_BLOCK && First(slots, p, 0) == First(slots, p, SLOTS_PER_BLOCK * m + i)
    {
      var e := SlotAt(page, i);
      assert e == slots[SLOTS_PER_BLOCK * m + i];
      if p(e) { return; }
      i := i + 1;
    }
  }

  /** The scan shared by lookup, removal, renaming and moving: over the nonzero direct blocks. */
  method Scan(vol: Volume, n: Inode, p: Slot -> bool, ghost slots: seq<Slot>, ghost k: nat) returns (r: Option<nat>)
    requires vol.Valid() && Scans(vol.v.data, n, slots, k)
    ensures r == var f := First(slots, p, 0); if f < |slots| then Some(f) else None
  {
    hide Tied, SlotsAre;
    var m := 0;
    while m < DIRECT_PTRS
      invariant 0 <= m <= DIRECT_PTRS
      invariant m <= k ==> First(slots, p, 0) == First(slots, p, SLOTS_PER_BLOCK * m)
      invariant m >= k ==> First(slots, p, 0) == |slots|
    {
      var blk := n.direct[m];
      if blk != 0 {
        var page := vol.ReadBlock(blk);
        var i := ScanBlock(page, p, slots, m);
        if i < SLOTS_PER_BLOCK { return Some(SLOTS_PER_BLOCK * m + i); }
      }
      m := m + 1;
    }
    r := None;
  }

  /** Look a name up.  The code does not look whether the inode is a directory: in a file it finds what the
      file's first blocks spell. */
  method FindInDir(vol: Volume, dir: nat, name: Str) returns (r: Option<nat>)
    requires vol.Valid() && Core(vol.v, vol.g) && dir in vol.g.nodes
    ensures dir in vol.g.lays && forall i :: 0 <= i < |vol.g.lays[dir].blks| ==> vol.g.lays[dir].blks[i] < |vol.v.data|
    ensures r == Lookup(SlotsSeen(vol.v.data, vol.g.lays[dir]), name)
    ensures vol.g.nodes[dir].Dir? ==> r == Lookup(vol.g.nodes[dir].slots, name)
  {
    hide Core, Tied, SlotsAre, SlotsSeen;
    AnyScans(vol.v, vol.g, dir);
    if vol.g.nodes[dir].Dir? { DirSeen(vol.v, vol.g, dir); }
    ghost var slots := SlotsSeen(vol.v.data, vol.g.lays[dir]);
    var n := vol.ReadInode(dir);
    var k := Scan(vol, n, Named(name), slots, Min(|vol.g.lays[dir].blks|, DIRECT_PTRS));
    if k.None? { return None; }
    var page := vol.ReadBlock(n.direct[k.value / SLOTS_PER_BLOCK]);
    SlotThere(page, slots, k.value);
    r := Some(SlotAt(page, k.value % SLOTS_PER_BLOCK).ino);
  }

  lemma SlotThere(page: Block, slots: seq<Slot>, k: nat)
    requires SlotsAre(page, slots, k / SLOTS_PER_BLOCK) && k < |slots|
    ensures SlotAt(page, k % SLOTS_PER_BLOCK) == slots[k]
  {
  }

  lemma ListingStep(slots: seq<Slot>, k: nat)
    requires k < |slots|
    ensures Listing(slots[..k + 1]) == Listing(slots[..k]) + if slots[k].ino != 0 then [slots[k]] else []
  {
    assert slots[..k + 1][..k] == slots[..k];
  }

  method ListBlock(page: Block, out0: seq<Slot>, ghost slots: seq<Slot>, ghost m: nat) returns (out: seq<Slot>)
    requires SlotsAre(page, slots, m) && out0 == Listing(slots[..SLOTS_PER_BLOCK * m])
    ensures out == Listing(slots[..SLOTS_PER_BLOCK * (m + 1)])
  {
    hide Listing;
    out := out0;
    var i := 0;
    while i < SLOTS_PER_BLOCK
      invariant 0 <= i <= SLOTS_PER_BLOCK && out == Listing(slots[..SLOTS_PER_BLOCK * m + i])
    {
      var e := SlotAt(page, i);
      assert e == slots[SLOTS_PER_BLOCK * m + i];
      ListingStep(slots, SLOTS_PER_BLOCK * m + i);
      if e.ino != 0 { out := out + [e]; }
      i := i + 1;
    }
  }

  /** All entries of a directory; `None` is the panic on a file. */
  method ListDir(vol: Volume, dir: nat) returns (r: Option<seq<Slot>>)
    requires vol.Valid() && Core(vol.v, vol.g) && dir in vol.g.nodes
    ensures r == if vol.g.nodes[dir].Dir? then Some(Listing(vol.g.nodes[dir].slots)) else None
  {
    hide Core, Tied, Shaped, SlotsAre, Listing;
    FileReadable(vol.v, vol.g, dir);
    var n := vol.ReadInode(dir);
    if n.flags != F_DIR { return None; }
    DirScannable(vol.v, vol.g, dir);
    ghost var slots := vol.g.nodes[dir].slots;
    var out: seq<Slot> := [];
    var m := 0;
    assert out == Listing(slots[..0]) by { EmptyListing(slots); }
    while m < DIRECT_PTRS
      invariant 0 <= m <= DIRECT_PTRS
      invariant out == Listing(slots[..SLOTS_PER_BLOCK * Min(m, |vol.g.lays[dir].blks|)])
    {
      var blk := n.direct[m];
      if m < |vol.g.lays[dir].blks| { SlotOnDisk(vol.v, vol.g, dir, n, slots, m, 0); }
      if blk != 0 {
        var page := vol.ReadBlock(blk);
        out := ListBlock(page, out, slots, m);
      }
      m := m + 1;
    }
    assert slots[..|slots|] == slots;
    r := Some(out);
  }

  lemma EmptyListing(slots: seq<Slot>)
    ensures Listing(slots[..0]) == []
  {
  }

  /** A directory whose slots are `slots`, in the abstract state. */
  ghost function WithSlots(g: State, dir: nat, slots: seq<Slot>): State {
    g.(nodes := g.nodes[dir := Dir(slots)])
  }

  lemma CoreToExcept(v: View, g: State, ino: nat)
    requires Core(v, g)
    ensures CoreExcept(v, g, ino)
  {
  }

  lemma SlotInodeOk(v: View, g: State, dir: nat, k: nat, s: Slot, page: Block, w: View)
    requires Core(v, g) && dir in g.nodes && g.nodes[dir].Dir? && k < |g.nodes[dir].slots|
    requires s.ino < U32 && |s.name| <= MAX_NAME
    requires k / SLOTS_PER_BLOCK < |g.lays[dir].blks|
    requires g.lays[dir].blks[k / SLOTS_PER_BLOCK] < |v.data|
    requires page == SetSlot(v.data[g.lays[dir].blks[k / SLOTS_PER_BLOCK]], k % SLOTS_PER_BLOCK, s)
    requires w == v.(data := v.data[g.lays[dir].blks[k / SLOTS_PER_BLOCK] := page])
    ensures InodeOk(w, g.owner, dir, g.lays[dir], Dir(g.nodes[dir].slots[k := s]))
  {
    hide SlotsAre, SetSlot, Shaped, Tight, Tables, Direct, BitsOk, OwnersOk;
    var lay, slots, m := g.lays[dir], g.nodes[dir].slots, k / SLOTS_PER_BLOCK;
    assert InodeOk(v, g.owner, dir, lay, g.nodes[dir]);
    NoTables(w.data, lay);
    assert OwnedAs(g.owner, lay.blks[m], dir, Data(m));
    forall x | 0 <= x < |lay.blks| ensures SlotsAre(w.data[lay.blks[x]], slots[k := s], x) {
      assert OwnedAs(g.owner, lay.blks[x], dir, Data(x));
      assert SlotsAre(v.data[lay.blks[x]], slots, x);
      if x == m {
        SlotsUpdate(v.data[lay.blks[m]], slots, k, s);
      } else {
        SlotsOther(v.data[lay.blks[x]], slots, k, s, x);
      }
    }
  }

  lemma SlotsOther(blk: Block, slots: seq<Slot>, k: nat, s: Slot, x: nat)
    requires SlotsAre(blk, slots, x) && k < |slots| && x != k / SLOTS_PER_BLOCK
    ensures SlotsAre(blk, slots[k := s], x)
  {
  }

  lemma SlotsUpdate(blk: Block, slots: seq<Slot>, k: nat, s: Slot)
    requires SlotsAre(blk, slots, k / SLOTS_PER_BLOCK) && k < |slots|
    requires s.ino < U32 && |s.name| <= MAX_NAME
    ensures SlotsAre(SetSlot(blk, k % SLOTS_PER_BLOCK, s), slots[k := s], k / SLOTS_PER_BLOCK)
  {
    hide SlotAt;
    var m, r := k / SLOTS_PER_BLOCK, SetSlot(blk, k % SLOTS_PER_BLOCK, s);
    forall i | 0 <= i < SLOTS_PER_BLOCK ensures SlotAt(r, i) == slots[k := s][SLOTS_PER_BLOCK * m + i] {
      if i != k % SLOTS_PER_BLOCK { assert SlotAt(r, i) == SlotAt(blk, i); }
    }
  }

  /** Overwrite slot `k` of a directory. */
  method PutSlot(vol: Volume, dir: nat, n: Inode, k: nat, s: Slot)
    requires vol.Valid() && Core(vol.v, vol.g) && dir in vol.g.nodes && vol.g.nodes[dir].Dir?
    requires k < |vol.g.nodes[dir].slots| && s.ino < U32 && |s.name| <= MAX_NAME
    requires dir < |vol.v.inodes| && n.direct == vol.v.inodes[dir].direct && |n.direct| == DIRECT_PTRS
    modifies vol`disk, vol`v, vol`g
    ensures vol.Valid() && Core(vol.v, vol.g)
    ensures vol.g == WithSlots(old(vol.g), dir, old(vol.g).nodes[dir].slots[k := s])
    ensures vol.v == old(vol.v).(data := vol.v.data) && |vol.v.data| == |old(vol.v).data|
    ensures Kept(old(vol.v), old(vol.g), vol.v, vol.g, dir)
  {
    hide Core, CoreExcept, Tied, InodeOk, SetSlot, Owns, Shaped, SlotsAre;
    DirScannable(vol.v, vol.g, dir);
    ghost var v, g := vol.v, vol.g;
    SlotOnDisk(v, g, dir, v.inodes[dir], g.nodes[dir].slots, k / SLOTS_PER_BLOCK, k % SLOTS_PER_BLOCK);
    DirBlockOwned(v, g, dir, k / SLOTS_PER_BLOCK);
    var blk := n.direct[k / SLOTS_PER_BLOCK];
    var page := vol.ReadBlock(blk);
    page := SetSlot(page, k % SLOTS_PER_BLOCK, s);
    CoreToExcept(v, g, dir);
    WriteFor(vol, dir, blk, page);
    SlotInodeOk(v, g, dir, k, s, page, vol.v);
    assert vol.v.(inodes := vol.v.inodes[dir := vol.v.inodes[dir]]) == vol.v;
    CommitInode(vol.v, vol.g, dir, vol.v.inodes[dir], Dir(g.nodes[dir].slots[k := s]));
    vol.g := WithSlots(vol.g, dir, g.nodes[dir].slots[k := s]);
  }

  lemma DirBlockOwned(v: View, g: State, dir: nat, m: nat)
    requires Core(v, g) && dir in g.nodes && g.nodes[dir].Dir? && m < |g.lays[dir].blks|
    ensures OwnedAs(g.owner, g.lays[dir].blks[m], dir, Data(m))
    ensures DirOk(v.inodes[dir], v.data, g.lays[dir], g.nodes[dir].slots)
  {
    assert InodeOk(v, g.owner, dir, g.lays[dir], g.nodes[dir]);
  }

  lemma NodeIsOk(v: View, g: State, ino: nat)
    requires Core(v, g) && ino in g.nodes
    ensures ino in g.lays && ino < |v.inodes| && InodeOk(v, g.owner, ino, g.lays[ino], g.nodes[ino])
  {
  }

  lemma GrownDirOk(v: View, g: State, dir: nat, n: Inode, b: nat, w: View, h: State)
    requires Core(v, g) && dir in g.nodes && g.nodes[dir].Dir? && |g.lays[dir].blks| < DIRECT_PTRS
    requires DATA_START <= b < |v.data| && b < U32 && b !in g.owner
    requires h == Grown(g, dir, Data(|g.lays[dir].blks|), b) && Owns(h.owner, dir, h.lays[dir])
    requires w.data == v.data[b := ZeroBlock()] && w.inodes == v.inodes && dir < |v.inodes|
    requires n == v.inodes[dir].(direct := v.inodes[dir].direct[|g.lays[dir].blks| := b],
               nblocks := v.inodes[dir].nblocks + 1)
    requires v.inodes[dir].Fits()
    ensures n.Fits()
    ensures InodeOk(w.(inodes := w.inodes[dir := n]), h.owner, dir, h.lays[dir],
              Dir(g.nodes[dir].slots + EmptySlots(SLOTS_PER_BLOCK)))
  {
    hide SlotsAre, Core, CoreExcept, Tables, Owns, EmptySlots;
    NodeIsOk(v, g, dir);
    var lay, slots := g.lays[dir], g.nodes[dir].slots;
    OwnsOf(v, g, dir);
    var lay', slots' := h.lays[dir], slots + EmptySlots(SLOTS_PER_BLOCK);
    NoTables(w.data, lay');
    forall x | 0 <= x < |lay'.blks| ensures SlotsAre(w.data[lay'.blks[x]], slots', x) {
      if x < |lay.blks| {
        DirBlockOwned(v, g, dir, x);
        SlotsExtend(v.data[lay.blks[x]], slots, x);
      } else {
        ZeroSlots(slots, x);
      }
    }
  }

  lemma SlotsExtend(blk: Block, slots: seq<Slot>, x: nat)
    requires SlotsAre(blk, slots, x)
    ensures SlotsAre(blk, slots + EmptySlots(SLOTS_PER_BLOCK), x)
  {
  }

  lemma ZeroSlots(slots: seq<Slot>, x: nat)
    requires |slots| == SLOTS_PER_BLOCK * x
    ensures SlotsAre(ZeroBlock(), slots + EmptySlots(SLOTS_PER_BLOCK), x)
  {
    ZeroBlockHasNoSlots();
  }

  /** Give a directory one more block of unused slots. */
  method GrowDir(vol: Volume, dir: nat, n0: Inode, m: nat) returns (ok: bool, n: Inode)
    requires vol.Valid() && Core(vol.v, vol.g) && dir in vol.g.nodes && vol.g.nodes[dir].Dir?
    requires dir < |vol.v.inodes| && n0 == vol.v.inodes[dir] && n0.Fits() && m == |vol.g.lays[dir].blks| < DIRECT_PTRS
    modifies vol`disk, vol`v, vol`g
    ensures ok <==> old(FreeBlocks(vol.v)) > 0
    ensures ok ==>
      && vol.Valid() && Core(vol.v, vol.g)
      && vol.g == WithSlots(old(vol.g), dir,
           old(vol.g).nodes[dir].slots + EmptySlots(SLOTS_PER_BLOCK)).(owner := vol.g.owner, lays := vol.g.lays)
      && Kept(old(vol.v), old(vol.g), vol.v, vol.g, dir) && FreeBlocks(vol.v) == old(FreeBlocks(vol.v)) - 1
      && dir < |vol.v.inodes| && n == vol.v.inodes[dir] && n.Fits()
      && n == n0.(direct := n.direct, nblocks := n.nblocks)
  {
    hide Core, CoreExcept, Tied, InodeOk, Owns, Shaped, Kept, OnlyLay, DirOk;
    ghost var v, g := vol.v, vol.g;
    n := n0;
    DirScannable(v, g, dir);
    CoreToExcept(v, g, dir);
    OwnsOf(v, g, dir);
    var b := AllocFor(vol, dir, Data(m));
    if b.None? { return false, n; }
    n := n.(direct := n.direct[m := b.value], nblocks := n.nblocks + 1);
    GrownDirOk(v, g, dir, n, b.value, vol.v, vol.g);
    SameLay(v, g, dir);
    GrowOnlyLay(v, g, v, g, vol.v, dir, Data(m), b.value);
    LayKeptDir(v, g, vol.v, vol.g, dir, n, g.nodes[dir].slots + EmptySlots(SLOTS_PER_BLOCK));
    CommitInode(vol.v, vol.g, dir, n, Dir(g.nodes[dir].slots + EmptySlots(SLOTS_PER_BLOCK)));
    vol.WriteInode(dir, n);
    vol.g := WithSlots(vol.g, dir, g.nodes[dir].slots + EmptySlots(SLOTS_PER_BLOCK));
    ok := true;
  }

  lemma OwnsOf(v: View, g: State, ino: nat)
    requires Core(v, g) && ino in g.lays
    ensures Owns(g.owner, ino, g.lays[ino]) && Shaped(g.lays[ino]) && Tight(g.lays[ino])
  {
    assert InodeOk(v, g.owner, ino, g.lays[ino], g.nodes[ino]);
  }

  lemma SameLay(v: View, g: State, ino: nat)
    ensures OnlyLay(v, g, v, g, ino)
  {
  }

  lemma LayKeptDir(v0: View, g0: State, v: View, g: State, dir: nat, n: Inode, slots: seq<Slot>)
    requires OnlyLay(v0, g0, v, g, dir) && dir < |v0.inodes|
    ensures |v.inodes| == |v0.inodes|
    ensures Kept(v0, g0, v.(inodes := v.inodes[dir := n]), WithSlots(g, dir, slots), dir)
    ensures g.nodes == g0.nodes && g.place == g0.place && g.rank == g0.rank
  {
  }

  lemma KeptTrans(v0: View, g0: State, v1: View, g1: State, v2: View, g2: State, ino: nat)
    requires Kept(v0, g0, v1, g1, ino) && Kept(v1, g1, v2, g2, ino)
    ensures Kept(v0, g0, v2, g2, ino)
  {
  }

  lemma KeptSelf(v: View, g: State, ino: nat)
    ensures Kept(v, g, v, g, ino)
  {
  }

  lemma KeptInode(v: View, g: State, ino: nat, n: Inode)
    requires ino < |v.inodes|
    ensures Kept(v, g, v.(inodes := v.inodes[ino := n]), g, ino)
  {
  }

  lemma ResizeDir(v: View, g: State, dir: nat, size: nat)
    requires Core(v, g) && dir in g.nodes && g.nodes[dir].Dir? && dir < |v.inodes|
    ensures Core(v.(inodes := v.inodes[dir := v.inodes[dir].(size := size)]), g)
  {
    var n := v.inodes[dir].(size := size);
    var w := v.(inodes := v.inodes[dir := n]);
    assert InodeOk(w, g.owner, dir, g.lays[dir], g.nodes[dir]) by {
      hide BitsOk, OwnersOk, Shaped, Tight, Tables, SlotsAre, Owns;
      assert InodeOk(v, g.owner, dir, g.lays[dir], g.nodes[dir]);
    }
    hide InodeOk;
    CoreToExcept(v, g, dir);
    CommitInode(v, g, dir, n, g.nodes[dir]);
    assert g.nodes[dir := g.nodes[dir]] == g.nodes;
    assert g.(nodes := g.nodes[dir := g.nodes[dir]]) == g;
  }

  lemma FirstOfEmpty(slots: seq<Slot>, k: nat)
    requires First(slots, Holds(0), 0) == |slots| && k > 0
    ensures First(slots + EmptySlots(k), Holds(0), 0) == |slots|
  {
    var t := slots + EmptySlots(k);
    var f := First(t, Holds(0), 0);
    assert forall j :: 0 <= j < |slots| ==> t[j] == slots[j];
    assert Holds(0)(t[|slots|]);
  }

  /** The inode of a directory that has got one more entry: its size has grown by the 32 bytes of a slot, and nothing
      else has changed but its blocks. */
  ghost predicate Recorded(n: Inode, m: Inode) {
    && m.size == (n.size + 32) % U64 && m.flags == n.flags && m.ctime == n.ctime && m.mtime == n.mtime
    && m.indirect == n.indirect && m.dindirect == n.dindirect
  }

  /** Slot `k` of the directory gets the entry; the directory's recorded size grows by one slot. */
  method FillSlot(vol: Volume, dir: nat, n: Inode, k: nat, s: Slot)
    requires vol.Valid() && Core(vol.v, vol.g) && dir in vol.g.nodes && vol.g.nodes[dir].Dir?
    requires dir < |vol.v.inodes| && n == vol.v.inodes[dir] && n.Fits() && dir < MAX_INODES
    requires k < |vol.g.nodes[dir].slots| && s.ino < U32 && |s.name| <= MAX_NAME
    modifies vol`disk, vol`v, vol`g
    ensures vol.Valid() && Core(vol.v, vol.g)
    ensures vol.g == WithSlots(old(vol.g), dir, old(vol.g).nodes[dir].slots[k := s])
    ensures vol.v.bbits == old(vol.v).bbits && FreeBlocks(vol.v) == old(FreeBlocks(vol.v))
    ensures Kept(old(vol.v), old(vol.g), vol.v, vol.g, dir)
    ensures dir < |vol.v.inodes| && Recorded(n, vol.v.inodes[dir])
  {
    hide Core, Tied, Kept;
    ghost var v, g := vol.v, vol.g;
    PutSlot(vol, dir, n, k, s);
    ghost var v1 := vol.v;
    var size := (n.size + SLOT_SIZE) % U64;
    ResizeDir(vol.v, vol.g, dir, size);
    KeptInode(vol.v, vol.g, dir, n.(size := size));
    vol.WriteInode(dir, n.(size := size));
    KeptTrans(v, g, v1, vol.g, vol.v, vol.g, dir);
  }

  /** Fill the first unused slot if block `m` has it. */
  method FillInBlock(vol: Volume, dir: nat, n: Inode, m: nat, s: Slot) returns (found: bool)
    requires vol.Valid() && Core(vol.v, vol.g) && dir in vol.g.nodes && vol.g.nodes[dir].Dir? && dir in vol.g.lays
    requires dir < |vol.v.inodes| && n == vol.v.inodes[dir] && n.Fits() && m < |vol.g.lays[dir].blks|
    requires s.ino < U32 && |s.name| <= MAX_NAME
    requires SLOTS_PER_BLOCK * m <= |vol.g.nodes[dir].slots|
    requires First(vol.g.nodes[dir].slots, Holds(0), 0) == First(vol.g.nodes[dir].slots, Holds(0), SLOTS_PER_BLOCK * m)
    modifies vol`disk, vol`v, vol`g
    ensures vol.Valid() && Core(vol.v, vol.g)
    ensures SLOTS_PER_BLOCK * (m + 1) <= |old(vol.g).nodes[dir].slots|
    ensures var slots := old(vol.g).nodes[dir].slots;
            var k := First(slots, Holds(0), 0);
            && (found <==> k < SLOTS_PER_BLOCK * (m + 1))
            && (found ==>
                 vol.g == WithSlots(old(vol.g), dir, slots[k := s]) && Kept(old(vol.v), old(vol.g), vol.v, vol.g, dir))
            && (!found ==> k == First(slots, Holds(0), SLOTS_PER_BLOCK * (m + 1)))
    ensures vol.v.bbits == old(vol.v).bbits && FreeBlocks(vol.v) == old(FreeBlocks(vol.v))
    ensures !found ==> vol.v == old(vol.v) && vol.g == old(vol.g) && vol.disk == old(vol.disk)
    ensures found ==> dir < |vol.v.inodes| && Recorded(n, vol.v.inodes[dir])
  {
    hide Core, Tied, Kept, Shaped, SlotsAre, FreeBlocks;
    DirScannable(vol.v, vol.g, dir);
    SlotOnDisk(vol.v, vol.g, dir, n, vol.g.nodes[dir].slots, m, SLOTS_PER_BLOCK - 1);
    var page := vol.ReadBlock(n.direct[m]);
    var i := ScanBlock(page, Holds(0), vol.g.nodes[dir].slots, m);
    found := i < SLOTS_PER_BLOCK;
    if found { FillSlot(vol, dir, n, SLOTS_PER_BLOCK * m + i, s); }
  }

  lemma BlocksOf(v: View, g: State, dir: nat)
    requires Core(v, g) && dir in g.nodes && g.nodes[dir].Dir?
    ensures dir < MAX_INODES && dir < |v.inodes| && dir in g.lays && |g.lays[dir].blks| <= DIRECT_PTRS
    ensures |g.nodes[dir].slots| == SLOTS_PER_BLOCK * |g.lays[dir].blks|
    ensures v.inodes[dir].Fits() ==>
      forall m :: 0 <= m < DIRECT_PTRS ==> (v.inodes[dir].direct[m] == 0 <==> m >= |g.lays[dir].blks|)
  {
    DirScannable(v, g, dir);
  }

  /** A full directory takes one more block, and the entry goes into its first slot. */
  method GrowAndFill(vol: Volume, dir: nat, n0: Inode, m: nat, s: Slot) returns (ok: bool)
    requires vol.Valid() && Core(vol.v, vol.g) && dir in vol.g.nodes && vol.g.nodes[dir].Dir? && dir in vol.g.lays
    requires dir < |vol.v.inodes| && n0 == vol.v.inodes[dir] && n0.Fits() && m == |vol.g.lays[dir].blks| < DIRECT_PTRS
    requires s.ino < U32 && |s.name| <= MAX_NAME
    requires First(vol.g.nodes[dir].slots, Holds(0), 0) == |vol.g.nodes[dir].slots|
    modifies vol`disk, vol`v, vol`g
    ensures ok <==> old(FreeBlocks(vol.v)) > 0
    ensures ok ==>
      && vol.Valid() && Core(vol.v, vol.g) && Kept(old(vol.v), old(vol.g), vol.v, vol.g, dir)
      && FreeBlocks(vol.v) == old(FreeBlocks(vol.v)) - 1
      && vol.g == WithSlots(old(vol.g), dir, AddSlot(old(vol.g).nodes[dir].slots, s)).(owner := vol.g.owner,
           lays := vol.g.lays)
      && dir < |vol.v.inodes| && Recorded(n0, vol.v.inodes[dir])
  {
    hide Core, Tied, Kept, FreeBlocks, AddSlot, EmptySlots, First;
    ghost var v, g, slots := vol.v, vol.g, vol.g.nodes[dir].slots;
    BlocksOf(v, g, dir);
    AddSlotAt(slots, s);
    var n;
    ok, n := GrowDir(vol, dir, n0, m);
    if !ok { return; }
    FirstOfEmpty(slots, SLOTS_PER_BLOCK);
    FirstFrom(slots + EmptySlots(SLOTS_PER_BLOCK), |slots|);
    BlocksOf(vol.v, vol.g, dir);
    ghost var v1, g1 := vol.v, vol.g;
    ok := FillInBlock(vol, dir, n, m, s);
    KeptTrans(v, g, v1, g1, vol.v, vol.g, dir);
  }

  lemma AddSlotAt(slots: seq<Slot>, s: Slot)
    ensures var k := First(slots, Holds(0), 0);
            AddSlot(slots, s) == if k < |slots| then slots[k := s] else (slots + EmptySlots(SLOTS_PER_BLOCK))[k := s]
  {
    assert (slots + EmptySlots(SLOTS_PER_BLOCK))[|slots| := s] == slots + [s] + EmptySlots(SLOTS_PER_BLOCK - 1);
  }

  /** Add an entry to a directory; fails (panics) exactly when the name is too long or
      there is neither an unused slot nor a block to add. */
  method AddDirEntry(vol: Volume, dir: nat, name: Str, ino: nat) returns (ok: bool)
    requires vol.Valid() && Core(vol.v, vol.g) && dir in vol.g.nodes && vol.g.nodes[dir].Dir? && 0 < ino < U32
    modifies vol`disk, vol`v, vol`g
    ensures ok <==> |name| <= MAX_NAME && HasRoom(old(vol.g).nodes[dir].slots, old(FreeBlocks(vol.v)))
    ensures ok ==>
      && vol.Valid() && Core(vol.v, vol.g)
      && vol.g == WithSlots(old(vol.g), dir,
           AddSlot(old(vol.g).nodes[dir].slots, Slot(ino, name))).(owner := vol.g.owner, lays := vol.g.lays)
      && Kept(old(vol.v), old(vol.g), vol.v, vol.g, dir)
      && (HasSlot(old(vol.g).nodes[dir].slots) ==>
           vol.v.bbits == old(vol.v).bbits && vol.g.owner == old(vol.g).owner && vol.g.lays == old(vol.g).lays)
      && FreeBlocks(vol.v) == old(FreeBlocks(vol.v)) - (if HasSlot(old(vol.g).nodes[dir].slots) then 0 else 1)
      && dir < |old(vol.v).inodes| && dir < |vol.v.inodes| && Recorded(old(vol.v).inodes[dir], vol.v.inodes[dir])
  {
    hide Core, Tied, Kept, FreeBlocks, AddSlot, EmptySlots, First, Recorded;
    if |name| > MAX_NAME { return false; }
    BlocksOf(vol.v, vol.g, dir);
    ghost var v, g, slots := vol.v, vol.g, vol.g.nodes[dir].slots;
    KeptSelf(v, g, dir);
    AddSlotAt(slots, Slot(ino, name));
    var n := vol.ReadInode(dir);
    var m := 0;
    while m < DIRECT_PTRS
      invariant 0 <= m <= |g.lays[dir].blks| && vol.v == v && vol.g == g && vol.disk == old(vol.disk)
      invariant n == v.inodes[dir] && n.Fits()
      invariant First(slots, Holds(0), 0) == First(slots, Holds(0), SLOTS_PER_BLOCK * m)
    {
      if n.direct[m] == 0 {
        FirstAtEnd(slots);
        ok := GrowAndFill(vol, dir, n, m, Slot(ino, name));
        return;
      }
      ok := FillInBlock(vol, dir, n, m, Slot(ino, name));
      if ok { return; }
      m := m + 1;
    }
    ok := false;
    FirstAtEnd(slots);
  }

  lemma FirstAtEnd(slots: seq<Slot>)
    ensures First(slots, Holds(0), |slots|) == |slots|
  {
  }

  lemma FirstFrom(slots: seq<Slot>, k: nat)
    requires First(slots, Holds(0), 0) == k < |slots|
    ensures First(slots, Holds(0), k) == k
  {
    assert Holds(0)(slots[k]);
  }

  ghost predicate HasSlot(slots: seq<Slot>) {
    First(slots, Holds(0), 0) < |slots|
  }

  ghost predicate HasRoom(slots: seq<Slot>, free: nat) {
    HasSlot(slots) || (|slots| < MAX_SLOTS && free > 0)
  }
}
