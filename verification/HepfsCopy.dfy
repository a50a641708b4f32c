/** Recursive copy: a tree of the same names and bytes under new inodes and new blocks. */
module HepfsCopy {
  import opened HepfsLayout
  import opened HepfsTypes
  import opened HepfsStore
  import opened HepfsState
  import opened HepfsNames
  import opened HepfsFile
  import opened HepfsRead
  import opened HepfsDir
  import opened HepfsTree
  import opened HepfsCreate
  import opened HepfsRemove
  import opened HepfsOps
  import opened HepfsContent

  ghost predicate IsDir(g: State, d: nat) {
    d in g.nodes && g.nodes[d].Dir?
  }

  /** The copy is not refused. */
  ghost predicate Copyable(g: State, from: nat, to: nat, name: Str, dest: Str)
    requires IsDir(g, from) && IsDir(g, to)
  {
    && Lookup(g.nodes[to].slots, dest).None?
    && Lookup(g.nodes[from].slots, name).Some? && Lookup(g.nodes[from].slots, name).value != to
  }

  /** Blocks the destination directory itself needs for one more entry. */
  ghost function Extra(slots: seq<Slot>): nat {
    if HasSlot(slots) then 0 else 1
  }

  ghost predicate Affordable(v: View, slots: seq<Slot>, dest: Str, t: Content)
    requires |v.ibits| >= MAX_INODES
  {
    && |dest| <= MAX_NAME && (HasSlot(slots) || |slots| < MAX_SLOTS)
    && BlockCost(t) + Extra(slots) <= FreeBlocks(v) && InodeCost(t) <= FreeInodes(v)
  }

  /** Inodes other than `to` hold what they held, and `to` has one more entry. */
  ghost predicate OneMore(g: State, h: State, to: nat, made: nat, dest: Str) {
    && IsDir(g, to) && made !in g.nodes
    && (forall i :: i in g.nodes && i != to ==> i in h.nodes && h.nodes[i] == g.nodes[i])
    && to in h.nodes && h.nodes[to] == Dir(AddSlot(g.nodes[to].slots, Slot(made, dest)))
  }

  /** `made` is a copy with content `t`, entered in `to` as `dest`, on fresh inodes. */
  ghost predicate CopyOf(v: View, g: State, w: View, h: State, to: nat, made: nat, dest: Str, t: Content) {
    && |v.ibits| >= MAX_INODES && |w.ibits| >= MAX_INODES
    && OneMore(g, h, to, made, dest)
    && HasContent(h.nodes, made, t, h.nodes.Keys - g.nodes.Keys)
    && Untouched(v, g, w, h, {to})
    && FreeBlocks(w) == FreeBlocks(v) - BlockCost(t) - Extra(g.nodes[to].slots)
    && FreeInodes(w) == FreeInodes(v) - InodeCost(t)
  }

  ghost predicate KidsCopied(nodes: map<nat, Node>, slots: seq<Slot>, kids: seq<Kid>, j: nat, F: set<nat>) {
    && j <= |kids| && Packed(slots, j)
    && forall m :: 0 <= m < j ==> slots[m].name == kids[m].name && HasContent(nodes, slots[m].ino, kids[m].content, F)
  }

  /** Directory `made` is being filled: it holds copies of the first `j` children. */
  ghost predicate Filling(v: View, g: State, w: View, h: State, to: nat, made: nat, dest: Str, kids: seq<Kid>,
                          j: nat) {
    && |v.ibits| >= MAX_INODES && |w.ibits| >= MAX_INODES && j <= |kids|
    && OneMore(g, h, to, made, dest)
    && IsDir(h, made) && |h.nodes[made].slots| == SLOTS_PER_BLOCK * DirBlocks(j)
    && KidsCopied(h.nodes, h.nodes[made].slots, kids, j, h.nodes.Keys - g.nodes.Keys - {made})
    && Untouched(v, g, w, h, {to})
    && FreeBlocks(w) == FreeBlocks(v) - Extra(g.nodes[to].slots) - DirBlocks(j) - KidBlocks(kids, j)
    && FreeInodes(w) == FreeInodes(v) - 1 - KidInodes(kids, j)
  }

  lemma KidsStep(g: State, h: State, h': State, made: nat, kids: seq<Kid>, j: nat, c: nat)
    requires IsDir(h, made) && j < |kids| && made !in g.nodes
    requires forall i :: i in g.nodes ==> i in h.nodes
    requires KidsCopied(h.nodes, h.nodes[made].slots, kids, j, h.nodes.Keys - g.nodes.Keys - {made})
    requires OneMore(h, h', made, c, kids[j].name) && c != 0
    requires HasContent(h'.nodes, c, kids[j].content, h'.nodes.Keys - h.nodes.Keys)
    ensures IsDir(h', made)
    ensures KidsCopied(h'.nodes, h'.nodes[made].slots, kids, j + 1, h'.nodes.Keys - g.nodes.Keys - {made})
  {
    hide HasContent, AddSlot, First;
    var F, F' := h.nodes.Keys - g.nodes.Keys - {made}, h'.nodes.Keys - g.nodes.Keys - {made};
    var slots, slots' := h.nodes[made].slots, h'.nodes[made].slots;
    PackedAdd(slots, j, Slot(c, kids[j].name));
    forall m | 0 <= m < j + 1
      ensures slots'[m].name == kids[m].name && HasContent(h'.nodes, slots'[m].ino, kids[m].content, F')
    {
      if m < j {
        assert slots'[..j][m] == slots[..j][m];
        ContentFrame(h.nodes, h'.nodes, slots[m].ino, kids[m].content, F, F');
      } else {
        ContentFrame(h'.nodes, h'.nodes, c, kids[j].content, h'.nodes.Keys - h.nodes.Keys, F');
      }
    }
  }

  lemma FillStep(v: View, g: State, w: View, h: State, w': View, h': State, to: nat, made: nat, dest: Str,
                 kids: seq<Kid>, j: nat, c: nat)
    requires Core(v, g) && Filling(v, g, w, h, to, made, dest, kids, j) && j < |kids| && made !in g.lays
    requires CopyOf(w, h, w', h', made, c, kids[j].name, kids[j].content) && c != 0
    ensures Filling(v, g, w', h', to, made, dest, kids, j + 1)
  {
    hide HasContent, Untouched, Core, KidsCopied, Packed, AddSlot, BlockCost, InodeCost, FreeBlocks, FreeInodes,
      HasSlot;
    KidsStep(g, h, h', made, kids, j, c);
    OwnersLive(v, g);
    UntouchedTrans(v, g, w, h, w', h', {to}, {made}, {to});
    PackedOf(h.nodes, h.nodes[made].slots, kids, j, h.nodes.Keys - g.nodes.Keys - {made});
    PackedAdd(h.nodes[made].slots, j, Slot(c, kids[j].name));
  }

  lemma PackedOf(nodes: map<nat, Node>, slots: seq<Slot>, kids: seq<Kid>, j: nat, F: set<nat>)
    requires KidsCopied(nodes, slots, kids, j, F)
    ensures Packed(slots, j)
  {
  }

  lemma FillDone(v: View, g: State, w: View, h: State, to: nat, made: nat, dest: Str, kids: seq<Kid>)
    requires Filling(v, g, w, h, to, made, dest, kids, |kids|)
    ensures CopyOf(v, g, w, h, to, made, dest, DirOf(kids))
  {
    hide Untouched, Packed, AddSlot, FreeBlocks, FreeInodes, HasSlot;
    var F := h.nodes.Keys - g.nodes.Keys - {made};
    var slots, n := h.nodes[made].slots, |kids|;
    PackedListing(slots, n);
    forall m | 0 <= m < n
      ensures Listing(slots)[m].name == kids[m].name
      ensures HasContent(h.nodes, Listing(slots)[m].ino, kids[m].content, h.nodes.Keys - g.nodes.Keys)
    {
      assert Listing(slots)[m] == slots[m];
      ContentFrame(h.nodes, h.nodes, slots[m].ino, kids[m].content, F, h.nodes.Keys - g.nodes.Keys);
    }
  }

  lemma FileFits(v: View, g: State, ino: nat)
    requires Core(v, g) && ino in g.nodes && g.nodes[ino].File?
    ensures BlocksFor(|g.nodes[ino].bytes|) <= MAX_FILE_BLOCKS
  {
    assert InodeOk(v, g.owner, ino, g.lays[ino], g.nodes[ino]);
  }

  lemma CreatedOneMore(g: State, h: State, to: nat, dest: Str, made: nat, node: Node)
    requires IsDir(g, to) && to in g.rank && made !in g.nodes && h.nodes == Created(g, to, dest, made, node).nodes
    ensures OneMore(g, h, to, made, dest) && made in h.nodes && h.nodes[made] == node
    ensures h.nodes.Keys == g.nodes.Keys + {made}
  {
  }

  /** Copy one file. */
  method CopyFile(vol: Volume, src: nat, to: nat, dest: Str) returns (r: Option<nat>)
    requires Good(vol) && IsDir(vol.g, to) && src in vol.g.nodes && vol.g.nodes[src].File?
    requires Lookup(vol.g.nodes[to].slots, dest).None?
    modifies vol
    ensures vol.generation == old(vol.generation) + 1 && |old(vol.v).ibits| >= MAX_INODES
    ensures r.Some? <==> Affordable(old(vol.v), old(vol.g).nodes[to].slots, dest, FileOf(old(vol.g).nodes[src].bytes))
    ensures r.Some? ==>
      && Good(vol) && r.value != 0
      && CopyOf(old(vol.v), old(vol.g), vol.v, vol.g, to, r.value, dest, FileOf(old(vol.g).nodes[src].bytes))
  {
    hide Core, Tied, Names, Untouched, First, AddSlot, FirstClear, Lookup, Kept, CopyOf, OneMore, FreeBlocks,
      FreeInodes, HasSlot;
    ghost var v, g := vol.v, vol.g;
    SizedCore(v, g);
    RootLive(g);
    FileFits(v, g, src);
    NodesLive(v, g);
    var data := ReadFile(vol, src);
    r := Create(vol, to, dest, false);
    if r.None? { return; }
    ghost var v1, g1 := vol.v, vol.g;
    SizedCore(v1, g1);
    CreatedOneMore(g, g1, to, dest, r.value, File([]));
    var ok := WriteFile(vol, r.value, data.value);
    if !ok { return None; }
    KeptUntouched(v1, g1, vol.v, vol.g, r.value);
    OwnersLive(v, g);
    UntouchedTrans(v, g, v1, g1, vol.v, vol.g, {to}, {r.value}, {to});
    SizedCore(vol.v, vol.g);
    SameInodes(v1, g1, vol.v, vol.g, r.value);
    FileCopied(v, g, vol.v, g1, vol.g, to, r.value, dest, data.value);
  }

  lemma FileCopied(v: View, g: State, w: View, g1: State, h: State, to: nat, made: nat, dest: Str,
                   bytes: seq<Byte>)
    requires |v.ibits| >= MAX_INODES && |w.ibits| >= MAX_INODES && OneMore(g, g1, to, made, dest)
    requires g1.nodes.Keys == g.nodes.Keys + {made} && h.nodes == g1.nodes[made := File(bytes)]
    requires Untouched(v, g, w, h, {to})
    requires FreeBlocks(w) == FreeBlocks(v) - BlockCost(FileOf(bytes)) - Extra(g.nodes[to].slots)
    requires FreeInodes(w) == FreeInodes(v) - InodeCost(FileOf(bytes))
    ensures CopyOf(v, g, w, h, to, made, dest, FileOf(bytes))
  {
    hide Untouched, AddSlot, BlockCost, InodeCost;
  }

  lemma SameInodes(v: View, g: State, w: View, h: State, ino: nat)
    requires Kept(v, g, w, h, ino) && |v.ibits| >= MAX_INODES
    ensures w.ibits == v.ibits && FreeInodes(w) == FreeInodes(v)
  {
  }

  lemma FillStart(v: View, g: State, w: View, h: State, to: nat, made: nat, dest: Str, kids: seq<Kid>)
    requires |v.ibits| >= MAX_INODES && |w.ibits| >= MAX_INODES
    requires OneMore(g, h, to, made, dest) && made in h.nodes && h.nodes[made] == Dir(EmptySlots(SLOTS_PER_BLOCK))
    requires Untouched(v, g, w, h, {to})
    requires FreeInodes(w) == FreeInodes(v) - 1 && FreeBlocks(w) == FreeBlocks(v) - 1 - Extra(g.nodes[to].slots)
    ensures Filling(v, g, w, h, to, made, dest, kids, 0)
  {
    hide Untouched, AddSlot;
  }

  /** What the recursion knows of the source: it has content `t`, on inodes `S` that do not include `to`. */
  ghost predicate Source(g: State, src: nat, to: nat, t: Content, S: set<nat>) {
    HasContent(g.nodes, src, t, S) && S <= g.nodes.Keys && to !in S
  }

  lemma SourceKept(g: State, h: State, src: nat, to: nat, t: Content, S: set<nat>, made: nat, dest: Str)
    requires Source(g, src, to, t, S) && OneMore(g, h, to, made, dest)
    ensures HasContent(h.nodes, src, t, S) && S <= h.nodes.Keys && made !in S && src != made
  {
    hide AddSlot;
    ContentFrame(g.nodes, h.nodes, src, t, S, S);
  }

  /** Child `j` of the source, seen from the partly filled copy `made`. */
  lemma ChildReady(v: View, g: State, w: View, h: State, src: nat, to: nat, made: nat, dest: Str, kids: seq<Kid>,
                   j: nat, S: set<nat>)
    requires Source(g, src, to, DirOf(kids), S) && Names(h) && j < |kids|
    requires Filling(v, g, w, h, to, made, dest, kids, j)
    ensures IsDir(h, src) && IsDir(h, made)
    ensures var e := Listing(h.nodes[src].slots);
      && j < |e| && e[j].name == kids[j].name && e[j].ino != made
      && Lookup(h.nodes[src].slots, e[j].name) == Some(e[j].ino)
      && Lookup(h.nodes[made].slots, e[j].name).None?
      && Source(h, e[j].ino, made, kids[j].content, S)
  {
    hide Untouched, AddSlot, Tree, First, Lookup;
    SourceKept(g, h, src, to, DirOf(kids), S, made, dest);
    var e := Listing(h.nodes[src].slots);
    ListingLookup(h.nodes[src].slots, j);
    assert HasContent(h.nodes, e[j].ino, kids[j].content, S);
    var slots := h.nodes[made].slots;
    forall k | 0 <= k < |slots| ensures slots[k].ino == 0 || slots[k].name != e[j].name {
      if k < j { assert slots[k].name == kids[k].name == e[k].name; }
    }
    NoLookup(slots, e[j].name);
  }

  lemma NoLookup(slots: seq<Slot>, name: Str)
    requires forall k :: 0 <= k < |slots| ==> slots[k].ino == 0 || slots[k].name != name
    ensures Lookup(slots, name).None?
  {
  }

  /** While filling, the next child is affordable exactly when its own cost is. */
  lemma ChildCost(v: View, g: State, w: View, h: State, to: nat, made: nat, dest: Str, kids: seq<Kid>, j: nat)
    requires Filling(v, g, w, h, to, made, dest, kids, j) && j < |kids| <= MAX_SLOTS && |kids[j].name| <= MAX_NAME
    requires !Affordable(w, h.nodes[made].slots, kids[j].name, kids[j].content)
    ensures |v.ibits| >= MAX_INODES && IsDir(g, to) && !Affordable(v, g.nodes[to].slots, dest, DirOf(kids))
  {
    hide Untouched, AddSlot, First;
    PackedOf(h.nodes, h.nodes[made].slots, kids, j, h.nodes.Keys - g.nodes.Keys - {made});
    PackedAdd(h.nodes[made].slots, j, Slot(1, []));
    KidsGrow(kids, j + 1, |kids|);
  }

  lemma KidNames(v: View, g: State, src: nat, kids: seq<Kid>, S: set<nat>)
    requires Core(v, g) && HasContent(g.nodes, src, DirOf(kids), S)
    ensures |kids| <= MAX_SLOTS && forall j :: 0 <= j < |kids| ==> |kids[j].name| <= MAX_NAME
  {
    hide InodeOk;
    var slots := g.nodes[src].slots;
    ListingSize(slots);
    DirScannable(v, g, src);
    forall j | 0 <= j < |kids| ensures |kids[j].name| <= MAX_NAME {
      var k := ListingIndex(slots, j);
      StoredName(v, g, src, k);
    }
  }

  // ---- every inode of a tree has a content ---------------------------------------------

  lemma {:induction false} RankBound(rank: map<nat, nat>) returns (top: nat)
    ensures forall n :: n in rank ==> rank[n] <= top
    decreases |rank|
  {
    if rank == map[] { return 0; }
    var n :| n in rank;
    var rest := rank - {n};
    assert rest.Keys == rank.Keys - {n};
    assert |rest.Keys| < |rank.Keys|;
    var t := RankBound(rest);
    top := if rank[n] > t then rank[n] else t;
    forall m | m in rank ensures rank[m] <= top { if m != n { assert m in rest; } }
  }

  /** The inodes at or below `x`. */
  ghost function Subtree(g: State, x: nat): set<nat>
    requires Tree(g)
  {
    set n | n in g.nodes && Under(g, x, n)
  }

  /** An entry of a directory below `x` is below `x`, one rank further down. */
  lemma EntryBelow(g: State, x: nat, d: nat, j: nat)
    requires Tree(g) && IsDir(g, d) && Under(g, x, d) && j < |Listing(g.nodes[d].slots)|
    ensures var i := Listing(g.nodes[d].slots)[j].ino; i in g.nodes && Under(g, x, i) && g.rank[d] < g.rank[i]
  {
    var k := ListingIndex(g.nodes[d].slots, j);
    assert IsSlot(g.nodes, d, k);
    var i := g.nodes[d].slots[k].ino;
    assert g.place[i] == Place(d, k);
  }

  lemma {:induction false} ContentBelow(g: State, x: nat, i: nat, top: nat) returns (t: Content)
    requires Tree(g) && i in g.nodes && Under(g, x, i) && forall n :: n in g.rank ==> g.rank[n] <= top
    ensures HasContent(g.nodes, i, t, Subtree(g, x))
    decreases top - g.rank[i], 1, 0
  {
    match g.nodes[i]
    case File(bytes) => t := FileOf(bytes);
    case Dir(slots) =>
      var kids := KidsBelow(g, x, i, top, |Listing(slots)|);
      t := DirOf(kids);
  }

  lemma {:induction false} KidsBelow(g: State, x: nat, d: nat, top: nat, j: nat) returns (kids: seq<Kid>)
    requires Tree(g) && IsDir(g, d) && Under(g, x, d) && (forall n :: n in g.rank ==> g.rank[n] <= top)
    requires j <= |Listing(g.nodes[d].slots)|
    ensures |kids| == j
    ensures forall m :: 0 <= m < j ==>
      && Listing(g.nodes[d].slots)[m].name == kids[m].name
      && HasContent(g.nodes, Listing(g.nodes[d].slots)[m].ino, kids[m].content, Subtree(g, x))
    decreases top - g.rank[d], 0, j
  {
    hide Tree, Under, HasContent, Listing;
    if j == 0 { return []; }
    var front := KidsBelow(g, x, d, top, j - 1);
    var e := Listing(g.nodes[d].slots)[j - 1];
    EntryBelow(g, x, d, j - 1);
    RanksOf(g);
    var t := ContentBelow(g, x, e.ino, top);
    kids := front + [Kid(e.name, t)];
  }

  lemma RanksOf(g: State)
    requires Tree(g)
    ensures g.rank.Keys == g.nodes.Keys
  {
  }

  lemma HasSource(g: State, x: nat, to: nat) returns (t: Content, S: set<nat>)
    requires Tree(g) && x in g.nodes && to in g.nodes && !Under(g, x, to)
    ensures S == Subtree(g, x) && Source(g, x, to, t, S)
  {
    var top := RankBound(g.rank);
    S := Subtree(g, x);
    t := ContentBelow(g, x, x, top);
  }

  // ---- copying a directory below itself ------------------------------------------------------

  /** A used slot stays where it is, so what it names stays where it was. */
  lemma PlaceKept(g: State, h: State, to: nat, made: nat, dest: Str, n: nat)
    requires Tree(g) && Tree(h) && OneMore(g, h, to, made, dest) && n in g.place
    ensures n in h.place && h.place[n] == g.place[n]
  {
    hide RanksOk, AddSlot, First;
    var p := g.place[n];
    assert NamedAt(g.nodes, p, n);
    AddSlotPlaces(g.nodes[to].slots, Slot(made, dest));
    assert IsSlot(h.nodes, p.dir, p.slot) && h.nodes[p.dir].slots[p.slot].ino == n;
  }

  lemma {:induction false} UnderSame(g: State, h: State, to: nat, made: nat, dest: Str, x: nat, n: nat)
    requires Tree(g) && Tree(h) && OneMore(g, h, to, made, dest) && n in g.nodes
    ensures n in h.nodes && (Under(h, x, n) <==> Under(g, x, n))
    decreases g.rank[n]
  {
    hide PlacesOk, SlotsOk, AddSlot, First;
    if n in g.place {
      PlaceKept(g, h, to, made, dest, n);
      PlaceLives(g, n);
      UnderSame(g, h, to, made, dest, x, g.place[n].dir);
    }
  }

  lemma PlaceLives(g: State, n: nat)
    requires Tree(g) && n in g.place
    ensures IsDir(g, g.place[n].dir) && g.rank[g.place[n].dir] < g.rank[n]
  {
    assert NamedAt(g.nodes, g.place[n], n);
  }

  /** The new directory lies below whatever its parent lies below. */
  lemma MadeUnder(g: State, h: State, to: nat, made: nat, dest: Str, x: nat)
    requires Tree(g) && Tree(h) && OneMore(g, h, to, made, dest) && made != 0 && x in g.nodes
    ensures made in h.nodes && (Under(h, x, made) <==> Under(g, x, to))
  {
    hide RanksOk, AddSlot, First;
    var k := First(g.nodes[to].slots, Holds(0), 0);
    AddSlotPlaces(g.nodes[to].slots, Slot(made, dest));
    assert IsSlot(h.nodes, to, k) && h.nodes[to].slots[k].ino == made;
    assert h.place[made] == Place(to, k);
    UnderSame(g, h, to, made, dest, x, to);
  }

  /** On the way down from `src` to `n` there is an entry of `src`. */
  lemma {:induction false} PathChild(g: State, src: nat, n: nat) returns (p: nat)
    requires Tree(g) && src in g.nodes && n in g.nodes && Under(g, src, n) && n != src
    ensures IsDir(g, src) && p < |Listing(g.nodes[src].slots)|
    ensures var c := Listing(g.nodes[src].slots)[p].ino; c in g.nodes && Under(g, c, n)
    decreases g.rank[n]
  {
    hide SlotsOk, RanksOk, Listing;
    PlaceLives(g, n);
    var d := g.place[n].dir;
    if d == src {
      assert NamedAt(g.nodes, g.place[n], n);
      var e := g.nodes[src].slots[g.place[n].slot];
      assert e in Listing(g.nodes[src].slots);
      p :| 0 <= p < |Listing(g.nodes[src].slots)| && Listing(g.nodes[src].slots)[p] == e;
    } else {
      p := PathChild(g, src, d);
    }
  }

  /** The first entry of `src` that has `n` below it. */
  lemma FirstPathChild(g: State, src: nat, n: nat) returns (p: nat)
    requires Tree(g) && src in g.nodes && n in g.nodes && Under(g, src, n) && n != src
    ensures IsDir(g, src) && p < |Listing(g.nodes[src].slots)| && OnPath(g, src, n, p)
  {
    hide Tree, Listing, Under;
    var q := PathChild(g, src, n);
    p := 0;
    while p < q && !Under(g, Listing(g.nodes[src].slots)[p].ino, n)
      invariant 0 <= p <= q && forall j :: 0 <= j < p ==> !Under(g, Listing(g.nodes[src].slots)[j].ino, n)
    {
      p := p + 1;
    }
  }

  ghost predicate OnPath(g: State, src: nat, n: nat, p: nat)
    requires Tree(g) && IsDir(g, src) && n in g.nodes
  {
    var l := Listing(g.nodes[src].slots);
    p < |l| && Under(g, l[p].ino, n) && forall j :: 0 <= j < p ==> !Under(g, l[j].ino, n)
  }

  /** How the recursion goes on: below the source, where it cannot end, or with what it knows of the source. */
  datatype Plan = Plan(below: bool, t: Content, S: set<nat>)

  ghost predicate Planned(g: State, src: nat, to: nat, p: Plan)
    requires Tree(g) && to in g.nodes
  {
    if p.below then src in g.nodes && src != to && Under(g, src, to) else Source(g, src, to, p.t, p.S)
  }

  /** Directory `made`, below the source, is being filled: it holds no name but those of the first `j` children. */
  ghost predicate Sinking(g: State, h: State, to: nat, made: nat, dest: Str, list: seq<Slot>, j: nat) {
    && OneMore(g, h, to, made, dest) && IsDir(h, made) && made != 0 && j <= |list|
    && forall k :: 0 <= k < |h.nodes[made].slots| && h.nodes[made].slots[k].ino != 0 ==>
         exists m :: 0 <= m < j && list[m].name == h.nodes[made].slots[k].name
  }

  lemma SinkStart(g: State, h: State, to: nat, made: nat, dest: Str, list: seq<Slot>)
    requires OneMore(g, h, to, made, dest) && made in h.nodes && h.nodes[made] == Dir(EmptySlots(SLOTS_PER_BLOCK))
    requires made != 0
    ensures Sinking(g, h, to, made, dest, list, 0)
  {
    hide AddSlot;
  }

  lemma SinkStep(g: State, h: State, h': State, to: nat, made: nat, dest: Str, list: seq<Slot>, j: nat, c: nat)
    requires Sinking(g, h, to, made, dest, list, j) && j < |list| && OneMore(h, h', made, c, list[j].name)
    ensures Sinking(g, h', to, made, dest, list, j + 1)
  {
    hide AddSlot, First;
    var slots, slots' := h.nodes[made].slots, h'.nodes[made].slots;
    AddSlotPlaces(slots, Slot(c, list[j].name));
    var f := First(slots, Holds(0), 0);
    forall k | 0 <= k < |slots'| && slots'[k].ino != 0
      ensures exists m :: 0 <= m < j + 1 && list[m].name == slots'[k].name
    {
      if k == f {
        assert list[j].name == slots'[k].name;
      } else {
        var m :| 0 <= m < j && list[m].name == slots[k].name;
      }
    }
  }

  /** The next child: one that does not lead to the destination has a content to copy; the one that does
      leads further down. */
  lemma SinkChild(g: State, h: State, src: nat, to: nat, made: nat, dest: Str, j: nat, p: nat) returns (q: Plan)
    requires Names(g) && Names(h) && IsDir(g, src) && src != to && to in g.nodes && OnPath(g, src, to, p) && j <= p
    requires Sinking(g, h, to, made, dest, Listing(g.nodes[src].slots), j)
    ensures IsDir(h, src) && h.nodes[src] == g.nodes[src] && q.below == (j == p)
    ensures var e := Listing(h.nodes[src].slots)[j];
      && Lookup(h.nodes[src].slots, e.name) == Some(e.ino) && Lookup(h.nodes[made].slots, e.name).None?
      && e.ino != made && e.ino in h.nodes && Planned(h, e.ino, made, q)
  {
    hide AddSlot, First, Lookup, Tree, Under, Listing, Subtree, UniqueNames;
    var l := Listing(g.nodes[src].slots);
    var e := l[j];
    ListingLookup(g.nodes[src].slots, j);
    LookupPlace(g, src, e.name);
    NoneYet(h.nodes[made].slots, l, j);
    MadeUnder(g, h, to, made, dest, e.ino);
    if j == p {
      q := Plan(true, FileOf([]), {});
    } else {
      var t, S := HasSource(h, e.ino, made);
      q := Plan(false, t, S);
    }
  }

  lemma NoneYet(slots: seq<Slot>, list: seq<Slot>, j: nat)
    requires j < |list| && forall i :: 0 <= i < j ==> list[i].name != list[j].name
    requires forall k :: 0 <= k < |slots| && slots[k].ino != 0 ==>
               exists m :: 0 <= m < j && list[m].name == slots[k].name
    ensures Lookup(slots, list[j].name).None?
  {
    hide Lookup;
    NoLookup(slots, list[j].name);
  }

  // ---- the recursion ---------------------------------------------------------------------------

  /** Copy a directory and, in listing order, everything in it. Below itself this never ends but in a panic. */
  method CopyDir(vol: Volume, src: nat, to: nat, dest: Str, ghost p: Plan) returns (r: Option<nat>)
    requires Good(vol) && IsDir(vol.g, to) && IsDir(vol.g, src) && Planned(vol.g, src, to, p)
    requires !p.below ==> p.t.DirOf?
    requires Lookup(vol.g.nodes[to].slots, dest).None? && |vol.v.ibits| >= MAX_INODES
    modifies vol
    ensures vol.generation > old(vol.generation)
    ensures p.below ==> r.None?
    ensures !p.below ==> (r.Some? <==> Affordable(old(vol.v), old(vol.g).nodes[to].slots, dest, p.t))
    ensures r.Some? ==>
      Good(vol) && r.value != 0 && CopyOf(old(vol.v), old(vol.g), vol.v, vol.g, to, r.value, dest, p.t)
    decreases FreeInodes(vol.v), 0
  {
    hide Core, Tied, Names, Untouched, First, AddSlot, FirstClear, Lookup, HasContent, Listing, Filling, Packed,
      FreeInodes, FreeBlocks, Tree, Under,
      Sinking, OnPath, Source, Affordable;
    ghost var v, g := vol.v, vol.g;
    RootLive(g);
    TreeOf(g);
    NodesLive(v, g);
    ghost var path: nat := 0;
    if p.below { path := FirstPathChild(g, src, to); } else { KnownSource(v, g, src, to, p); }
    r := Create(vol, to, dest, true);
    if r.None? {
      if !p.below { NoRoom(v, g, to, dest, p.t); }
      return None;
    }
    var made := r.value;
    SizedCore(vol.v, vol.g);
    CreatedOneMore(g, vol.g, to, dest, made, Dir(EmptySlots(SLOTS_PER_BLOCK)));
    SourceStill(g, vol.g, src, to, made, dest);
    var l := ListDir(vol, src);
    ghost var list := l.value;
    if p.below {
      SinkStart(g, vol.g, to, made, dest, list);
    } else {
      FillStart(v, g, vol.v, vol.g, to, made, dest, p.t.kids);
    }
    var j := 0;
    while j < |l.value|
      invariant 0 <= j <= |l.value| && Good(vol) && vol.generation > old(vol.generation) && |vol.v.ibits| >= MAX_INODES
      invariant l == Some(list) && IsDir(vol.g, src) && vol.g.nodes[src] == g.nodes[src] && IsDir(vol.g, made)
      invariant FreeInodes(vol.v) < FreeInodes(v)
      invariant if p.below then Sinking(g, vol.g, to, made, dest, list, j) && j <= path
                else |list| == |p.t.kids| && Filling(v, g, vol.v, vol.g, to, made, dest, p.t.kids, j)
    {
      ghost var w, h := vol.v, vol.g;
      var name := l.value[j].name;
      ghost var q := NextChild(v, g, w, h, src, to, made, dest, p, j, path);
      var c := CopyInto(vol, src, made, name, name, q);
      if c.None? {
        if !p.below { ChildCost(v, g, w, h, to, made, dest, p.t.kids, j); }
        return None;
      }
      NextDone(v, g, w, h, vol.v, vol.g, src, to, made, dest, p, q, j, path, list, c.value.value);
      j := j + 1;
    }
    if !p.below {
      FillDone(v, g, vol.v, vol.g, to, made, dest, p.t.kids);
      Paid(v, g, vol.v, vol.g, to, made, dest, p.t);
    }
  }

  lemma SourceIsDir(g: State, src: nat, t: Content, S: set<nat>)
    requires HasContent(g.nodes, src, t, S) && t.DirOf?
    ensures IsDir(g, src) && |Listing(g.nodes[src].slots)| == |t.kids|
  {
  }

  lemma SourceStill(h: State, h': State, src: nat, made: nat, c: nat, name: Str)
    requires IsDir(h, src) && OneMore(h, h', made, c, name) && src != made
    ensures IsDir(h', src) && h'.nodes[src] == h.nodes[src]
  {
    hide AddSlot;
  }

  lemma KnownSource(v: View, g: State, src: nat, to: nat, p: Plan)
    requires Core(v, g) && !p.below && p.t.DirOf? && Source(g, src, to, p.t, p.S)
    ensures IsDir(g, src) && |Listing(g.nodes[src].slots)| == |p.t.kids| && src != to && |p.t.kids| <= MAX_SLOTS
    ensures forall j :: 0 <= j < |p.t.kids| ==> |p.t.kids[j].name| <= MAX_NAME
  {
    hide Core, HasContent, Listing;
    KidNames(v, g, src, p.t.kids, p.S);
    SourceIsDir(g, src, p.t, p.S);
    assert HasContent(g.nodes, src, p.t, p.S) ==> src in p.S by { SourceIn(g, src, p.t, p.S); }
  }

  lemma SourceIn(g: State, src: nat, t: Content, S: set<nat>)
    requires HasContent(g.nodes, src, t, S)
    ensures src in S
  {
  }

  /** A directory that can be paid for can be made. */
  lemma NoRoom(v: View, g: State, to: nat, dest: Str, t: Content)
    requires IsDir(g, to) && |v.ibits| >= MAX_INODES && t.DirOf?
    ensures Affordable(v, g.nodes[to].slots, dest, t) ==>
      FreeInodes(v) > 0 && |dest| <= MAX_NAME && FreeBlocks(v) > 0 && HasRoom(g.nodes[to].slots, FreeBlocks(v) - 1)
  {
  }

  /** What has been copied was affordable. */
  lemma Paid(v: View, g: State, w: View, h: State, to: nat, made: nat, dest: Str, t: Content)
    requires CopyOf(v, g, w, h, to, made, dest, t) && |dest| <= MAX_NAME
    requires HasSlot(g.nodes[to].slots) || |g.nodes[to].slots| < MAX_SLOTS
    ensures Affordable(v, g.nodes[to].slots, dest, t)
  {
    hide HasContent, Untouched, OneMore, BlockCost, InodeCost, HasSlot;
  }

  lemma NextChild(v: View, g: State, w: View, h: State, src: nat, to: nat, made: nat, dest: Str, p: Plan, j: nat,
                  path: nat)
    returns (q: Plan)
    requires Names(g) && Names(h) && IsDir(g, src) && to in g.nodes && Planned(g, src, to, p)
    requires !p.below ==> p.t.DirOf?
    requires j < |Listing(g.nodes[src].slots)| && IsDir(h, src) && h.nodes[src] == g.nodes[src] && IsDir(h, made)
    requires p.below ==>
      OnPath(g, src, to, path) && j <= path && Sinking(g, h, to, made, dest, Listing(g.nodes[src].slots), j)
    requires !p.below ==>
      |Listing(g.nodes[src].slots)| == |p.t.kids| && Filling(v, g, w, h, to, made, dest, p.t.kids, j)
    ensures var e := Listing(g.nodes[src].slots)[j];
      && Copyable(h, src, made, e.name, e.name)
      && Lookup(h.nodes[src].slots, e.name) == Some(e.ino)
      && Planned(h, e.ino, made, q)
      && (!p.below ==> e.name == p.t.kids[j].name)
    ensures if p.below then q.below == (j == path) else q == Plan(false, p.t.kids[j].content, p.S)
  {
    hide HasContent, Listing, Filling, Tree, Under, Sinking, OnPath, Lookup, UniqueNames;
    if p.below {
      q := SinkChild(g, h, src, to, made, dest, j, path);
    } else {
      ChildReady(v, g, w, h, src, to, made, dest, p.t.kids, j, p.S);
      q := Plan(false, p.t.kids[j].content, p.S);
    }
  }

  lemma NextDone(v: View, g: State, w: View, h: State, w': View, h': State, src: nat, to: nat, made: nat,
                 dest: Str, p: Plan, q: Plan,
                 j: nat, path: nat, list: seq<Slot>, c: nat)
    requires Core(v, g) && made !in g.lays && made !in g.nodes && IsDir(g, src) && IsDir(h, src)
    requires h.nodes[src] == g.nodes[src]
    requires j < |list| && (!p.below ==> p.t.DirOf? && j < |p.t.kids| && list[j].name == p.t.kids[j].name)
    requires CopyOf(w, h, w', h', made, c, list[j].name, q.t) && c != 0 && !q.below
    requires if p.below then Sinking(g, h, to, made, dest, list, j) && j < path
             else q.t == p.t.kids[j].content && Filling(v, g, w, h, to, made, dest, p.t.kids, j)
    ensures |w'.ibits| >= MAX_INODES && FreeInodes(w') < FreeInodes(w) && IsDir(h', src)
    ensures h'.nodes[src] == g.nodes[src] && IsDir(h', made)
    ensures if p.below then Sinking(g, h', to, made, dest, list, j + 1)
            else Filling(v, g, w', h', to, made, dest, p.t.kids, j + 1)
  {
    hide Core, HasContent, Filling, Sinking, Untouched, FreeBlocks, FreeInodes, AddSlot, BlockCost;
    SourceStill(h, h', src, made, c, list[j].name);
    if p.below {
      SinkStep(g, h, h', to, made, dest, list, j, c);
    } else {
      FillStep(v, g, w, h, w', h', to, made, dest, p.t.kids, j, c);
    }
  }

  /** `copy_entry`: `Some(None)` refuses, `None` is the panic on lack of space. */
  method CopyInto(vol: Volume, from: nat, to: nat, name: Str, dest: Str, ghost p: Plan)
    returns (r: Option<Option<nat>>)
    requires Good(vol) && IsDir(vol.g, from) && IsDir(vol.g, to) && |vol.v.ibits| >= MAX_INODES
    requires Copyable(vol.g, from, to, name, dest) ==>
      Planned(vol.g, Lookup(vol.g.nodes[from].slots, name).value, to, p)
    modifies vol
    ensures vol.generation >= old(vol.generation)
    ensures Copyable(old(vol.g), from, to, name, dest) ==> vol.generation > old(vol.generation)
    ensures r == Some(None) <==> !Copyable(old(vol.g), from, to, name, dest)
    ensures r == Some(None) ==> Good(vol) && vol.disk == old(vol.disk) && vol.g == old(vol.g)
    ensures r == None <==>
      && Copyable(old(vol.g), from, to, name, dest)
      && (p.below || !Affordable(old(vol.v), old(vol.g).nodes[to].slots, dest, p.t))
    ensures r.Some? && r.value.Some? ==>
      && Good(vol) && r.value.value != 0
      && CopyOf(old(vol.v), old(vol.g), vol.v, vol.g, to, r.value.value, dest, p.t)
    decreases FreeInodes(vol.v), 1
  {
    hide Core, Tied, Names, Untouched, First, AddSlot, Lookup, Listing, Tree, Under, FreeInodes, FreeBlocks, Affordable;
    var taken := FindInDir(vol, to, dest);
    if taken.Some? { return Some(None); }
    var src := FindInDir(vol, from, name);
    if src.None? || src.value == to { return Some(None); }
    TreeOf(vol.g);
    LookupPlace(vol.g, from, name);
    FileReadable(vol.v, vol.g, src.value);
    if p.below { ghost var c := PathChild(vol.g, src.value, to); }
    var n := vol.ReadInode(src.value);
    var made;
    if n.flags == F_DIR {
      made := CopyDir(vol, src.value, to, dest, p);
    } else {
      made := CopyFile(vol, src.value, to, dest);
    }
    r := if made.None? then None else Some(made);
  }

  /** Copy an entry.  Into a directory that does not lie below it, the copy has the content of the source,
      on inodes and blocks that were free; the source has the content it had, and every inode but the
      destination directory is as it was.  Below itself, which the code does not refuse, the recursion
      goes on until space runs out: the call succeeds if and only if the destination is not below
      the source and there is room. */
  method CopyEntry(vol: Volume, from: nat, to: nat, name: Str, dest: Str)
    returns (r: Option<Option<nat>>, ghost t: Content)
    requires Good(vol) && IsDir(vol.g, from) && IsDir(vol.g, to)
    modifies vol
    ensures vol.generation >= old(vol.generation) && |old(vol.v).ibits| >= MAX_INODES
    ensures Copyable(old(vol.g), from, to, name, dest) ==> vol.generation > old(vol.generation)
    ensures r == Some(None) <==> !Copyable(old(vol.g), from, to, name, dest)
    ensures r == Some(None) ==> Good(vol) && vol.disk == old(vol.disk) && vol.g == old(vol.g)
    ensures Copyable(old(vol.g), from, to, name, dest) ==>
      var src := Lookup(old(vol.g).nodes[from].slots, name).value;
      && src in old(vol.g).nodes && HasContent(old(vol.g).nodes, src, t, Subtree(old(vol.g), src))
      && (r.Some? <==> !Under(old(vol.g), src, to) && Affordable(old(vol.v), old(vol.g).nodes[to].slots, dest, t))
      && (r.Some? ==>
           && Good(vol) && CopyOf(old(vol.v), old(vol.g), vol.v, vol.g, to, r.value.value, dest, t)
           && HasContent(vol.g.nodes, src, t, Subtree(old(vol.g), src)))
  {
    hide Core, Tied, Untouched, First, AddSlot, Lookup, Tree, Under, HasContent, Subtree, BlockCost, InodeCost,
      FreeInodes, FreeBlocks, Affordable;
    ghost var g, src, p := vol.g, ROOT, Plan(false, FileOf([]), {});
    SizedCore(vol.v, g);
    t := p.t;
    if Copyable(g, from, to, name, dest) {
      LookupPlace(g, from, name);
      src := Lookup(g.nodes[from].slots, name).value;
      p := HasPlan(g, src, to);
      t := p.t;
    }
    r := CopyInto(vol, from, to, name, dest, p);
    if r.Some? && r.value.Some? {
      SourceKept(g, vol.g, src, to, t, p.S, r.value.value, dest);
    }
  }

  lemma HasPlan(g: State, x: nat, to: nat) returns (p: Plan)
    requires Tree(g) && x in g.nodes && to in g.nodes && x != to
    ensures Planned(g, x, to, p) && HasContent(g.nodes, x, p.t, Subtree(g, x)) && (p.below <==> Under(g, x, to))
    ensures p.S == Subtree(g, x)
  {
    hide Tree, Under, HasContent;
    var top := RankBound(g.rank);
    UnderSelf(g, x);
    var t := ContentBelow(g, x, x, top);
    p := Plan(Under(g, x, to), t, Subtree(g, x));
    if !p.below { NotInSubtree(g, x, to); }
  }

  lemma UnderSelf(g: State, x: nat)
    requires Tree(g) && x in g.nodes
    ensures Under(g, x, x)
  {
  }

  lemma NotInSubtree(g: State, x: nat, to: nat)
    requires Tree(g) && to in g.nodes && !Under(g, x, to)
    ensures to !in Subtree(g, x) && Subtree(g, x) <= g.nodes.Keys
  {
  }
}
