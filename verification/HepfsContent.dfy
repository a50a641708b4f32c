/** The tree of names and bytes below an inode, and what it costs to copy it. */
module HepfsContent {
  import opened HepfsLayout
  import opened HepfsTypes
  import opened HepfsState
  import opened HepfsNames
  import opened HepfsFile
  import opened HepfsDir

  datatype Content = FileOf(bytes: seq<Byte>) | DirOf(kids: seq<Kid>)
  datatype Kid = Kid(name: Str, content: Content)

  /** Inode `i` is the root of a tree with content `t`, all of whose inodes are in `S`. */
  ghost predicate HasContent(nodes: map<nat, Node>, i: nat, t: Content, S: set<nat>)
    decreases t
  {
    && i in S && i in nodes
    && match t
       case FileOf(bytes) => nodes[i] == File(bytes)
       case DirOf(kids) =>
         && nodes[i].Dir?
         && var l := Listing(nodes[i].slots);
         && |l| == |kids|
         && forall j :: 0 <= j < |kids| ==> l[j].name == kids[j].name && HasContent(nodes, l[j].ino, kids[j].content, S)
  }

  /** A tree depends only on its own inodes. */
  lemma {:induction false} ContentFrame(a: map<nat, Node>, b: map<nat, Node>, i: nat, t: Content, S: set<nat>,
                                        T: set<nat>)
    requires HasContent(a, i, t, S) && S <= T
    requires forall n :: n in S && n in a ==> n in b && b[n] == a[n]
    ensures HasContent(b, i, t, T)
    decreases t
  {
    if t.DirOf? {
      var l := Listing(a[i].slots);
      forall j | 0 <= j < |t.kids| ensures HasContent(b, l[j].ino, t.kids[j].content, T) {
        ContentFrame(a, b, l[j].ino, t.kids[j].content, S, T);
      }
    }
  }

  /** An inode has at most one content. */
  lemma {:induction false} OneContent(nodes: map<nat, Node>, i: nat, t: Content, u: Content, S: set<nat>)
    requires HasContent(nodes, i, t, S) && HasContent(nodes, i, u, S)
    ensures t == u
    decreases t
  {
    if t.DirOf? {
      var l := Listing(nodes[i].slots);
      forall j | 0 <= j < |t.kids| ensures t.kids[j] == u.kids[j] {
        OneContent(nodes, l[j].ino, t.kids[j].content, u.kids[j].content, S);
      }
    }
  }

  // ---- cost ------------------------------------------------------------------------

  /** Blocks of a directory with `n` entries that were added one after another. */
  function DirBlocks(n: nat): (b: nat)
    ensures b >= 1
  {
    if n == 0 then 1 else (n + SLOTS_PER_BLOCK - 1) / SLOTS_PER_BLOCK
  }

  function BlockCost(t: Content): (c: nat)
    decreases t, 0
  {
    match t
    case FileOf(bytes) => FullSize(BlocksFor(|bytes|))
    case DirOf(kids) => DirBlocks(|kids|) + KidBlocks(kids, |kids|)
  }

  function KidBlocks(kids: seq<Kid>, j: nat): (c: nat)
    requires j <= |kids|
    decreases kids, j
  {
    if j == 0 then 0 else KidBlocks(kids, j - 1) + BlockCost(kids[j - 1].content)
  }

  function InodeCost(t: Content): (c: nat)
    ensures c >= 1
    decreases t, 0
  {
    match t
    case FileOf(_) => 1
    case DirOf(kids) => 1 + KidInodes(kids, |kids|)
  }

  function KidInodes(kids: seq<Kid>, j: nat): (c: nat)
    requires j <= |kids|
    decreases kids, j
  {
    if j == 0 then 0 else KidInodes(kids, j - 1) + InodeCost(kids[j - 1].content)
  }

  lemma {:induction false} KidsGrow(kids: seq<Kid>, i: nat, j: nat)
    requires i <= j <= |kids|
    ensures KidBlocks(kids, i) <= KidBlocks(kids, j) && KidInodes(kids, i) <= KidInodes(kids, j)
    decreases j
  {
    if i < j { KidsGrow(kids, i, j - 1); }
  }

  // ---- freshly filled directories ------------------------------------------------------

  /** The first `n` slots are used, the others are not. */
  ghost predicate Packed(slots: seq<Slot>, n: nat) {
    && n <= |slots|
    && (forall j :: 0 <= j < n ==> slots[j].ino != 0)
    && (forall j :: n <= j < |slots| ==> slots[j].ino == 0)
  }

  lemma PackedFirst(slots: seq<Slot>, n: nat)
    requires Packed(slots, n)
    ensures First(slots, Holds(0), 0) == n
  {
    var f := First(slots, Holds(0), 0);
    assert f >= n;
    assert n < |slots| ==> Holds(0)(slots[n]);
  }

  lemma PackedAdd(slots: seq<Slot>, n: nat, s: Slot)
    requires Packed(slots, n) && s.ino != 0
    ensures var r := AddSlot(slots, s);
      && Packed(r, n + 1) && r[n] == s && r[..n] == slots[..n]
      && |r| == (if n < |slots| then |slots| else |slots| + SLOTS_PER_BLOCK)
      && (HasSlot(slots) <==> n < |slots|)
  {
    PackedFirst(slots, n);
  }

  lemma {:induction false} PackedListing(slots: seq<Slot>, n: nat)
    requires Packed(slots, n)
    ensures Listing(slots) == slots[..n]
  {
    if slots != [] {
      var init := slots[..|slots| - 1];
      if n == |slots| {
        PackedListing(init, n - 1);
        assert init[..n - 1] + [slots[n - 1]] == slots[..n];
      } else {
        PackedListing(init, n);
        assert init[..n] == slots[..n];
      }
    }
  }

  // ---- listings ------------------------------------------------------------------------

  lemma {:induction false} ListingSize(slots: seq<Slot>)
    ensures |Listing(slots)| <= |slots|
  {
    if slots != [] { ListingSize(slots[..|slots| - 1]); }
  }

  /** Entry `j` of the listing sits in a used slot, and later entries in later slots. */
  lemma {:induction false} ListingIndex(slots: seq<Slot>, j: nat) returns (k: nat)
    requires j < |Listing(slots)|
    ensures k < |slots| && slots[k] == Listing(slots)[j] && slots[k].ino != 0
    ensures Listing(slots[..k]) == Listing(slots)[..j]
  {
    var n := |slots| - 1;
    var front := Listing(slots[..n]);
    if j < |front| {
      k := ListingIndex(slots[..n], j);
      assert slots[..n][..k] == slots[..k];
      assert Listing(slots)[..j] == front[..j];
    } else {
      k := n;
      assert Listing(slots)[..j] == front;
    }
  }

  /** With unique names, an entry of the listing is what its name resolves to, and no
      earlier entry has its name. */
  lemma ListingLookup(slots: seq<Slot>, j: nat)
    requires UniqueNames(slots) && j < |Listing(slots)|
    ensures Lookup(slots, Listing(slots)[j].name) == Some(Listing(slots)[j].ino)
    ensures forall i :: 0 <= i < j ==> Listing(slots)[i].name != Listing(slots)[j].name
  {
    var k := ListingIndex(slots, j);
    var e := slots[k];
    var f := First(slots, Named(e.name), 0);
    assert Named(e.name)(slots[k]);
    assert slots[f].ino != 0 && slots[f].name == e.name;
    forall i | 0 <= i < j ensures Listing(slots)[i].name != e.name {
      var m := ListingIndex(slots[..k], i);
      assert slots[m] == Listing(slots)[i];
    }
  }
}
