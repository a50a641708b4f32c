/** Whole runs of file-system operations: every run of a well-behaved client keeps the
    invariant and refines the abstract steps, a file manager's cached listing never
    goes stale, and creating, writing and removing a file gives everything back. */
module HepfsRuns {
  import opened HepfsLayout
  import opened HepfsTypes
  import opened HepfsStore
  import opened HepfsState
  import opened HepfsNames
  import opened HepfsFile
  import opened HepfsRead
  import opened HepfsDir
  import opened HepfsCreate
  import opened HepfsRemove
  import opened HepfsOps
  import opened HepfsContent
  import opened HepfsCopy
  import opened HepfsFormat
  import opened HepfsCalls

  // ---- runs ------------------------------------------------------------------------

  /** A client decides what to call next from what its calls have given back so far, or stops. */
  type Client = seq<Outcome> -> Option<Op>

  /** On a disk of `disk` blocks `h` can be reached from `g` by a run of the client in which no call panicked and
      the calls gave back `hist`. */
  ghost predicate Reach(disk: nat, g: State, client: Client, hist: seq<Outcome>, h: State)
    decreases |hist|
  {
    if hist == [] then h == g
    else exists m: State :: Follows(disk, g, client, hist, m, h)
  }

  ghost predicate Follows(disk: nat, g: State, client: Client, hist: seq<Outcome>, m: State, h: State)
    requires hist != []
    decreases |hist|, 0
  {
    var past := hist[..|hist| - 1];
    && Reach(disk, g, client, past, m) && Names(m) && client(past).Some?
    && Allowed(m, client(past).value) && !Panics(disk, m, client(past).value)
    && Step(m, client(past).value, hist[|hist| - 1], h)
  }

  /** A client whose every call is allowed in every state its earlier calls can lead to. */
  ghost predicate WellBehaved(disk: nat, g: State, client: Client) {
    forall hist: seq<Outcome>, m: State ::
      Reach(disk, g, client, hist, m) && Names(m) && client(hist).Some? ==> Allowed(m, client(hist).value)
  }

  /** After the calls that gave back `hist`, the next one panics in the state they have led to. */
  ghost predicate Stuck(disk: nat, g: State, client: Client, hist: seq<Outcome>) {
    client(hist).Some? && exists m: State :: StuckIn(disk, g, client, hist, m)
  }

  ghost predicate StuckIn(disk: nat, g: State, client: Client, hist: seq<Outcome>, m: State)
    requires client(hist).Some?
  {
    && Reach(disk, g, client, hist, m) && Names(m)
    && Allowed(m, client(hist).value) && Panics(disk, m, client(hist).value)
  }

  /** A window's cached listing, filled when the generation was `gen`. */
  datatype Info = Info(ino: nat, name: Name, isDir: bool)

  class Nav {
    var cacheIno: Option<nat>
    var cacheGen: nat
    var cacheEntries: seq<Info>

    constructor ()
      ensures cacheIno == None
    {
      cacheIno, cacheGen, cacheEntries := None, 0, [];
    }
  }

  /** The entries list directory `d` as it is now. */
  ghost predicate Agrees(g: State, d: nat, entries: seq<Info>) {
    && IsDir(g, d)
    && var l := Listing(g.nodes[d].slots);
    && |entries| == |l|
    && forall j :: 0 <= j < |l| ==>
         l[j].ino in g.nodes && entries[j] == Info(l[j].ino, l[j].name, g.nodes[l[j].ino].Dir?)
  }

  /** The cache is older than the volume, or it is right. */
  ghost predicate CacheOk(nav: Nav, vol: Volume)
    reads nav, vol
  {
    && (nav.cacheIno.Some? ==> nav.cacheGen <= vol.generation)
    && (nav.cacheIno.Some? && nav.cacheGen == vol.generation && nav.cacheIno.value in vol.g.nodes ==>
          Agrees(vol.g, nav.cacheIno.value, nav.cacheEntries))
  }

  lemma SameListing(g: State, h: State, d: nat, entries: seq<Info>)
    requires SameDirs(g, h) && Agrees(g, d, entries)
    ensures Agrees(h, d, entries)
  {
  }

  /** The first calls of a client, until `limit`, its end or a panic.  Every run of a
      well-behaved client keeps the invariant, the cache of any window stays right, and the run ends in a
      panic exactly when its next call is one that panics in the state reached. */
  method Run(vol: Volume, nav: Nav, client: Client, limit: nat) returns (hist: seq<Outcome>, panicked: bool)
    requires Good(vol) && WellBehaved(|vol.disk|, vol.g, client) && CacheOk(nav, vol)
    modifies vol
    ensures |hist| <= limit
    ensures panicked ==> |hist| < limit && Stuck(|old(vol.disk)|, old(vol.g), client, hist)
    ensures !panicked ==>
      && Good(vol) && Reach(|old(vol.disk)|, old(vol.g), client, hist, vol.g) && CacheOk(nav, vol)
      && (|hist| == limit || client(hist).None?)
  {
    hide Core, Tied, Names, Tree, Allowed, Step, Agrees, Panics, SameDirs;
    ghost var disk := |vol.disk|;
    hist, panicked := [], false;
    while |hist| < limit && client(hist).Some?
      invariant |hist| <= limit && Good(vol) && |vol.disk| == disk && CacheOk(nav, vol)
      invariant Reach(disk, old(vol.g), client, hist, vol.g)
      decreases limit - |hist|
    {
      ghost var g := vol.g;
      TreeOf(g);
      var out := Apply(vol, client(hist).value);
      if out.None? {
        assert StuckIn(disk, old(vol.g), client, hist, g);
        return hist, true;
      }
      ReachMore(disk, old(vol.g), client, hist, g, out.value, vol.g);
      if vol.generation == nav.cacheGen && nav.cacheIno.Some? {
        CacheKept(g, vol.g, nav.cacheIno.value, nav.cacheEntries);
      }
      hist := hist + [out.value];
    }
  }

  lemma CacheKept(g: State, h: State, d: nat, entries: seq<Info>)
    requires SameDirs(g, h) && (d in g.nodes ==> Agrees(g, d, entries))
    ensures d in h.nodes ==> Agrees(h, d, entries)
  {
    hide Agrees;
    if d in h.nodes { SameListing(g, h, d, entries); }
  }

  lemma ReachMore(disk: nat, g: State, client: Client, hist: seq<Outcome>, m: State, out: Outcome, h: State)
    requires Reach(disk, g, client, hist, m) && Names(m) && client(hist).Some?
    requires Allowed(m, client(hist).value) && !Panics(disk, m, client(hist).value)
    requires Step(m, client(hist).value, out, h)
    ensures Reach(disk, g, client, hist + [out], h)
  {
    hide Names, Tree, Allowed, Step, Panics;
    assert (hist + [out])[..|hist + [out]| - 1] == hist;
    assert Follows(disk, g, client, hist + [out], m, h);
  }

  /** A volume that holds an empty root directory of one block and nothing else. */
  ghost predicate Blank(g: State) {
    Names(g) && g.nodes == map[ROOT := Dir(EmptySlots(SLOTS_PER_BLOCK))] && |g.owner.Keys| == 1
  }

  /** Whatever the disk held: format it, and let any client run that behaves on a blank volume. */
  method RunFromFormat(vol: Volume, client: Client, limit: nat) returns (hist: seq<Outcome>, panicked: bool)
    requires vol.Valid() && forall g :: Blank(g) ==> WellBehaved(|vol.disk|, g, client)
    modifies vol
    ensures |hist| <= limit
    ensures panicked ==> |hist| < limit && exists g :: Blank(g) && Stuck(|old(vol.disk)|, g, client, hist)
    ensures !panicked ==>
      && Good(vol) && (|hist| == limit || client(hist).None?)
      && exists g :: Blank(g) && Reach(|old(vol.disk)|, g, client, hist, vol.g)
  {
    hide Core, Tied, Names, Tree, Reach, WellBehaved, Stuck;
    Format(vol);
    ghost var g := vol.g;
    assert Blank(g);
    var nav := new Nav();
    hist, panicked := Run(vol, nav, client, limit);
  }

  lemma ListedLive(g: State, d: nat, j: nat)
    requires Tree(g) && IsDir(g, d) && j < |Listing(g.nodes[d].slots)|
    ensures Listing(g.nodes[d].slots)[j].ino in g.nodes
  {
    var k := ListingIndex(g.nodes[d].slots, j);
    assert IsSlot(g.nodes, d, k);
  }

  /** `list_dir_with_info`: the listing with each entry's kind looked up. */
  method ListWithInfo(vol: Volume, d: nat) returns (out: seq<Info>)
    requires Good(vol) && IsDir(vol.g, d)
    ensures Agrees(vol.g, d, out)
  {
    hide Core, Tied, Tree, Listing;
    var l := ListDir(vol, d);
    out := [];
    var j := 0;
    while j < |l.value|
      invariant 0 <= j <= |l.value| && |out| == j
      invariant forall m :: 0 <= m < j ==>
                  && l.value[m].ino in vol.g.nodes
                  && out[m] == Info(l.value[m].ino, l.value[m].name, vol.g.nodes[l.value[m].ino].Dir?)
    {
      ListedLive(vol.g, d, j);
      FileReadable(vol.v, vol.g, l.value[j].ino);
      var n := vol.ReadInode(l.value[j].ino);
      out := out + [Info(l.value[j].ino, l.value[j].name, n.flags == F_DIR)];
      j := j + 1;
    }
  }

  /** `hepfs_list_dir_cached`: cached or not, the entries are those of the directory now. */
  method ListCached(vol: Volume, nav: Nav, d: nat) returns (out: seq<Info>)
    requires Good(vol) && IsDir(vol.g, d) && CacheOk(nav, vol)
    modifies nav
    ensures Agrees(vol.g, d, out) && CacheOk(nav, vol)
  {
    hide Core, Tied, Names, Agrees;
    if nav.cacheIno == Some(d) && nav.cacheGen == vol.generation { return nav.cacheEntries; }
    out := ListWithInfo(vol, d);
    nav.cacheIno, nav.cacheGen, nav.cacheEntries := Some(d), vol.generation, out;
  }

  /** What is written to a file is what is read from it. */
  method WriteThenRead(vol: Volume, ino: nat, data: seq<Byte>) returns (r: Option<seq<Byte>>)
    requires Good(vol) && ino in vol.g.nodes && vol.g.nodes[ino].File?
    requires BlocksFor(|data|) <= MAX_FILE_BLOCKS && Need(|vol.g.lays[ino].blks|, |data|) <= FreeBlocks(vol.v)
    modifies vol`disk, vol`v, vol`g
    ensures r == Some(data)
  {
    hide Core, Tied, Names, Need, Kept;
    var ok := WriteFile(vol, ino, data);
    r := ReadFile(vol, ino);
  }

  // ---- give and take -------------------------------------------------------------------

  lemma SameBitmaps(v: View, g: State, w: View, h: State)
    requires Core(v, g) && Core(w, h) && g.owner.Keys == h.owner.Keys && g.lays.Keys == h.lays.Keys
    ensures w.bbits == v.bbits && w.ibits == v.ibits
  {
    hide InodeOk;
    forall b | 0 <= b < |v.bbits| ensures w.bbits[b] == v.bbits[b] {}
    forall i | 0 <= i < |v.ibits| ensures w.ibits[i] == v.ibits[i] {}
  }

  /** Setting an unused slot and clearing it again leaves the listing. */
  lemma {:induction false} ListingRestored(slots: seq<Slot>, k: nat)
    requires k < |slots| && slots[k].ino == 0
    ensures Listing(slots[k := EMPTY_SLOT]) == Listing(slots)
  {
    var n, t := |slots| - 1, slots[k := EMPTY_SLOT];
    ListingStep(slots, n);
    ListingStep(t, n);
    assert slots[..n + 1] == slots && t[..n + 1] == t;
    if k == n {
      assert t[..n] == slots[..n];
    } else {
      ListingRestored(slots[..n], k);
      assert t[..n] == slots[..n][k := EMPTY_SLOT];
    }
  }

  lemma FoundAgain(slots: seq<Slot>, ino: nat, name: Name)
    requires HasSlot(slots) && Lookup(slots, name).None? && ino != 0
    ensures var r, k := AddSlot(slots, Slot(ino, name)), First(slots, Holds(0), 0);
      && r == slots[k := Slot(ino, name)] && First(r, Named(name), 0) == k && Lookup(r, name) == Some(ino)
      && r[k := EMPTY_SLOT] == slots[k := EMPTY_SLOT] && slots[k].ino == 0
  {
    var r, k := AddSlot(slots, Slot(ino, name)), First(slots, Holds(0), 0);
    assert Holds(0)(slots[k]);
    var f := First(r, Named(name), 0);
    assert Named(name)(r[k]);
    assert forall j :: 0 <= j < k ==> r[j] == slots[j];
  }

  /** Create a file, write any content, remove it: both bitmaps are restored bit for bit
      and so is the directory's listing, provided the directory needed no new block. */
  method CreateWriteRemove(vol: Volume, parent: nat, name: Name, data: seq<Byte>) returns (ok: bool)
    requires Good(vol) && IsDir(vol.g, parent) && Lookup(vol.g.nodes[parent].slots, name).None?
    requires HasSlot(vol.g.nodes[parent].slots)
    modifies vol
    ensures ok <==> old(FreeInodes(vol.v)) > 0 && |name| <= MAX_NAME && BlocksFor(|data|) <= MAX_FILE_BLOCKS
                    && Need(0, |data|) <= old(FreeBlocks(vol.v))
    ensures ok ==>
      && Good(vol) && vol.v.bbits == old(vol.v).bbits && vol.v.ibits == old(vol.v).ibits
      && IsDir(vol.g, parent) && Listing(vol.g.nodes[parent].slots) == Listing(old(vol.g).nodes[parent].slots)
      && (forall i :: i in old(vol.g).nodes && i != parent ==>
           i in vol.g.nodes && vol.g.nodes[i] == old(vol.g).nodes[i])
      && vol.g.nodes.Keys == old(vol.g).nodes.Keys
  {
    hide Tied, Core, Names, Untouched, Lookup, First, AddSlot, Listing, FirstClear, Kept, Created, Removed, Removable,
      FullSize;
    ghost var v, g := vol.v, vol.g;
    NodesLive(v, g);
    OwnersLive(v, g);
    RootLive(g);
    var r := Create(vol, parent, name, false);
    if r.None? { return false; }
    var ino := r.value;
    ghost var v1, g1 := vol.v, vol.g;
    FileEntered(g, g1, parent, name, ino);
    ok := WriteFile(vol, ino, data);
    if !ok { return; }
    ghost var v2, g2 := vol.v, vol.g;
    StillThere(g, g1, g2, parent, name, ino, data);
    var gone := Remove(vol, parent, name);
    Gone(g, g1, g2, vol.g, parent, name, ino, data);
    GivenBack(g, v1, g1, v2, g2, vol.g, parent, ino);
    SameBitmaps(v, g, vol.v, vol.g);
  }

  lemma FileEntered(g: State, g1: State, parent: nat, name: Name, ino: nat)
    requires IsDir(g, parent) && parent in g.rank && ino !in g.nodes
    requires g1.nodes == Created(g, parent, name, ino, File([])).nodes
    ensures ino in g1.nodes && g1.nodes[ino] == File([])
  {
  }

  lemma StillThere(g: State, g1: State, g2: State, parent: nat, name: Name, ino: nat, data: seq<Byte>)
    requires IsDir(g, parent) && parent in g.rank && ino !in g.nodes && ino != 0
    requires HasSlot(g.nodes[parent].slots) && Lookup(g.nodes[parent].slots, name).None?
    requires g1.nodes == Created(g, parent, name, ino, File([])).nodes && g2.nodes == g1.nodes[ino := File(data)]
    ensures IsDir(g2, parent) && Removable(g2, parent, name) && Lookup(g2.nodes[parent].slots, name) == Some(ino)
    ensures First(g2.nodes[parent].slots, Named(name), 0) == First(g.nodes[parent].slots, Holds(0), 0)
  {
    hide First, AddSlot, Lookup;
    FoundAgain(g.nodes[parent].slots, ino, name);
  }

  lemma Gone(g: State, g1: State, g2: State, h: State, parent: nat, name: Name, ino: nat, data: seq<Byte>)
    requires IsDir(g, parent) && parent in g.rank && ino !in g.nodes && ino != 0
    requires HasSlot(g.nodes[parent].slots) && Lookup(g.nodes[parent].slots, name).None?
    requires g1.nodes == Created(g, parent, name, ino, File([])).nodes && g2.nodes == g1.nodes[ino := File(data)]
    requires var k := First(g.nodes[parent].slots, Holds(0), 0);
             IsSlot(g2.nodes, parent, k) && h.nodes == Removed(g2, parent, k, ino).nodes
    ensures IsDir(h, parent) && Listing(h.nodes[parent].slots) == Listing(g.nodes[parent].slots)
    ensures h.nodes.Keys == g.nodes.Keys
    ensures forall i :: i in g.nodes && i != parent ==> i in h.nodes && h.nodes[i] == g.nodes[i]
  {
    hide First, AddSlot, Lookup, Listing;
    FoundAgain(g.nodes[parent].slots, ino, name);
    ListingRestored(g.nodes[parent].slots, First(g.nodes[parent].slots, Holds(0), 0));
  }

  lemma GivenBack(g: State, v1: View, g1: State, v2: View, g2: State, h: State, parent: nat, ino: nat)
    requires g1.owner == g.owner && ino !in g.lays && (forall b :: b in g.owner ==> g.owner[b].ino in g.lays)
    requires g1.lays.Keys == g.lays.Keys + {ino} && Kept(v1, g1, v2, g2, ino)
    requires exists k :: IsSlot(g2.nodes, parent, k) && h == Removed(g2, parent, k, ino)
    ensures h.owner.Keys == g.owner.Keys && h.lays.Keys == g.lays.Keys
  {
  }
}
