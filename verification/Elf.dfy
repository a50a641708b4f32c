/** The ELF loader: page-by-page loading through the page tables equals the flat image. */
module Elf {
  import opened Paging
  import opened ElfFormat

  const LOW_PAGES: nat := 0x8_0000_0000

  datatype Result = Ok(entry: nat, pages: seq<nat>) | Err(error: Error)

  function V(q: nat): VPage { PageOf(q * PAGE) }

  lemma LowPages(p: nat, q: nat)
    requires p < LOW_PAGES && q < LOW_PAGES
    ensures V(p)[0] < 256 && (V(p) == V(q) <==> p == q)
  {
    PageOfInjective(p * PAGE, q * PAGE);
  }

  /** Page number to frame, in the order the pages were first needed. */
  type PageMap = seq<(nat, nat)>

  ghost predicate Has(pm: PageMap, q: nat) { exists j :: 0 <= j < |pm| && pm[j].0 == q }

  /** Page `q` of the space translates to frame `f`, readable and writable from user mode. */
  ghost predicate Backs(tables: Tables, root: nat, q: nat, f: nat) {
    var e := Walk(tables, root, V(q));
    e.Some? && e.value.frame == f && e.value.user && e.value.write
  }

  ghost predicate Empty(tables: Tables, root: nat, q: nat) {
    Walk(tables, root, V(q)) == None && UserPath(tables, root, V(q))
  }

  /** User mode can walk to every low page. */
  ghost predicate LowUser(tables: Tables, root: nat) {
    forall q :: 0 <= q < LOW_PAGES ==> UserPath(tables, root, V(q))
  }

  /** A leaf that user mode reaches has USER all the way. */
  lemma {:induction false} UserSeen(tables: Tables, t: nat, path: seq<nat>)
    requires Walk(tables, t, path).Some? && Walk(tables, t, path).value.user
    ensures UserPath(tables, t, path)
    decreases |path|
  {
    if |path| > 1 { UserSeen(tables, tables[t][path[0]].frame, path[1..]); }
  }

  lemma LowUserSame(t0: Tables, t1: Tables, sh: Shape, root: nat)
    requires LowUser(t0, root) && SameUser(t0, t1, sh) && root in sh.users
    ensures LowUser(t1, root)
  {
    hide UserPath, V;
    forall q | 0 <= q < LOW_PAGES
      ensures UserPath(t1, root, V(q))
    {
      assert Page(sh, root, V(q)) && UserPath(t0, root, V(q));
    }
  }

  /** Page `v` can be written from user mode. */
  ghost predicate Writable(tables: Tables, root: nat, v: VPage) {
    var e := Walk(tables, root, v);
    e.Some? && e.value.user && e.value.write
  }

  /** Whatever user mode can write is one of `own`. */
  ghost predicate Confined(tables: Tables, root: nat, own: set<nat>) {
    forall v: VPage :: Writable(tables, root, v) ==> Walk(tables, root, v).value.frame in own
  }

  ghost predicate Distinct(pm: PageMap) {
    forall i, j :: 0 <= i < j < |pm| ==> pm[i].0 != pm[j].0 && pm[i].1 != pm[j].1
  }

  /** What a load can count on: `low` that the file stays in the lower half, `bare` that user mode could write
      nothing in the space before, `apart` that no two pages of the file have the same indices. */
  datatype Mode = Mode(low: bool, bare: bool, apart: bool)

  /** Page `q` of the space translates to frame `f`. */
  ghost predicate Shown(tables: Tables, root: nat, q: nat, f: nat) {
    var e := Walk(tables, root, V(q));
    e.Some? && e.value.frame == f
  }

  /** No page of `pm` has the indices of page `q`. */
  ghost predicate Unlike(pm: PageMap, q: nat) { forall j :: 0 <= j < |pm| ==> V(pm[j].0) != V(q) }

  /** The low half of the space is exactly `pm`, if nothing went anywhere else. */
  ghost predicate SpaceIs(tables: Tables, data: map<nat, seq<Byte>>, root: nat, pm: PageMap, c: Mode) {
    && Distinct(pm) && LowUser(tables, root)
    && (forall j :: 0 <= j < |pm| ==> pm[j].1 in data)
    && (c.low ==> forall j :: 0 <= j < |pm| ==> pm[j].0 < LOW_PAGES && Backs(tables, root, pm[j].0, pm[j].1))
    && (c.low ==> forall q :: 0 <= q < LOW_PAGES && !Has(pm, q) ==> Empty(tables, root, q))
    && (c.bare ==> Confined(tables, root, Owned(pm)))
    && (c.apart ==> forall j :: 0 <= j < |pm| ==> Shown(tables, root, pm[j].0, pm[j].1))
  }

  /** Memory before the load. */
  datatype Before = Before(tables: Tables, shape: Shape, data: map<nat, seq<Byte>>, free: set<nat>)

  /** The load has touched nothing but this space's low half, if it stayed there, and frames that were free. */
  ghost predicate Framed(b: Before, mem: Memory, root: nat, pm: PageMap, c: Mode)
    reads mem
  {
    && Extends(b.shape, mem.shape) && mem.free <= b.free && UpperKept(b.tables, mem.tables, b.shape)
    && (c.low ==> Elsewhere(b.tables, mem.tables, b.shape, root))
    && (forall f :: f in b.data ==> f in mem.data && mem.data[f] == b.data[f])
    && (forall j :: 0 <= j < |pm| ==> pm[j].1 in b.free && pm[j].1 !in b.data)
  }

  /** Every frame taken from the free pool is now a page of the space or a page table. */
  ghost predicate Accounted(b: Before, tables: Tables, data: map<nat, seq<Byte>>, free: set<nat>, pages: set<nat>) {
    && b.tables.Keys <= tables.Keys
    && b.free == free + (tables.Keys - b.tables.Keys) + pages
    && data.Keys == b.data.Keys + pages
  }

  /** Every frame taken from the free pool is now in use; none has gone back. */
  ghost predicate Taken(b: Before, tables: Tables, data: map<nat, seq<Byte>>, free: set<nat>) {
    && b.tables.Keys <= tables.Keys && b.data.Keys <= data.Keys
    && b.free == free + (tables.Keys - b.tables.Keys) + (data.Keys - b.data.Keys)
  }

  lemma AllTaken(b: Before, tables: Tables, data: map<nat, seq<Byte>>, free: set<nat>, pages: set<nat>)
    requires Accounted(b, tables, data, free, pages) && b.data.Keys !! b.free
    ensures Taken(b, tables, data, free)
  {
    assert data.Keys - b.data.Keys == pages;
  }

  lemma UpperTwice(t0: Tables, t1: Tables, t2: Tables, sh0: Shape, sh1: Shape)
    requires UpperKept(t0, t1, sh0) && UpperKept(t1, t2, sh1) && Extends(sh0, sh1)
    ensures UpperKept(t0, t2, sh0)
  {
  }

  ghost function Owned(pm: PageMap): set<nat> { set f | f in Frames(pm) }

  lemma OwnedMore(pm: PageMap, q: nat, f: nat)
    ensures Owned(pm + [(q, f)]) == Owned(pm) + {f}
  {
    var pm' := pm + [(q, f)];
    assert Frames(pm') == Frames(pm) + [f];
  }

  function Frames(pm: PageMap): (r: seq<nat>)
    ensures |r| == |pm| && forall i :: 0 <= i < |r| ==> r[i] == pm[i].1
  {
    seq(|pm|, i requires 0 <= i < |pm| => pm[i].1)
  }

  lemma AccountedMore(b: Before, t0: Tables, d0: map<nat, seq<Byte>>, f0: set<nat>, t1: Tables, d1: map<nat, seq<Byte>>,
                      f1: set<nat>,
                      pages: set<nat>, f: nat)
    requires Accounted(b, t0, d0, f0, pages) && f in f0 && Took(t0, f0 - {f}, t1, f1) && d1.Keys == d0.Keys + {f}
    ensures Accounted(b, t1, d1, f1, pages + {f})
  {
    assert f0 == (f0 - {f}) + {f};
    assert t1.Keys - b.tables.Keys == (t1.Keys - t0.Keys) + (t0.Keys - b.tables.Keys);
  }

  ghost predicate Elsewhere(t0: Tables, t1: Tables, sh: Shape, root: nat) {
    forall r: nat, w: VPage :: Page(sh, r, w) && !(r == root && w[0] < 256) ==> Walk(t1, r, w) == Walk(t0, r, w)
  }

  // ---- one page --------------------------------------------------------------------------------------

  method FindPage(pm: PageMap, q: nat) returns (f: Option<nat>)
    requires Distinct(pm)
    ensures f.None? <==> !Has(pm, q)
    ensures f.Some? ==> (q, f.value) in pm
  {
    for i := 0 to |pm|
      invariant forall j :: 0 <= j < i ==> pm[j].0 != q
    {
      if pm[i].0 == q { return Some(pm[i].1); }
    }
    f := None;
  }

  lemma AddKeeps(t0: Tables, t1: Tables, sh: Shape, d0: map<nat, seq<Byte>>, d1: map<nat, seq<Byte>>, root: nat,
                 pm: PageMap, q: nat, f: nat, c: Mode)
    requires SpaceIs(t0, d0, root, pm, c) && !Has(pm, q) && root in sh.users
    requires c.low ==> q < LOW_PAGES && Backs(t1, root, q, f)
    requires f !in d0 && f in d1 && forall g :: g in d0 ==> g in d1
    requires SameBut(t0, t1, sh, root, V(q)) && SameUser(t0, t1, sh) && Walk(t1, root, V(q)).Some?
    requires Walk(t1, root, V(q)).value.frame == f && (c.apart ==> Unlike(pm, q))
    ensures SpaceIs(t1, d1, root, pm + [(q, f)], c)
    ensures c.low ==> Elsewhere(t0, t1, sh, root)
  {
    hide V, Walk, UserPath, LowUser, Confined, Backs, Empty, Owned, Unlike;
    if c.apart { AddShown(t0, t1, sh, root, pm, q, f); }
    LowUserSame(t0, t1, sh, root);
    if c.low { AddLow(t0, t1, sh, root, pm, q, f); }
    OwnedMore(pm, q, f);
    if c.bare { ConfinedMore(t0, t1, sh, root, V(q), f, Owned(pm)); }
  }

  lemma AddShown(t0: Tables, t1: Tables, sh: Shape, root: nat, pm: PageMap, q: nat, f: nat)
    requires root in sh.users && SameBut(t0, t1, sh, root, V(q)) && Unlike(pm, q) && Shown(t1, root, q, f)
    requires forall j :: 0 <= j < |pm| ==> Shown(t0, root, pm[j].0, pm[j].1)
    ensures var pm' := pm + [(q, f)]; forall j :: 0 <= j < |pm'| ==> Shown(t1, root, pm'[j].0, pm'[j].1)
  {
    hide V, Walk;
    var pm' := pm + [(q, f)];
    forall j | 0 <= j < |pm'| ensures Shown(t1, root, pm'[j].0, pm'[j].1) {
      if j < |pm| { assert Page(sh, root, V(pm[j].0)) && Shown(t0, root, pm[j].0, pm[j].1); }
    }
  }

  lemma ConfinedMore(t0: Tables, t1: Tables, sh: Shape, root: nat, v: VPage, f: nat, own: set<nat>)
    requires Confined(t0, root, own) && root in sh.users && SameBut(t0, t1, sh, root, v)
    requires Walk(t1, root, v).Some? && Walk(t1, root, v).value.frame == f
    ensures Confined(t1, root, own + {f})
  {
    hide Walk;
    forall w: VPage | Writable(t1, root, w) ensures Walk(t1, root, w).value.frame in own + {f} {
      if w != v {
        assert Page(sh, root, w) && Walk(t1, root, w) == Walk(t0, root, w);
        assert Writable(t0, root, w);
      }
    }
  }

  lemma AddLow(t0: Tables, t1: Tables, sh: Shape, root: nat, pm: PageMap, q: nat, f: nat)
    requires q < LOW_PAGES && root in sh.users && SameBut(t0, t1, sh, root, V(q)) && SameUser(t0, t1, sh)
    requires Backs(t1, root, q, f)
    requires forall j :: 0 <= j < |pm| ==> pm[j].0 < LOW_PAGES && Backs(t0, root, pm[j].0, pm[j].1) && pm[j].0 != q
    requires forall p :: 0 <= p < LOW_PAGES && !Has(pm, p) ==> Empty(t0, root, p)
    ensures var pm' := pm + [(q, f)];
      && (forall j :: 0 <= j < |pm'| ==> pm'[j].0 < LOW_PAGES && Backs(t1, root, pm'[j].0, pm'[j].1))
      && (forall p :: 0 <= p < LOW_PAGES && !Has(pm', p) ==> Empty(t1, root, p))
    ensures Elsewhere(t0, t1, sh, root)
  {
    hide V, Walk, UserPath;
    var pm' := pm + [(q, f)];
    LowPages(q, q);
    forall j | 0 <= j < |pm'| ensures pm'[j].0 < LOW_PAGES && Backs(t1, root, pm'[j].0, pm'[j].1) {
      if j < |pm| {
        assert pm'[j] == pm[j] && Backs(t0, root, pm[j].0, pm[j].1);
        LowPages(pm[j].0, q);
        assert Page(sh, root, V(pm[j].0));
      }
    }
    forall p | 0 <= p < LOW_PAGES && !Has(pm', p) ensures Empty(t1, root, p) {
      HasMore(pm, q, f, p);
      LowPages(p, q);
      assert Page(sh, root, V(p)) && Empty(t0, root, p);
    }
  }

  /** A zeroed frame for page `q`, mapped. */
  method AddPage(mem: Memory, root: nat, pm: PageMap, q: nat, ghost b: Before, ghost c: Mode)
    returns (e: Option<Error>, f: nat)
    requires mem.Valid() && root in mem.shape.users && root in b.shape.users && (c.low ==> q < LOW_PAGES) && !Has(pm, q)
    requires SpaceIs(mem.tables, mem.data, root, pm, c) && Framed(b, mem, root, pm, c) && b.data.Keys !! b.free
    requires Accounted(b, mem.tables, mem.data, mem.free, Owned(pm)) && (c.apart ==> Unlike(pm, q))
    modifies mem
    ensures mem.Valid() && mem.shape.users == old(mem.shape.users)
    ensures e.None? ==> SpaceIs(mem.tables, mem.data, root, pm + [(q, f)], c) && Framed(b, mem, root, pm + [(q, f)], c)
    ensures e.None? ==> Accounted(b, mem.tables, mem.data, mem.free, Owned(pm + [(q, f)]))
    ensures e.None? ==> f !in old(mem.data) && mem.data == old(mem.data)[f := seq(PAGE, _ => 0)]
    ensures e.Some? ==> e.value in {OutOfMemory, Panicked} && mem.free == {} && Framed(b, mem, root, [], c)
    ensures e.Some? ==> Taken(b, mem.tables, mem.data, mem.free)
  {
    hide PageOf, Walk, UserPath, Inv, SameBut, SameUser, SameSpaces, Elsewhere, SpaceIs, Owned, Accounted, Unlike,
      UpperKept, Taken, Took;
    AllTaken(b, mem.tables, mem.data, mem.free, Owned(pm));
    var p := mem.AllocPage();
    if p.None? { return Some(OutOfMemory), 0; }
    f := p.value;
    mem.data := mem.data[f := seq(PAGE, _ => 0)];
    ghost var t0, sh0 := mem.tables, mem.shape;
    SpacePath(t0, old(mem.data), root, pm, q, c);
    LowPage(mem.shape, root, q);
    var ok := mem.MapInto(root, q * PAGE, f, true, true, false);
    UpperTwice(b.tables, t0, mem.tables, b.shape, sh0);
    PageTaken(b, t0, old(mem.data), old(mem.free), mem.tables, mem.data, mem.free, pm, q, f);
    if !ok {
      if c.low { ElsewhereTwice(b.tables, t0, mem.tables, b.shape, sh0, root); }
      return Some(Panicked), 0;
    }
    AddKeeps(t0, mem.tables, sh0, old(mem.data), mem.data, root, pm, q, f, c);
    if c.low { ElsewhereTwice(b.tables, t0, mem.tables, b.shape, sh0, root); }
    e := None;
  }

  lemma PageTaken(b: Before, t0: Tables, d0: map<nat, seq<Byte>>, f0: set<nat>, t1: Tables, d1: map<nat, seq<Byte>>,
                  f1: set<nat>, pm: PageMap, q: nat, f: nat)
    requires Accounted(b, t0, d0, f0, Owned(pm)) && f in f0 && Took(t0, f0 - {f}, t1, f1) && d1.Keys == d0.Keys + {f}
    requires b.data.Keys !! b.free
    ensures Accounted(b, t1, d1, f1, Owned(pm + [(q, f)])) && Taken(b, t1, d1, f1) && f1 <= f0
  {
    hide Owned;
    AccountedMore(b, t0, d0, f0, t1, d1, f1, Owned(pm), f);
    OwnedMore(pm, q, f);
    AllTaken(b, t1, d1, f1, Owned(pm) + {f});
  }

  lemma SpacePath(tables: Tables, data: map<nat, seq<Byte>>, root: nat, pm: PageMap, q: nat, c: Mode)
    requires SpaceIs(tables, data, root, pm, c)
    ensures q < LOW_PAGES ==> UserPath(tables, root, PageOf(q * PAGE))
  {
    hide UserPath, Walk, PageOf;
    assert q < LOW_PAGES ==> UserPath(tables, root, V(q));
  }

  lemma LowPage(sh: Shape, root: nat, q: nat)
    requires root in sh.users
    ensures Page(sh, root, PageOf(q * PAGE))
  {
  }

  lemma ElsewhereTwice(t0: Tables, t1: Tables, t2: Tables, sh0: Shape, sh1: Shape, root: nat)
    requires Extends(sh0, sh1) && Elsewhere(t0, t1, sh0, root)
    ensures SameSpaces(t1, t2, sh1) || Elsewhere(t1, t2, sh1, root) ==> Elsewhere(t0, t2, sh0, root)
  {
  }

  /** Copy into `frame` the bytes of the file that fall in page `q` of the segment. */
  method CopyWindow(mem: Memory, frame: nat, d: seq<Byte>, s: Segment, q: nat, ghost segs: seq<Segment>)
    requires frame in mem.data && FileOk(d, s) && HasPage(s, q) && Shows(d, segs, q, mem.data[frame])
    modifies mem`data
    ensures mem.data.Keys == old(mem.data).Keys && Shows(d, segs + [s], q, mem.data[frame])
    ensures forall f :: f in old(mem.data) && f != frame ==> mem.data[f] == old(mem.data)[f]
  {
    var lo := if s.vaddr > q * PAGE then s.vaddr else q * PAGE;
    var hi := if s.vaddr + s.filesz < q * PAGE + PAGE then s.vaddr + s.filesz else q * PAGE + PAGE;
    var page := mem.data[frame];
    if lo < hi {
      var dst, src, len := lo - q * PAGE, s.offset + (lo - s.vaddr), hi - lo;
      mem.data := mem.data[frame := page[..dst] + d[src..src + len] + page[dst + len..]];
    }
    WindowShows(d, segs, s, q, page, mem.data[frame], lo, hi);
  }

  lemma WindowShows(d: seq<Byte>, segs: seq<Segment>, s: Segment, q: nat, page: seq<Byte>, page': seq<Byte>, lo: nat,
                    hi: nat)
    requires FileOk(d, s) && HasPage(s, q) && Shows(d, segs, q, page)
    requires lo == (if s.vaddr > q * PAGE then s.vaddr else q * PAGE)
    requires hi == (if s.vaddr + s.filesz < q * PAGE + PAGE then s.vaddr + s.filesz else q * PAGE + PAGE)
    requires if lo < hi
             then page' == page[..lo - q * PAGE] + d[s.offset + (lo - s.vaddr)..s.offset + (hi - s.vaddr)]
                           + page[hi - q * PAGE..]
             else page' == page
    ensures Shows(d, segs + [s], q, page')
  {
    forall o | 0 <= o < PAGE ensures page'[o] == Flat(d, segs + [s], At(q, o)) {
      PageSpan(q, o);
      FlatLast(d, segs, s, At(q, o));
    }
  }

  /** Every page already mapped shows its part of the image: with the current segment `s` below
      page `q`, without it from there on. */
  ghost predicate Images(d: seq<Byte>, segs: seq<Segment>, s: Segment, q: nat, pm: PageMap, data: map<nat, seq<Byte>>) {
    forall j :: 0 <= j < |pm| ==>
      pm[j].1 in data && Shows(d, if pm[j].0 < q then segs + [s] else segs, pm[j].0, data[pm[j].1])
  }

  /** Exactly the pages of the earlier segments, and this one's below `q`, are mapped. */
  ghost predicate Reached(segs: seq<Segment>, s: Segment, q: nat, pm: PageMap) {
    forall p :: 0 <= p ==> (Has(pm, p) <==> InImage(segs, p) || s.FirstPage() <= p < q)
  }

  lemma HasMore(pm: PageMap, q: nat, f: nat, p: nat)
    ensures Has(pm + [(q, f)], p) <==> Has(pm, p) || p == q
  {
    var pm' := pm + [(q, f)];
    if Has(pm, p) { var j :| 0 <= j < |pm| && pm[j].0 == p; assert pm'[j].0 == p; }
    assert pm'[|pm|].0 == q;
  }

  /** The frame behind page `q`: the one an earlier segment made, or a new one. */
  method FindOrAdd(mem: Memory, root: nat, pm: PageMap, d: seq<Byte>, s: Segment, q: nat, ghost segs: seq<Segment>,
                   ghost b: Before, ghost c: Mode)
    returns (e: Option<Error>, f: nat, pm': PageMap)
    requires mem.Valid() && root in mem.shape.users && root in b.shape.users && b.data.Keys !! b.free
    requires SpaceIs(mem.tables, mem.data, root, pm, c) && Framed(b, mem, root, pm, c)
    requires Accounted(b, mem.tables, mem.data, mem.free, Owned(pm))
    requires HasPage(s, q) && (c.low ==> q < LOW_PAGES) && Images(d, segs, s, q, pm, mem.data)
    requires Reached(segs, s, q, pm) && (c.apart ==> OwnIndices(segs + [s]))
    modifies mem
    ensures mem.Valid() && mem.shape.users == old(mem.shape.users)
    ensures e.None? ==>
      && SpaceIs(mem.tables, mem.data, root, pm', c)
      && Framed(b, mem, root, pm', c)
      && Accounted(b, mem.tables, mem.data, mem.free, Owned(pm'))
    ensures e.None? ==> Images(d, segs, s, q, pm', mem.data) && Reached(segs, s, q + 1, pm') && (q, f) in pm'
    ensures e.Some? ==> e.value in {OutOfMemory, Panicked} && mem.free == {} && Framed(b, mem, root, [], c)
    ensures e.Some? ==> Taken(b, mem.tables, mem.data, mem.free)
  {
    hide Backs, Empty, Framed, Inv, Extends, Shows, HasPage, InImage, Owned, Reached, Accounted, OwnIndices, Unlike,
      Taken, Shown;
    pm' := pm;
    var found := FindPage(pm, q);
    if found.Some? {
      f := found.value;
      ReachedStep(segs, s, q, pm, pm);
    } else {
      if c.apart { NewIndices(segs, s, q, pm); }
      e, f := AddPage(mem, root, pm, q, b, c);
      if e.Some? { return; }
      pm' := pm + [(q, f)];
      assert pm'[|pm|] == (q, f);
      forall p: nat ensures Has(pm', p) <==> Has(pm, p) || p == q { HasMore(pm, q, f, p); }
      ReachedStep(segs, s, q, pm, pm');
      NewShows(d, segs, s, q, pm, mem.data[f]);
    }
    e := None;
  }

  /** One turn of the inner loop: find or make the page, then copy. */
  method LoadPage(mem: Memory, root: nat, pm: PageMap, d: seq<Byte>, s: Segment, q: nat, ghost segs: seq<Segment>,
                  ghost b: Before, ghost c: Mode)
    returns (e: Option<Error>, pm': PageMap)
    requires mem.Valid() && root in mem.shape.users && root in b.shape.users && b.data.Keys !! b.free
    requires SpaceIs(mem.tables, mem.data, root, pm, c) && Framed(b, mem, root, pm, c)
    requires Accounted(b, mem.tables, mem.data, mem.free, Owned(pm))
    requires FileOk(d, s) && HasPage(s, q) && (c.low ==> q < LOW_PAGES) && (c.apart ==> OwnIndices(segs + [s]))
    requires Images(d, segs, s, q, pm, mem.data) && Reached(segs, s, q, pm)
    modifies mem
    ensures mem.Valid() && mem.shape.users == old(mem.shape.users)
    ensures e.None? ==>
      && SpaceIs(mem.tables, mem.data, root, pm', c)
      && Framed(b, mem, root, pm', c)
      && Accounted(b, mem.tables, mem.data, mem.free, Owned(pm'))
    ensures e.None? ==> Images(d, segs, s, q + 1, pm', mem.data) && Reached(segs, s, q + 1, pm')
    ensures e.Some? ==> e.value in {OutOfMemory, Panicked} && mem.free == {} && Framed(b, mem, root, [], c)
    ensures e.Some? ==> Taken(b, mem.tables, mem.data, mem.free)
  {
    hide Backs, Empty, Elsewhere, Inv, Extends, Shows, HasPage, InImage, FileOk, Owned, Reached, OwnIndices, Taken,
      Shown, UpperKept;
    var f;
    e, f, pm' := FindOrAdd(mem, root, pm, d, s, q, segs, b, c);
    if e.Some? { return; }
    ghost var j :| 0 <= j < |pm'| && pm'[j] == (q, f);
    CopyWindow(mem, f, d, s, q, segs);
  }

  /** No two pages of the image have the same indices. */
  ghost predicate OwnIndices(segs: seq<Segment>) {
    forall p, q :: 0 <= p && 0 <= q && InImage(segs, p) && InImage(segs, q) && V(p) == V(q) ==> p == q
  }

  lemma NewIndices(segs: seq<Segment>, s: Segment, q: nat, pm: PageMap)
    requires Reached(segs, s, q, pm) && HasPage(s, q) && !Has(pm, q) && OwnIndices(segs + [s])
    ensures Unlike(pm, q)
  {
    hide V, InImage;
    ImageMore(segs, s, q);
    forall j | 0 <= j < |pm| ensures V(pm[j].0) != V(q) {
      assert Has(pm, pm[j].0);
      ImageMore(segs, s, pm[j].0);
    }
  }

  lemma IndicesPrefix(a: seq<Segment>, segs: seq<Segment>)
    requires a <= segs && OwnIndices(segs)
    ensures OwnIndices(a)
  {
    hide V, HasPage;
    forall p: nat, q: nat | InImage(a, p) && InImage(a, q) && V(p) == V(q) ensures p == q {
      var i :| 0 <= i < |a| && HasPage(a[i], p);
      var j :| 0 <= j < |a| && HasPage(a[j], q);
      assert HasPage(segs[i], p) && HasPage(segs[j], q);
    }
  }

  /** Below 2^48 pages have indices of their own. */
  lemma BelowIndices(segs: seq<Segment>)
    requires forall i :: 0 <= i < |segs| ==> segs[i].vaddr + segs[i].memsz <= 2 * USER_TOP
    ensures OwnIndices(segs)
  {
    hide PageOf;
    forall p: nat, q: nat | InImage(segs, p) && InImage(segs, q) && V(p) == V(q) ensures p == q {
      PageOfInjective(p * PAGE, q * PAGE);
    }
  }

  lemma ReachedStep(segs: seq<Segment>, s: Segment, q: nat, pm: PageMap, pm': PageMap)
    requires Reached(segs, s, q, pm) && HasPage(s, q) && forall p: nat :: Has(pm', p) <==> Has(pm, p) || p == q
    ensures Reached(segs, s, q + 1, pm')
  {
  }

  lemma NewShows(d: seq<Byte>, segs: seq<Segment>, s: Segment, q: nat, pm: PageMap, bytes: seq<Byte>)
    requires Reached(segs, s, q, pm) && !Has(pm, q) && bytes == seq(PAGE, _ => 0)
    ensures Shows(d, segs, q, bytes)
  {
    FreshPage(d, segs, q, bytes);
  }

  // ---- one segment ---------------------------------------------------------------------------------

  /** Every mapped page shows its part of the flat image. */
  ghost predicate AllShow(d: seq<Byte>, segs: seq<Segment>, pm: PageMap, data: map<nat, seq<Byte>>) {
    forall j :: 0 <= j < |pm| ==> pm[j].1 in data && Shows(d, segs, pm[j].0, data[pm[j].1])
  }

  ghost predicate PagesAre(segs: seq<Segment>, pm: PageMap) {
    forall p :: 0 <= p ==> (Has(pm, p) <==> InImage(segs, p))
  }

  lemma Enter(d: seq<Byte>, segs: seq<Segment>, s: Segment, pm: PageMap, data: map<nat, seq<Byte>>)
    requires AllShow(d, segs, pm, data) && PagesAre(segs, pm)
    ensures Images(d, segs, s, s.FirstPage(), pm, data) && Reached(segs, s, s.FirstPage(), pm)
  {
    hide Shows, InImage;
    forall j | 0 <= j < |pm|
      ensures Shows(d, if pm[j].0 < s.FirstPage() then segs + [s] else segs, pm[j].0, data[pm[j].1])
    {
      if pm[j].0 < s.FirstPage() { OtherPage(d, segs, s, pm[j].0, data[pm[j].1]); }
    }
  }

  lemma Leave(d: seq<Byte>, segs: seq<Segment>, s: Segment, pm: PageMap, data: map<nat, seq<Byte>>)
    requires Images(d, segs, s, s.EndPage(), pm, data) && Reached(segs, s, s.EndPage(), pm)
    ensures AllShow(d, segs + [s], pm, data) && PagesAre(segs + [s], pm)
  {
    hide Shows, InImage;
    forall j | 0 <= j < |pm| ensures Shows(d, segs + [s], pm[j].0, data[pm[j].1]) {
      if pm[j].0 >= s.EndPage() { OtherPage(d, segs, s, pm[j].0, data[pm[j].1]); }
    }
    forall p: nat ensures InImage(segs + [s], p) <==> InImage(segs, p) || HasPage(s, p) { ImageMore(segs, s, p); }
  }

  lemma ImageMore(segs: seq<Segment>, s: Segment, p: nat)
    ensures InImage(segs + [s], p) <==> InImage(segs, p) || HasPage(s, p)
  {
    hide HasPage;
    var t := segs + [s];
    if InImage(segs, p) { var i :| 0 <= i < |segs| && HasPage(segs[i], p); assert HasPage(t[i], p); }
    assert t[|segs|] == s;
    if InImage(t, p) { var i :| 0 <= i < |t| && HasPage(t[i], p); assert i < |segs| ==> HasPage(segs[i], p); }
  }

  ghost predicate InUserHalf(s: Segment) { s.vaddr + s.memsz <= USER_TOP }

  lemma EndsLow(s: Segment)
    requires s.Loads() && InUserHalf(s)
    ensures s.FirstPage() <= s.EndPage() <= LOW_PAGES
  {
  }

  method LoadSegment(mem: Memory, root: nat, pm: PageMap, d: seq<Byte>, s: Segment, ghost segs: seq<Segment>,
                     ghost b: Before, ghost c: Mode)
    returns (e: Option<Error>, pm': PageMap)
    requires mem.Valid() && root in mem.shape.users && root in b.shape.users && b.data.Keys !! b.free
    requires SpaceIs(mem.tables, mem.data, root, pm, c) && Framed(b, mem, root, pm, c)
    requires Accounted(b, mem.tables, mem.data, mem.free, Owned(pm))
    requires FileOk(d, s) && (c.low ==> InUserHalf(s)) && AllShow(d, segs, pm, mem.data) && PagesAre(segs, pm)
    requires c.apart ==> OwnIndices(segs + [s])
    modifies mem
    ensures mem.Valid() && mem.shape.users == old(mem.shape.users)
    ensures e.None? ==>
      && SpaceIs(mem.tables, mem.data, root, pm', c)
      && Framed(b, mem, root, pm', c)
      && Accounted(b, mem.tables, mem.data, mem.free, Owned(pm'))
    ensures e.None? ==> AllShow(d, segs + [s], pm', mem.data) && PagesAre(segs + [s], pm')
    ensures e.Some? ==> e.value in {OutOfMemory, Panicked} && mem.free == {} && Framed(b, mem, root, [], c)
    ensures e.Some? ==> Taken(b, mem.tables, mem.data, mem.free)
  {
    hide SpaceIs, Framed, AllShow, PagesAre, Images, Reached, Inv, Accounted, OwnIndices, Taken;
    Enter(d, segs, s, pm, mem.data);
    if c.low { EndsLow(s); }
    pm' := pm;
    for q := s.FirstPage() to s.EndPage()
      invariant mem.Valid() && mem.shape.users == old(mem.shape.users)
      invariant SpaceIs(mem.tables, mem.data, root, pm', c) && Framed(b, mem, root, pm', c)
      invariant Accounted(b, mem.tables, mem.data, mem.free, Owned(pm'))
      invariant Images(d, segs, s, q, pm', mem.data) && Reached(segs, s, q, pm')
    {
      e, pm' := LoadPage(mem, root, pm', d, s, q, segs, b, c);
      if e.Some? { return; }
    }
    Leave(d, segs, s, pm', mem.data);
    e := None;
  }

  // ---- the whole file --------------------------------------------------------------------------------

  ghost predicate AllUser(segs: seq<Segment>) { forall i :: 0 <= i < |segs| ==> InUserHalf(segs[i]) }

  lemma {:induction false} ListPrefix(d: seq<Byte>, i: nat, n: nat)
    requires i <= n
    ensures LoadList(d, i) <= LoadList(d, n)
  {
    if i < n { ListPrefix(d, i, n - 1); }
  }

  /** What user mode reads at address `a`. */
  ghost function Read(tables: Tables, data: map<nat, seq<Byte>>, root: nat, a: nat): Option<Byte> {
    var e := Walk(tables, root, PageOf(a));
    if e.Some? && e.value.user && e.value.frame in data && a % PAGE < |data[e.value.frame]|
    then Some(data[e.value.frame][a % PAGE])
    else None
  }

  /** The space holds the image and nothing else, and `pages` are the frames it took. */
  ghost predicate Holds(mem: Memory, root: nat, d: seq<Byte>, segs: seq<Segment>, pages: seq<nat>)
    reads mem
  {
    && (forall a :: 0 <= a < USER_TOP ==>
         Read(mem.tables, mem.data, root, a) == if InImage(segs, a / PAGE) then Some(Flat(d, segs, a)) else None)
    && (forall i, j :: 0 <= i < j < |pages| ==> pages[i] != pages[j])
    && (forall f :: f in pages <==> exists q :: 0 <= q < LOW_PAGES && Backs(mem.tables, root, q, f))
    && (forall q :: 0 <= q < LOW_PAGES && !InImage(segs, q) ==> Empty(mem.tables, root, q))
  }

  lemma ReadImage(tables: Tables, data: map<nat, seq<Byte>>, root: nat, d: seq<Byte>, segs: seq<Segment>, pm: PageMap,
                  c: Mode, a: nat)
    requires SpaceIs(tables, data, root, pm, c) && c.low && AllShow(d, segs, pm, data) && PagesAre(segs, pm)
    requires a < USER_TOP
    ensures Read(tables, data, root, a) == if InImage(segs, a / PAGE) then Some(Flat(d, segs, a)) else None
  {
    hide Walk, UserPath, InImage, Flat, PageOf;
    var q := a / PAGE;
    PageSpan(q, a % PAGE);
    assert At(q, a % PAGE) == a;
    PageOfInjective(a, q * PAGE);
    assert PageOf(a) == V(q);
    if Has(pm, q) {
      var j :| 0 <= j < |pm| && pm[j].0 == q;
      assert Backs(tables, root, q, pm[j].1);
    } else {
      assert Empty(tables, root, q);
    }
  }

  lemma ImageHeld(mem: Memory, root: nat, d: seq<Byte>, segs: seq<Segment>, pm: PageMap, c: Mode)
    requires SpaceIs(mem.tables, mem.data, root, pm, c) && c.low && AllShow(d, segs, pm, mem.data) && PagesAre(segs, pm)
    ensures Holds(mem, root, d, segs, Frames(pm))
  {
    hide Walk, UserPath, InImage, Flat, PageOf, Frames, Read;
    forall a: nat | a < USER_TOP
      ensures Read(mem.tables, mem.data, root, a) == if InImage(segs, a / PAGE) then Some(Flat(d, segs, a)) else None
    {
      ReadImage(mem.tables, mem.data, root, d, segs, pm, c, a);
    }
    forall f | f in Frames(pm) ensures exists q :: 0 <= q < LOW_PAGES && Backs(mem.tables, root, q, f) {
      var j :| 0 <= j < |pm| && Frames(pm)[j] == f;
      assert Backs(mem.tables, root, pm[j].0, f);
    }
    forall q, f | 0 <= q < LOW_PAGES && Backs(mem.tables, root, q, f) ensures f in Frames(pm) {
      if Has(pm, q) {
        var j :| 0 <= j < |pm| && pm[j].0 == q;
        assert Backs(mem.tables, root, pm[j].0, pm[j].1) && Frames(pm)[j] == f;
      } else {
        assert Empty(mem.tables, root, q);
      }
    }
  }

  /** Load `d` into an empty user space. Success means, of a file that stays in the lower half, that the space
      reads, byte for byte, as the flat image, even where segments share pages, and that the returned pages
      are exactly the frames behind it. An error is the first check the file fails, or the lack of memory.
      Every frame in use before is untouched, and so are, if the file stays in the lower half, other
      spaces and the kernel half.  The code does not check that it does: if it does not, and its pages have
      indices of their own, every space that has that part of the upper half in common sees the program's
      frames there.  After an error nothing has been given back. */
  method Load(mem: Memory, d: seq<Byte>, root: nat) returns (r: Result)
    requires mem.Valid() && root in mem.shape.users && SpaceIs(mem.tables, mem.data, root, [], Mode(true, false, false))
    modifies mem
    ensures mem.Valid()
    ensures Framed(Before(old(mem.tables), old(mem.shape), old(mem.data), old(mem.free)), mem, root, [],
              ModeOf(d, false))
    ensures r.Ok? ==>
      FirstError(d, PhNum(d)) == None && r.entry == Field(d, 24, 8) && r.pages != [] && LowUser(mem.tables, root)
    ensures r.Ok? ==> LoadList(d, PhNum(d)) != []
    ensures r.Ok? ==> forall i, j :: 0 <= i < j < |r.pages| ==> r.pages[i] != r.pages[j]
    ensures r.Ok? && AllUser(LoadList(d, PhNum(d))) ==> Holds(mem, root, d, LoadList(d, PhNum(d)), r.pages)
    ensures r.Ok? && Confined(old(mem.tables), root, {}) ==> Confined(mem.tables, root, set f | f in r.pages)
    ensures r.Ok? ==>
      Accounted(Before(old(mem.tables), old(mem.shape), old(mem.data), old(mem.free)), mem.tables, mem.data, mem.free,
        set f | f in r.pages)
    ensures r.Ok? ==> forall f :: f in r.pages ==> f in old(mem.free)
    ensures r.Ok? && OwnIndices(LoadList(d, PhNum(d))) ==>
      Spilled(old(mem.tables), old(mem.shape), mem.tables, root, LoadList(d, PhNum(d)), r.pages)
    ensures Taken(Before(old(mem.tables), old(mem.shape), old(mem.data), old(mem.free)), mem.tables, mem.data, mem.free)
    ensures r.Err? && r.error in {OutOfMemory, Panicked} ==> mem.free == {}
    ensures r.Err? && r.error == NoSegments ==> FirstError(d, PhNum(d)) == None && LoadList(d, PhNum(d)) == []
    ensures r.Err? && r.error !in {OutOfMemory, Panicked, NoSegments} ==> FirstError(d, PhNum(d)) == Some(r.error)
  {
    hide SpaceIs, Framed, AllShow, PagesAre, Inv, InImage, Field, Holds, Accounted, LowUser, Confined, OwnIndices,
      Taken, Spilled;
    ghost var b := Before(mem.tables, mem.shape, mem.data, mem.free);
    ghost var c := ModeOf(d, Confined(mem.tables, root, {}));
    StartFramed(b, mem, root, d, c);
    StartSpace(mem.tables, mem.data, root, c);
    AllTaken(b, mem.tables, mem.data, mem.free, Owned([]));
    if HeaderError(d).Some? {
      ErrorStays(d, 0, PhNum(d));
      return Err(HeaderError(d).value);
    }
    var pm: PageMap := [];
    for i := 0 to PhNum(d)
      invariant mem.Valid() && mem.shape.users == old(mem.shape.users) && FirstError(d, i) == None
      invariant SpaceIs(mem.tables, mem.data, root, pm, c) && Framed(b, mem, root, pm, c)
      invariant Accounted(b, mem.tables, mem.data, mem.free, Owned(pm))
      invariant AllShow(d, LoadList(d, i), pm, mem.data) && PagesAre(LoadList(d, i), pm)
    {
      ForgetPages(b, mem, root, pm, c, d);
      AllTaken(b, mem.tables, mem.data, mem.free, Owned(pm));
      if EntryError(d, i).Some? {
        ErrorStays(d, i + 1, PhNum(d));
        return Err(EntryError(d, i).value);
      }
      var s := SegmentAt(d, i);
      if s.Loads() {
        ListOk(d, i + 1);
        ListPrefix(d, i + 1, PhNum(d));
        assert LoadList(d, i + 1) == LoadList(d, i) + [s];
        assert s == LoadList(d, i + 1)[|LoadList(d, i)|] == LoadList(d, PhNum(d))[|LoadList(d, i)|];
        if c.apart { IndicesPrefix(LoadList(d, i + 1), LoadList(d, PhNum(d))); }
        var e;
        e, pm := LoadSegment(mem, root, pm, d, s, LoadList(d, i), b, c);
        if e.Some? {
          ForgetPages(b, mem, root, [], c, d);
          return Err(e.value);
        }
      }
    }
    ForgetPages(b, mem, root, pm, c, d);
    AllTaken(b, mem.tables, mem.data, mem.free, Owned(pm));
    ListOk(d, PhNum(d));
    SomePages(d, LoadList(d, PhNum(d)), pm);
    if pm == [] { return Err(NoSegments); }
    if c.low { ImageHeld(mem, root, d, LoadList(d, PhNum(d)), pm, c); }
    SpaceParts(mem.tables, mem.data, root, pm, c);
    if c.apart {
      FramedUpper(b, mem, root, pm, c);
      HighPage(b, mem.tables, mem.data, root, LoadList(d, PhNum(d)), pm, c);
    }
    r := Ok(Field(d, 24, 8), Frames(pm));
  }

  /** Spaces `r` and `root` have the part of the upper half that page `v` is in in common. */
  ghost predicate InCommon(tables: Tables, sh: Shape, root: nat, r: nat, v: VPage) {
    && v[0] >= 256 && IsRoot(sh, root) && IsRoot(sh, r) && r in tables && root in tables
    && tables[r][v[0]].present && tables[r][v[0]] == tables[root][v[0]]
  }

  /** What the missing check costs: every page of the file in the upper half is seen by every space that
      has that part of it in common, as one of the program's frames. */
  ghost predicate Spilled(t0: Tables, sh: Shape, t1: Tables, root: nat, segs: seq<Segment>, pages: seq<nat>) {
    forall q: nat, r: nat :: InImage(segs, q) && InCommon(t0, sh, root, r, V(q)) ==>
      var e := Walk(t1, r, V(q)); e.Some? && e.value.frame in pages
  }

  lemma HighPage(b: Before, t1: Tables, data: map<nat, seq<Byte>>, root: nat, segs: seq<Segment>, pm: PageMap, c: Mode)
    requires Inv(b.tables, b.shape) && UpperKept(b.tables, t1, b.shape) && PagesAre(segs, pm)
    requires SpaceIs(t1, data, root, pm, c) && c.apart
    ensures Spilled(b.tables, b.shape, t1, root, segs, Frames(pm))
  {
    hide Walk, V, Inv, UpperKept, InImage, Backs, Empty, LowUser, Confined;
    forall q: nat, r: nat | InImage(segs, q) && InCommon(b.tables, b.shape, root, r, V(q))
      ensures var e := Walk(t1, r, V(q)); e.Some? && e.value.frame in Frames(pm)
    {
      assert Has(pm, q);
      var j :| 0 <= j < |pm| && pm[j].0 == q;
      assert Shown(t1, root, q, pm[j].1) && Frames(pm)[j] == pm[j].1;
      SharedPage(b.tables, t1, b.shape, r, root, V(q));
    }
  }

  /** The mode of loading `d`. */
  ghost function ModeOf(d: seq<Byte>, bare: bool): Mode {
    Mode(AllUser(LoadList(d, PhNum(d))), bare, OwnIndices(LoadList(d, PhNum(d))))
  }

  lemma StartSpace(tables: Tables, data: map<nat, seq<Byte>>, root: nat, c: Mode)
    requires SpaceIs(tables, data, root, [], Mode(true, false, false)) && (c.bare ==> Confined(tables, root, {}))
    ensures SpaceIs(tables, data, root, [], c)
  {
    assert Owned([]) == {};
  }

  lemma SpaceParts(tables: Tables, data: map<nat, seq<Byte>>, root: nat, pm: PageMap, c: Mode)
    requires SpaceIs(tables, data, root, pm, c)
    ensures LowUser(tables, root) && (forall i, j :: 0 <= i < j < |pm| ==> Frames(pm)[i] != Frames(pm)[j])
    ensures c.bare ==> Confined(tables, root, set f | f in Frames(pm))
  {
    hide Confined, LowUser, Backs, Empty;
  }

  lemma StartFramed(b: Before, mem: Memory, root: nat, d: seq<Byte>, c: Mode)
    requires b == Before(mem.tables, mem.shape, mem.data, mem.free)
    ensures Framed(b, mem, root, [], c) && Framed(b, mem, root, [], ModeOf(d, false)) && AllShow(d, [], [], mem.data)
    ensures PagesAre([], []) && Accounted(b, mem.tables, mem.data, mem.free, Owned([]))
  {
  }

  lemma FramedUpper(b: Before, mem: Memory, root: nat, pm: PageMap, c: Mode)
    requires Framed(b, mem, root, pm, c)
    ensures UpperKept(b.tables, mem.tables, b.shape)
  {
  }

  lemma ForgetPages(b: Before, mem: Memory, root: nat, pm: PageMap, c: Mode, d: seq<Byte>)
    requires Framed(b, mem, root, pm, c) && c == ModeOf(d, c.bare)
    ensures Framed(b, mem, root, [], ModeOf(d, false)) && forall f :: f in Frames(pm) ==> f in b.free
  {
  }

  lemma SomePages(d: seq<Byte>, segs: seq<Segment>, pm: PageMap)
    requires PagesAre(segs, pm) && FilesOk(d, segs)
    ensures pm == [] <==> segs == []
  {
    if segs != [] {
      assert FileOk(d, segs[0]);
      InsidePages(segs[0], segs[0].vaddr);
      assert InImage(segs, segs[0].FirstPage());
      assert Has(pm, segs[0].FirstPage());
    } else if pm != [] {
      assert Has(pm, pm[0].0);
    }
  }

  /** For separate segments: each address of a segment reads its file byte below `filesz` and zero
      from there to `memsz`. */
  lemma SegmentReads(mem: Memory, root: nat, d: seq<Byte>, pages: seq<nat>, i: nat, a: nat)
    requires FirstError(d, PhNum(d)) == None && Holds(mem, root, d, LoadList(d, PhNum(d)), pages)
    requires Separate(LoadList(d, PhNum(d))) && AllUser(LoadList(d, PhNum(d))) && i < |LoadList(d, PhNum(d))|
    requires var s := LoadList(d, PhNum(d))[i]; s.vaddr <= a < s.vaddr + s.memsz
    ensures var s := LoadList(d, PhNum(d))[i];
            && (a < s.vaddr + s.filesz ==> s.offset + (a - s.vaddr) < |d|)
            && Read(mem.tables, mem.data, root, a) ==
                 Some(if a < s.vaddr + s.filesz then d[s.offset + (a - s.vaddr)] else 0)
  {
    hide Read, InImage, Flat, PhNum, LoadList, FirstError;
    var segs := LoadList(d, PhNum(d));
    ListOk(d, PhNum(d));
    assert InUserHalf(segs[i]);
    FlatIsSegment(d, segs, i, a);
  }

  lemma BlankSpace(tables: Tables, data: map<nat, seq<Byte>>, root: nat)
    requires forall v: VPage :: v[0] < 256 ==> Walk(tables, root, v) == None && UserPath(tables, root, v)
    ensures SpaceIs(tables, data, root, [], Mode(true, false, false))
  {
    forall q: nat | q < LOW_PAGES ensures Empty(tables, root, q) { LowPages(q, q); }
  }

  lemma OthersKept(t0: Tables, t1: Tables, t2: Tables, sh0: Shape, sh1: Shape, cr3: nat, root: nat)
    requires SameSpaces(t0, t1, sh0) && Elsewhere(t1, t2, sh1, root) && root !in sh0.users && root != sh0.kernel
    requires sh1.users == sh0.users + {root} && sh1.kernel == sh0.kernel
    requires forall v: VPage :: v[0] >= 256 ==> Walk(t1, root, v) == Walk(t0, cr3, v)
    ensures SameSpaces(t0, t2, sh0)
    ensures forall v: VPage :: v[0] >= 256 ==> Walk(t2, root, v) == Walk(t0, cr3, v)
  {
    hide Walk;
    forall r: nat, w: VPage | Page(sh0, r, w) ensures Walk(t2, r, w) == Walk(t0, r, w) {
      assert Page(sh1, r, w);
    }
    forall v: VPage | v[0] >= 256 ensures Walk(t2, root, v) == Walk(t0, cr3, v) {
      assert Page(sh1, root, v);
    }
  }
}
