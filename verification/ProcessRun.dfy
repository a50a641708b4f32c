/** A program's whole life in memory: set up, any number of its own stores and mappings, and what is
    left of it when it is gone. */
module ProcessRun {
  import opened Paging
  import opened ElfFormat
  import opened Elf
  import opened Process

  const MMIO_BASE: nat := 0x6000_0000
  const MAX_MMIO: nat := 16 * 1024 * 1024
  const MAX_ANON: nat := 64 * 1024 * 1024

  type Offset = o: nat | o < PAGE

  /** What a running program does to memory: store a byte, map granted physical memory, or ask for
      fresh memory. */
  datatype Step = Store(v: VPage, off: Offset, x: Byte) | MapMmio(phys: nat, len: nat) | MapAnon(len: nat)

  // ---- the arena ---------------------------------------------------------------------------------

  /** `[phys, phys + len)` lies in one granted range. */
  predicate Allowed(grants: seq<Grant>, phys: nat, len: nat) {
    exists i :: 0 <= i < |grants| && grants[i].lo <= phys && phys + len <= grants[i].hi
  }

  /** Pages a call moves the arena on by, whether or not it then finds memory. */
  function Asked(grants: seq<Grant>, s: Step): nat {
    match s
    case Store(_, _, _) => 0
    case MapMmio(phys, len) =>
      if len == 0 || len > MAX_MMIO || !Allowed(grants, phys, len) then 0 else (phys % PAGE + len + PAGE - 1) / PAGE
    case MapAnon(len) => if len == 0 || len > MAX_ANON then 0 else (len + PAGE - 1) / PAGE
  }

  /** The first page of the arena not yet given out. */
  function Cursor(grants: seq<Grant>, steps: seq<Step>): nat {
    if steps == [] then MMIO_BASE / PAGE
    else Cursor(grants, steps[..|steps| - 1]) + Asked(grants, steps[|steps| - 1])
  }

  /** A range of physical addresses that programs may map. */
  datatype Grant = Grant(lo: nat, hi: nat)

  /** Frame `f` (physical page number `f`) lies, in part at least, in a granted range. */
  ghost predicate Granted(grants: seq<Grant>, f: nat) {
    exists i :: 0 <= i < |grants| && grants[i].lo < f * PAGE + PAGE && f * PAGE < grants[i].hi
  }

  // ---- memory while the program runs -------------------------------------------------------------

  /** Granted memory is neither free nor a page table. */
  ghost predicate GrantsApart(m: Before, grants: seq<Grant>) {
    forall f :: Granted(grants, f) ==> f !in m.free && f !in m.tables
  }

  /** Whatever user mode can write is one of `own` or granted. */
  ghost predicate Within(tables: Tables, root: nat, own: set<nat>, grants: seq<Grant>) {
    forall v: VPage :: Writable(tables, root, v) ==>
      var f := Walk(tables, root, v).value.frame;
      f in own || Granted(grants, f)
  }

  /** Since `b`, every frame taken is a table or one of `own`; user mode can write `own` and granted frames
      alone; and frames in use before hold what they held unless granted. */
  ghost predicate Going(b: Before, m: Before, root: nat, own: set<nat>, grants: seq<Grant>) {
    && root in m.shape.users && Extends(b.shape, m.shape)
    && Accounted(b, m.tables, m.data, m.free, own) && own !! b.data.Keys && b.data.Keys !! b.free
    && Within(m.tables, root, own, grants) && LowUser(m.tables, root)
    && forall f :: f in b.data && f in m.data && !Granted(grants, f) ==> m.data[f] == b.data[f]
  }

  lemma AccountedTook(b: Before, t0: Tables, f0: set<nat>, t1: Tables, f1: set<nat>, data: map<nat, seq<Byte>>,
                      own: set<nat>)
    requires Accounted(b, t0, data, f0, own) && Took(t0, f0, t1, f1)
    ensures Accounted(b, t1, data, f1, own)
  {
    assert t1.Keys - b.tables.Keys == (t1.Keys - t0.Keys) + (t0.Keys - b.tables.Keys);
  }

  lemma WithinMap(t0: Tables, t1: Tables, sh: Shape, root: nat, v: VPage, frame: nat, own: set<nat>, grants: seq<Grant>)
    requires Within(t0, root, own, grants) && root in sh.users && SameBut(t0, t1, sh, root, v)
    requires Walk(t1, root, v).Some? && Walk(t1, root, v).value.frame == frame
    requires frame in own || Granted(grants, frame)
    ensures Within(t1, root, own, grants)
  {
    hide Walk, Granted;
    forall w: VPage | Writable(t1, root, w)
      ensures Walk(t1, root, w).value.frame in own || Granted(grants, Walk(t1, root, w).value.frame)
    {
      if w != v {
        assert Page(sh, root, w) && Walk(t1, root, w) == Walk(t0, root, w);
        assert Writable(t0, root, w);
      }
    }
  }

  /** A low page mapped: seen by the program, and by nobody else. */
  lemma LowMapped(b: Before, t0: Tables, t1: Tables, sh: Shape, root: nat, q: nat)
    requires SameBut(t0, t1, sh, root, V(q)) && q < LOW_PAGES && root in sh.users && Extends(b.shape, sh)
    ensures Elsewhere(b.tables, t0, b.shape, root) ==> Elsewhere(b.tables, t1, b.shape, root)
    ensures SamePagesBut(t0, t1, root, q)
  {
    hide Walk, V;
    LowPages(q, q);
    forall p: nat | p < LOW_PAGES && p != q ensures Walk(t1, root, V(p)) == Walk(t0, root, V(p)) {
      LowPages(p, q);
      assert Page(sh, root, V(p));
    }
    if Elsewhere(b.tables, t0, b.shape, root) {
      forall r: nat, w: VPage | Page(b.shape, r, w) && !(r == root && w[0] < 256)
        ensures Walk(t1, r, w) == Walk(b.tables, r, w)
      {
        assert Page(sh, r, w);
      }
    }
  }

  lemma TookFree(t0: Tables, f0: set<nat>, t1: Tables, f1: set<nat>)
    requires Took(t0, f0, t1, f1)
    ensures f1 <= f0
  {
  }

  /** Page `q` of the space `root` has been mapped to `frame`: no other page of any space translates differently,
      and every space that has the part of the upper half that `q` is in in common sees the frame, too. */
  ghost predicate MappedOne(m: Before, n: Before, root: nat, q: nat, frame: nat) {
    && Extends(m.shape, n.shape) && UpperKept(m.tables, n.tables, m.shape)
    && SameBut(m.tables, n.tables, m.shape, root, V(q))
    && forall r :: InCommon(m.tables, m.shape, root, r, V(q)) ==> Shown(n.tables, r, q, frame)
  }

  lemma MapsOne(m: Before, n: Before, root: nat, q: nat, frame: nat)
    requires Inv(m.tables, m.shape) && Extends(m.shape, n.shape) && UpperKept(m.tables, n.tables, m.shape)
    requires SameBut(m.tables, n.tables, m.shape, root, V(q)) && Shown(n.tables, root, q, frame)
    ensures MappedOne(m, n, root, q, frame)
  {
    hide Walk, V, Inv, UpperKept, SameBut, Extends;
    forall r | InCommon(m.tables, m.shape, root, r, V(q)) ensures Shown(n.tables, r, q, frame) {
      SharedPage(m.tables, n.tables, m.shape, r, root, V(q));
    }
  }

  /** Page `q` translates to frame `f`, readable and writable from user mode, with or without caching. */
  ghost predicate BacksAs(tables: Tables, root: nat, q: nat, f: nat, nocache: bool) {
    Backs(tables, root, q, f) && Walk(tables, root, V(q)).value.nocache == nocache
  }

  /** One page of the arena. Without memory for a table the kernel panics. */
  method MapOne(mem: Memory, root: nat, q: nat, frame: nat, nocache: bool, ghost b: Before, ghost own: set<nat>,
                ghost grants: seq<Grant>)
    returns (ok: bool)
    requires mem.Valid() && Going(b, Now(mem), root, own, grants) && (frame in own || Granted(grants, frame))
    modifies mem`tables, mem`free, mem`shape
    ensures mem.Valid() && mem.free <= old(mem.free) && (ok ==> Going(b, Now(mem), root, own, grants))
    ensures !ok ==> mem.free == {}
    ensures ok ==> MappedOne(old(Now(mem)), Now(mem), root, q, frame)
    ensures ok && q < LOW_PAGES ==>
      BacksAs(mem.tables, root, q, frame, nocache) && SamePagesBut(old(mem.tables), mem.tables, root, q)
    ensures ok && q < LOW_PAGES && Elsewhere(b.tables, old(mem.tables), b.shape, root) ==>
      Elsewhere(b.tables, mem.tables, b.shape, root)
  {
    hide Walk, UserPath, PageOf, Inv, Took, Accounted, Within, LowUser, SameBut, SameUser, SameSpaces, Elsewhere,
      SamePagesBut, Granted, UpperKept, MappedOne;
    ghost var t0, sh0, f0, m := mem.tables, mem.shape, mem.free, Now(mem);
    if q < LOW_PAGES { Walkable(t0, root, q); }
    InSpace(mem.shape, root, q * PAGE);
    ok := mem.MapCurrentUser(root, q * PAGE, frame, true, nocache);
    TookFree(t0, f0, mem.tables, mem.free);
    if !ok { return; }
    AccountedTook(b, t0, f0, mem.tables, mem.free, mem.data, own);
    WithinMap(t0, mem.tables, sh0, root, PageOf(q * PAGE), frame, own, grants);
    LowUserSame(t0, mem.tables, sh0, root);
    MapsOne(m, Now(mem), root, q, frame);
    if q < LOW_PAGES { LowMapped(b, t0, mem.tables, sh0, root, q); }
  }

  // ---- stores ------------------------------------------------------------------------------------

  function WithByte(page: seq<Byte>, off: nat, x: Byte): (r: seq<Byte>)
    requires off < |page|
  {
    page[off := x]
  }

  /** A store from user mode; anything user mode may not write faults, and memory of a device is not RAM.
      No store reaches a page table or a free frame. */
  method UserStore(mem: Memory, root: nat, v: VPage, off: Offset, x: Byte, ghost b: Before, ghost own: set<nat>,
                   ghost grants: seq<Grant>)
    requires mem.Valid() && Going(b, Now(mem), root, own, grants) && GrantsApart(b, grants)
    modifies mem`data
    ensures mem.Valid() && Going(b, Now(mem), root, own, grants)
    ensures Writable(mem.tables, root, v) ==> var f := Walk(mem.tables, root, v).value.frame;
      && f !in mem.tables && f !in mem.free
      && mem.data == Stored(old(mem.data), f, off, x)
    ensures !Writable(mem.tables, root, v) ==> mem.data == old(mem.data)
  {
    hide Walk, Inv, LowUser, Granted;
    var e := Walk(mem.tables, root, v);
    assert Writable(mem.tables, root, v) <==> e.Some? && e.value.user && e.value.write;
    if e.Some? && e.value.user && e.value.write {
      StoreHits(b, Now(mem), root, own, grants, v);
      if e.value.frame in mem.data && off < |mem.data[e.value.frame]| {
        ghost var m := Now(mem);
        mem.data := mem.data[e.value.frame := WithByte(mem.data[e.value.frame], off, x)];
        StoreGoes(b, m, Now(mem), root, own, grants, e.value.frame);
      }
    }
  }

  lemma StoreHits(b: Before, m: Before, root: nat, own: set<nat>, grants: seq<Grant>, v: VPage)
    requires Going(b, m, root, own, grants) && GrantsApart(b, grants) && Writable(m.tables, root, v)
    requires m.tables.Keys !! m.data.Keys && m.data.Keys !! m.free
    ensures var f := Walk(m.tables, root, v).value.frame;
            f !in m.tables && f !in m.free && (f in own || Granted(grants, f))
  {
    hide Walk, LowUser, Granted, Extends;
    var f := Walk(m.tables, root, v).value.frame;
    assert f in own || Granted(grants, f);
    if f in own { assert f in m.data; }
  }

  lemma StoreGoes(b: Before, m: Before, n: Before, root: nat, own: set<nat>, grants: seq<Grant>, f: nat)
    requires Going(b, m, root, own, grants) && f in m.data && f in n.data && (f in own || Granted(grants, f))
    requires n == m.(data := m.data[f := n.data[f]])
    ensures Going(b, n, root, own, grants)
  {
    hide Walk, LowUser, Granted, Within;
    assert n.data.Keys == m.data.Keys;
  }

  // ---- mappings ----------------------------------------------------------------------------------

  /** Pages `cursor .. cursor + |frames|` show `frames`, and the other low pages what they showed. */
  ghost predicate ArenaShows(t0: Tables, t1: Tables, root: nat, cursor: nat, frames: seq<nat>, nocache: bool) {
    && (forall i :: 0 <= i < |frames| ==> BacksAs(t1, root, cursor + i, frames[i], nocache))
    && (forall q :: 0 <= q < LOW_PAGES && !(cursor <= q < cursor + |frames|) ==>
         Walk(t1, root, V(q)) == Walk(t0, root, V(q)))
  }

  /** What the mapping calls cost beyond the lower half: page `cursor + i` shows `frames[i]` in every space that has
      that part of the upper half in common. */
  ghost predicate Spills(m: Before, n: Before, root: nat, cursor: nat, frames: seq<nat>) {
    && Extends(m.shape, n.shape) && UpperKept(m.tables, n.tables, m.shape)
    && (cursor + |frames| <= 2 * LOW_PAGES ==>
         forall q, r :: cursor <= q < cursor + |frames| && InCommon(m.tables, m.shape, root, r, V(q)) ==>
           Shown(n.tables, r, q, frames[q - cursor]))
  }

  lemma SpillsNone(m: Before, root: nat, cursor: nat)
    ensures Spills(m, m, root, cursor, [])
  {
  }

  /** Pages below 2^48 have indices of their own. */
  lemma OtherPage(p: nat, q: nat)
    requires p < 2 * LOW_PAGES && q < 2 * LOW_PAGES && p != q
    ensures V(p) != V(q)
  {
    PageOfInjective(p * PAGE, q * PAGE);
  }

  lemma StillInCommon(m: Before, n: Before, root: nat, r: nat, v: VPage)
    requires Inv(m.tables, m.shape) && UpperKept(m.tables, n.tables, m.shape) && Extends(m.shape, n.shape)
    requires InCommon(m.tables, m.shape, root, r, v)
    ensures InCommon(n.tables, n.shape, root, r, v)
  {
    assert RootOk(m.tables, m.shape, r) && RootOk(m.tables, m.shape, root);
  }

  lemma SpillsMore(m: Before, n: Before, o: Before, root: nat, cursor: nat, frames: seq<nat>, f: nat)
    requires Inv(m.tables, m.shape) && Spills(m, n, root, cursor, frames) && MappedOne(n, o, root, cursor + |frames|, f)
    ensures Spills(m, o, root, cursor, frames + [f])
  {
    hide Inv, Walk, V, UpperKept, InCommon, Extends;
    var fs, last := frames + [f], cursor + |frames|;
    UpperTwice(m.tables, n.tables, o.tables, m.shape, n.shape);
    ExtendsTwice(m.shape, n.shape, o.shape);
    if cursor + |fs| <= 2 * LOW_PAGES {
      forall q, r | cursor <= q < cursor + |fs| && InCommon(m.tables, m.shape, root, r, V(q))
        ensures Shown(o.tables, r, q, fs[q - cursor])
      {
        StillInCommon(m, n, root, r, V(q));
        if q < last {
          OtherPage(q, last);
          CommonPage(n.tables, n.shape, root, r, V(q));
          assert Shown(n.tables, r, q, frames[q - cursor]);
        }
      }
    }
  }

  lemma ExtendsTwice(a: Shape, b: Shape, c: Shape)
    requires Extends(a, b) && Extends(b, c)
    ensures Extends(a, c)
  {
  }

  lemma CommonPage(tables: Tables, sh: Shape, root: nat, r: nat, v: VPage)
    requires InCommon(tables, sh, root, r, v)
    ensures Page(sh, r, v)
  {
  }

  lemma ArenaNone(t: Tables, root: nat, cursor: nat, nocache: bool)
    ensures ArenaShows(t, t, root, cursor, [], nocache)
  {
  }

  lemma ArenaMore(t0: Tables, t1: Tables, t2: Tables, root: nat, cursor: nat, frames: seq<nat>, f: nat, nocache: bool)
    requires ArenaShows(t0, t1, root, cursor, frames, nocache) && cursor + |frames| < LOW_PAGES
    requires BacksAs(t2, root, cursor + |frames|, f, nocache) && SamePagesBut(t1, t2, root, cursor + |frames|)
    ensures ArenaShows(t0, t2, root, cursor, frames + [f], nocache)
  {
    hide Walk, V;
    forall i | 0 <= i < |frames + [f]| ensures BacksAs(t2, root, cursor + i, (frames + [f])[i], nocache) {
      if i < |frames| { assert BacksAs(t1, root, cursor + i, frames[i], nocache); }
    }
  }

  /** What the mapping calls promise of the tables: within the lower half the arena shows `frames`, and no other
      space has changed. */
  ghost predicate Arena(b: Before, t0: Tables, t1: Tables, root: nat, cursor: nat, frames: seq<nat>, nocache: bool) {
    cursor + |frames| <= LOW_PAGES ==>
      && ArenaShows(t0, t1, root, cursor, frames, nocache)
      && (Elsewhere(b.tables, t0, b.shape, root) ==> Elsewhere(b.tables, t1, b.shape, root))
  }

  lemma ArenaStep(b: Before, t0: Tables, t1: Tables, t2: Tables, root: nat, cursor: nat, frames: seq<nat>, f: nat,
                  nocache: bool)
    requires Arena(b, t0, t1, root, cursor, frames, nocache)
    requires cursor + |frames| < LOW_PAGES ==>
      BacksAs(t2, root, cursor + |frames|, f, nocache) && SamePagesBut(t1, t2, root, cursor + |frames|)
    requires cursor + |frames| < LOW_PAGES && Elsewhere(b.tables, t1, b.shape, root) ==>
      Elsewhere(b.tables, t2, b.shape, root)
    ensures Arena(b, t0, t2, root, cursor, frames + [f], nocache)
  {
    hide ArenaShows, Elsewhere, BacksAs, SamePagesBut;
    if cursor + |frames| < LOW_PAGES { ArenaMore(t0, t1, t2, root, cursor, frames, f, nocache); }
  }

  lemma RangeGranted(grants: seq<Grant>, phys: nat, len: nat, i: nat)
    requires Allowed(grants, phys, len) && len > 0 && i < (phys % PAGE + len + PAGE - 1) / PAGE
    ensures Granted(grants, phys / PAGE + i)
  {
    var k :| 0 <= k < |grants| && grants[k].lo <= phys && phys + len <= grants[k].hi;
    var f := phys / PAGE + i;
    assert f * PAGE == phys / PAGE * PAGE + i * PAGE && phys == phys / PAGE * PAGE + phys % PAGE;
    assert i * PAGE + PAGE <= phys % PAGE + len + PAGE - 1;
    assert grants[k].lo < f * PAGE + PAGE && f * PAGE < grants[k].hi;
  }

  /** The frames behind `len` bytes of physical memory from `phys`. */
  function Physical(phys: nat, pages: nat): (r: seq<nat>)
    ensures |r| == pages && forall i :: 0 <= i < pages ==> r[i] == phys / PAGE + i
  {
    seq(pages, i => phys / PAGE + i)
  }

  /** `SYS_MMAP_MMIO`: granted physical memory, page by page, uncached. `ok` is false on a panic. */
  method MapMmioForUser(mem: Memory, root: nat, cursor: nat, phys: nat, len: nat, grants: seq<Grant>, ghost b: Before,
                        ghost own: set<nat>)
    returns (ok: bool, va: nat, pages: nat)
    requires mem.Valid() && Going(b, Now(mem), root, own, grants)
    modifies mem`tables, mem`free, mem`shape
    ensures mem.Valid() && pages == Asked(grants, MapMmio(phys, len)) && mem.free <= old(mem.free)
    ensures ok ==>
      Going(b, Now(mem), root, own, grants) && va == (if pages == 0 then 0 else cursor * PAGE + phys % PAGE)
    ensures ok ==> Arena(b, old(mem.tables), mem.tables, root, cursor, Physical(phys, pages), true)
    ensures !ok ==> mem.free == {}
    ensures ok ==> Spills(old(Now(mem)), Now(mem), root, cursor, Physical(phys, pages))
    ensures pages > 0 <==> 0 < len <= 0x100_0000 && exists i :: 0 <= i < |grants| && Inside(grants[i], phys, len)
    ensures pages > 0 ==> phys % PAGE + len <= pages * PAGE < phys % PAGE + len + PAGE
    ensures ok && 0 < pages && cursor + pages <= LOW_PAGES ==> ShowsRange(mem.tables, root, va, phys, len)
  {
    hide Going, Inv, Arena, Granted, Allowed, MappedOne, Spills;
    ghost var t0, m0 := mem.tables, Now(mem);
    ArenaStart(b, t0, root, cursor, true);
    SpillsNone(m0, root, cursor);
    if len == 0 || len > MAX_MMIO || !Allowed(grants, phys, len) {
      assert Physical(phys, 0) == [];
      assert !Allowed(grants, phys, len) ==> forall i :: 0 <= i < |grants| ==> !Inside(grants[i], phys, len) by {
        RefusedIs(grants, phys, len);
      }
      return true, 0, 0;
    }
    RefusedIs(grants, phys, len);
    pages := (phys % PAGE + len + PAGE - 1) / PAGE;
    ghost var frames := [];
    for i := 0 to pages
      invariant mem.Valid() && Going(b, Now(mem), root, own, grants) && mem.free <= old(mem.free)
      invariant frames == Physical(phys, i) && Arena(b, t0, mem.tables, root, cursor, frames, true)
      invariant Spills(m0, Now(mem), root, cursor, frames)
    {
      RangeGranted(grants, phys, len, i);
      ghost var t1, m1 := mem.tables, Now(mem);
      var mapped := MapOne(mem, root, cursor + i, phys / PAGE + i, true, b, own, grants);
      if !mapped { return false, 0, pages; }
      ArenaStep(b, t0, t1, mem.tables, root, cursor, frames, phys / PAGE + i, true);
      SpillsMore(m0, m1, Now(mem), root, cursor, frames, phys / PAGE + i);
      assert Physical(phys, i + 1) == Physical(phys, i) + [phys / PAGE + i];
      frames := frames + [phys / PAGE + i];
    }
    ok, va := true, cursor * PAGE + phys % PAGE;
    if cursor + pages <= LOW_PAGES { RangeShown(b, t0, mem.tables, root, cursor, phys, len, pages); }
  }

  /** `[phys, phys + len)` lies in the range. */
  ghost predicate Inside(g: Grant, phys: nat, len: nat) { g.lo <= phys && phys + len <= g.hi }

  lemma RefusedIs(grants: seq<Grant>, phys: nat, len: nat)
    ensures Allowed(grants, phys, len) <==> exists i :: 0 <= i < |grants| && Inside(grants[i], phys, len)
  {
    if Allowed(grants, phys, len) {
      var i :| 0 <= i < |grants| && grants[i].lo <= phys && phys + len <= grants[i].hi;
      assert Inside(grants[i], phys, len);
    }
  }

  /** Byte by byte, the `len` bytes at `va` are the physical ones at `phys`, for user mode to read and write, and
      uncached. */
  ghost predicate ShowsRange(tables: Tables, root: nat, va: nat, phys: nat, len: nat) {
    forall j :: 0 <= j < len ==> ShowsByte(tables, root, va, phys, j)
  }

  ghost predicate ShowsByte(tables: Tables, root: nat, va: nat, phys: nat, j: nat) {
    var e := Walk(tables, root, PageOf(va + j));
    && e.Some? && e.value.frame == (phys + j) / PAGE && (va + j) % PAGE == (phys + j) % PAGE
    && e.value.user && e.value.write && e.value.nocache
  }

  lemma OffsetPage(base: nat, x: nat)
    ensures (base * PAGE + x) / PAGE == base + x / PAGE && (base * PAGE + x) % PAGE == x % PAGE
  {
  }

  lemma RangeShown(b: Before, t0: Tables, t1: Tables, root: nat, cursor: nat, phys: nat, len: nat, pages: nat)
    requires Arena(b, t0, t1, root, cursor, Physical(phys, pages), true) && cursor + pages <= LOW_PAGES
    requires phys % PAGE + len <= pages * PAGE
    ensures ShowsRange(t1, root, cursor * PAGE + phys % PAGE, phys, len)
  {
    hide Walk, PageOf, Elsewhere;
    var va := cursor * PAGE + phys % PAGE;
    forall j | 0 <= j < len ensures ShowsByte(t1, root, va, phys, j) {
      var x := phys % PAGE + j;
      var i := x / PAGE;
      OffsetPage(cursor, x);
      OffsetPage(phys / PAGE, x);
      assert va + j == cursor * PAGE + x && phys + j == phys / PAGE * PAGE + x && i < pages;
      assert BacksAs(t1, root, cursor + i, Physical(phys, pages)[i], true);
      PageOfInjective(va + j, (cursor + i) * PAGE);
    }
  }

  lemma ArenaStart(b: Before, t: Tables, root: nat, cursor: nat, nocache: bool)
    ensures Arena(b, t, t, root, cursor, [], nocache)
  {
    ArenaNone(t, root, cursor, nocache);
  }

  lemma TakeOne(b: Before, m: Before, n: Before, root: nat, own: set<nat>, grants: seq<Grant>, p: nat)
    requires Going(b, m, root, own, grants) && p in m.free && p !in m.data
    requires n == m.(free := m.free - {p}, data := m.data[p := ZeroPage()])
    ensures Going(b, n, root, own + {p}, grants) && p !in own
  {
    hide Granted, LowUser, Extends, ZeroPage, Walk;
    assert m.free == (m.free - {p}) + {p};
    forall v: VPage | Writable(n.tables, root, v)
      ensures var f := Walk(n.tables, root, v).value.frame; f in own + {p} || Granted(grants, f)
    {
      assert Writable(m.tables, root, v);
    }
  }

  /** One fresh zeroed frame, mapped as page `q`; `None` when there is none. */
  method AnonOne(mem: Memory, root: nat, q: nat, ghost b: Before, ghost own: set<nat>, ghost grants: seq<Grant>)
    returns (p: Option<nat>, ok: bool)
    requires mem.Valid() && Going(b, Now(mem), root, own, grants)
    modifies mem
    ensures mem.Valid() && mem.free <= old(mem.free)
    ensures p.None? && ok ==> mem.free == {} && Now(mem) == old(Now(mem))
    ensures !ok ==> mem.free == {}
    ensures p.Some? && ok ==> MappedOne(old(Now(mem)), Now(mem), root, q, p.value)
    ensures p.Some? && ok ==> p.value in old(mem.free) && p.value !in own && p.value !in old(mem.data)
    ensures p.Some? && ok ==>
      mem.data == old(mem.data)[p.value := ZeroPage()] && Going(b, Now(mem), root, own + {p.value}, grants)
    ensures p.Some? && ok && q < LOW_PAGES ==>
      BacksAs(mem.tables, root, q, p.value, false) && SamePagesBut(old(mem.tables), mem.tables, root, q)
    ensures p.Some? && ok && q < LOW_PAGES && Elsewhere(b.tables, old(mem.tables), b.shape, root) ==>
              Elsewhere(b.tables, mem.tables, b.shape, root)
  {
    hide Going, Inv, ZeroPage, Elsewhere, SamePagesBut, BacksAs, UpperKept, SameBut, InCommon, Shown, Extends;
    ghost var m := Now(mem);
    p := mem.AllocPage();
    if p.None? { return None, true; }
    mem.data := mem.data[p.value := ZeroPage()];
    TakeOne(b, m, Now(mem), root, own, grants, p.value);
    ok := MapOne(mem, root, q, p.value, false, b, own + {p.value}, grants);
  }

  /** `SYS_MMAP_ANON`: fresh zeroed frames. Running out of them gives 0, but those already taken stay taken,
      and the arena has moved on in any case. `ok` is false on a panic. */
  method MapAnonForUser(mem: Memory, root: nat, cursor: nat, len: nat, ghost b: Before, ghost own: set<nat>,
                        ghost grants: seq<Grant>)
    returns (ok: bool, va: nat, pages: nat, ghost got: seq<nat>)
    requires mem.Valid() && Going(b, Now(mem), root, own, grants) && cursor > 0
    modifies mem
    ensures mem.Valid() && pages == Asked(grants, MapAnon(len)) && mem.free <= old(mem.free)
    ensures ok ==>
      Going(b, Now(mem), root, own + AsSet(got), grants) && NoRepeats(got) && AsSet(got) !! own && |got| <= pages
    ensures ok ==>
      if va != 0 then va == cursor * PAGE && |got| == pages else pages == 0 || (|got| < pages && mem.free == {})
    ensures ok ==> Arena(b, old(mem.tables), mem.tables, root, cursor, got, false)
    ensures ok ==>
      forall i :: 0 <= i < |got| ==> got[i] in old(mem.free) && got[i] in mem.data && mem.data[got[i]] == ZeroPage()
    ensures ok ==> forall f :: f in old(mem.data) ==> f in mem.data && mem.data[f] == old(mem.data)[f]
    ensures !ok ==> mem.free == {}
    ensures ok ==> Spills(old(Now(mem)), Now(mem), root, cursor, got)
    ensures pages > 0 <==> 0 < len <= 0x400_0000
    ensures pages > 0 ==> len <= pages * PAGE < len + PAGE
    ensures ok && va != 0 && cursor + pages <= LOW_PAGES ==>
      forall j :: 0 <= j < len ==> FreshByte(mem.tables, mem.data, root, va, j, old(mem.free))
  {
    hide Going, Inv, Arena, ZeroPage, Took, MappedOne, Spills;
    ghost var t0, m0 := mem.tables, Now(mem);
    got := [];
    ArenaStart(b, t0, root, cursor, false);
    SpillsNone(m0, root, cursor);
    assert own + AsSet(got) == own;
    if len == 0 || len > MAX_ANON { return true, 0, 0, got; }
    pages := (len + PAGE - 1) / PAGE;
    for i := 0 to pages
      invariant mem.Valid() && Going(b, Now(mem), root, own + AsSet(got), grants) && |got| == i
      invariant NoRepeats(got) && AsSet(got) !! own && Arena(b, t0, mem.tables, root, cursor, got, false)
      invariant mem.free <= old(mem.free) && Spills(m0, Now(mem), root, cursor, got)
      invariant forall j :: 0 <= j < |got| ==>
                  got[j] in old(mem.free) && got[j] in mem.data && mem.data[got[j]] == ZeroPage()
      invariant forall f :: f in old(mem.data) ==> f in mem.data && mem.data[f] == old(mem.data)[f]
    {
      ghost var t1, m1 := mem.tables, Now(mem);
      var p, mapped := AnonOne(mem, root, cursor + i, b, own + AsSet(got), grants);
      if !mapped { return false, 0, pages, got; }
      if p.None? { return true, 0, pages, got; }
      ArenaStep(b, t0, t1, mem.tables, root, cursor, got, p.value, false);
      SpillsMore(m0, m1, Now(mem), root, cursor, got, p.value);
      assert AsSet(got + [p.value]) == AsSet(got) + {p.value};
      assert own + AsSet(got) + {p.value} == own + AsSet(got + [p.value]);
      got := got + [p.value];
    }
    ok, va := true, cursor * PAGE;
    if cursor + pages <= LOW_PAGES {
      forall j | 0 <= j < len ensures FreshByte(mem.tables, mem.data, root, va, j, old(mem.free)) {
        FreshShown(b, t0, mem.tables, mem.data, root, cursor, got, old(mem.free), j);
      }
    }
  }

  /** Address `va + j` is a zero byte of a frame that was free, for user mode to read and write. */
  ghost predicate FreshByte(tables: Tables, data: map<nat, seq<Byte>>, root: nat, va: nat, j: nat, free: set<nat>) {
    var e := Walk(tables, root, PageOf(va + j));
    && e.Some? && e.value.user && e.value.write && !e.value.nocache && e.value.frame in free
    && Read(tables, data, root, va + j) == Some(0)
  }

  lemma FreshShown(b: Before, t0: Tables, t1: Tables, data: map<nat, seq<Byte>>, root: nat, cursor: nat, got: seq<nat>,
                   free: set<nat>, j: nat)
    requires Arena(b, t0, t1, root, cursor, got, false) && cursor + |got| <= LOW_PAGES && j < |got| * PAGE
    requires forall i :: 0 <= i < |got| ==> got[i] in free && got[i] in data && data[got[i]] == ZeroPage()
    ensures FreshByte(t1, data, root, cursor * PAGE, j, free)
  {
    hide Walk, PageOf, Elsewhere;
    var i := j / PAGE;
    OffsetPage(cursor, j);
    assert i < |got| && BacksAs(t1, root, cursor + i, got[i], false);
    PageOfInjective(cursor * PAGE + j, (cursor + i) * PAGE);
  }

  /** What one step did: a store its byte, a mapping its pages, and nothing else that the program can see. */
  ghost predicate Served(b: Before, m: Before, n: Before, root: nat, cursor: nat, s: Step, grants: seq<Grant>,
                         got: seq<nat>) {
    match s
    case Store(v, off, x) =>
      && n.tables == m.tables && n.free == m.free && got == []
      && n.data == if Writable(m.tables, root, v) then Stored(m.data, Walk(m.tables, root, v).value.frame, off, x)
                   else m.data
    case MapMmio(phys, len) =>
      && n.data == m.data && got == []
      && Arena(b, m.tables, n.tables, root, cursor, Physical(phys, Asked(grants, s)), true)
      && Spills(m, n, root, cursor, Physical(phys, Asked(grants, s)))
    case MapAnon(len) =>
      && (forall f :: f in m.data ==> f in n.data && n.data[f] == m.data[f])
      && (forall i :: 0 <= i < |got| ==> got[i] in m.free && got[i] in n.data && n.data[got[i]] == ZeroPage())
      && |got| <= Asked(grants, s) && (|got| < Asked(grants, s) ==> n.free == {})
      && Arena(b, m.tables, n.tables, root, cursor, got, false) && Spills(m, n, root, cursor, got)
  }

  /** Memory after a byte is stored in frame `f`, if that is RAM. */
  ghost function Stored(data: map<nat, seq<Byte>>, f: nat, off: nat, x: Byte): map<nat, seq<Byte>> {
    if f in data && off < |data[f]| then data[f := WithByte(data[f], off, x)] else data
  }

  /** Pages of anonymous memory asked for. */
  function AnonAsked(grants: seq<Grant>, steps: seq<Step>): nat {
    if steps == [] then 0
    else
      var last := steps[|steps| - 1];
      AnonAsked(grants, steps[..|steps| - 1]) + if last.MapAnon? then Asked(grants, last) else 0
  }

  // ---- the whole life ----------------------------------------------------------------------------

  /** Any steps, in any order. `anon` are the frames the program asked for and got. `ok` is false on a panic. */
  method Program(mem: Memory, root: nat, steps: seq<Step>, grants: seq<Grant>, ghost b: Before, ghost own: set<nat>)
    returns (ok: bool, next: nat, ghost anon: seq<nat>)
    requires mem.Valid() && Going(b, Now(mem), root, own, grants) && GrantsApart(b, grants)
    modifies mem
    ensures mem.Valid() && (ok ==> next == Cursor(grants, steps)) && (!ok ==> mem.free == {})
    ensures ok ==> Extends(old(mem.shape), mem.shape) && UpperKept(old(mem.tables), mem.tables, old(mem.shape))
    ensures ok ==> Going(b, Now(mem), root, own + AsSet(anon), grants) && NoRepeats(anon) && AsSet(anon) !! own
    ensures ok ==> |anon| <= AnonAsked(grants, steps) && (|anon| < AnonAsked(grants, steps) ==> mem.free == {})
    ensures ok && next <= LOW_PAGES && Elsewhere(b.tables, old(mem.tables), b.shape, root) ==>
      Elsewhere(b.tables, mem.tables, b.shape, root)
  {
    hide Going, Inv, Elsewhere, Granted, GrantsApart, Allowed, Asked, Served, UpperKept, Extends;
    anon, next := [], MMIO_BASE / PAGE;
    UpperKeptSelf(mem.tables, mem.shape);
    assert own + AsSet(anon) == own && steps[..0] == [];
    for i := 0 to |steps|
      invariant mem.Valid() && next == Cursor(grants, steps[..i]) >= MMIO_BASE / PAGE
      invariant Going(b, Now(mem), root, own + AsSet(anon), grants) && NoRepeats(anon) && AsSet(anon) !! own
      invariant |anon| <= AnonAsked(grants, steps[..i]) && (|anon| < AnonAsked(grants, steps[..i]) ==> mem.free == {})
      invariant Extends(old(mem.shape), mem.shape) && UpperKept(old(mem.tables), mem.tables, old(mem.shape))
      invariant next <= LOW_PAGES && Elsewhere(b.tables, old(mem.tables), b.shape, root) ==>
        Elsewhere(b.tables, mem.tables, b.shape, root)
    {
      assert steps[..i + 1][..i] == steps[..i] && steps[..i + 1][i] == steps[i];
      ghost var t0 := mem.tables;
      var pages;
      ghost var got;
      ghost var m := Now(mem);
      ok, pages, got := Serve(mem, root, next, steps[i], grants, b, own + AsSet(anon));
      if !ok { return; }
      UpperTwice(old(mem.tables), m.tables, mem.tables, old(mem.shape), m.shape);
      ExtendsTwice(old(mem.shape), m.shape, mem.shape);
      ServedCount(b, m, Now(mem), root, next, steps[i], grants, got);
      assert AsSet(anon + got) == AsSet(anon) + AsSet(got);
      assert own + AsSet(anon) + AsSet(got) == own + AsSet(anon + got);
      ApartConcat(anon, got);
      anon, next := anon + got, next + pages;
    }
    assert steps[..|steps|] == steps;
    ok := true;
  }

  lemma UpperKeptSelf(t: Tables, sh: Shape)
    ensures UpperKept(t, t, sh) && Extends(sh, sh)
  {
  }

  lemma ServedCount(b: Before, m: Before, n: Before, root: nat, cursor: nat, s: Step, grants: seq<Grant>, got: seq<nat>)
    requires Served(b, m, n, root, cursor, s, grants, got)
    ensures s.MapAnon? ==> |got| <= Asked(grants, s) && (|got| < Asked(grants, s) ==> n.free == {})
    ensures !s.MapAnon? ==> got == []
  {
    hide Arena, Asked, Stored, Writable, Walk, Spills;
  }

  lemma ApartConcat(a: seq<nat>, c: seq<nat>)
    requires NoRepeats(a) && NoRepeats(c) && AsSet(a) !! AsSet(c)
    ensures NoRepeats(a + c)
  {
    forall i, j | 0 <= i < j < |a + c| ensures (a + c)[i] != (a + c)[j] {
      if i < |a| <= j { assert a[i] in AsSet(a) && c[j - |a|] in AsSet(c); }
    }
  }

  /** One step of the program. */
  method Serve(mem: Memory, root: nat, cursor: nat, step: Step, grants: seq<Grant>, ghost b: Before,
               ghost own: set<nat>)
    returns (ok: bool, pages: nat, ghost got: seq<nat>)
    requires mem.Valid() && Going(b, Now(mem), root, own, grants) && GrantsApart(b, grants) && cursor > 0
    modifies mem
    ensures mem.Valid() && pages == Asked(grants, step) && mem.free <= old(mem.free)
    ensures ok ==> Going(b, Now(mem), root, own + AsSet(got), grants) && NoRepeats(got) && AsSet(got) !! own
    ensures ok ==> Served(b, old(Now(mem)), Now(mem), root, cursor, step, grants, got)
    ensures !ok ==> mem.free == {}
    ensures ok ==> Extends(old(mem.shape), mem.shape) && UpperKept(old(mem.tables), mem.tables, old(mem.shape))
    ensures ok && cursor + pages <= LOW_PAGES && Elsewhere(b.tables, old(mem.tables), b.shape, root) ==>
              Elsewhere(b.tables, mem.tables, b.shape, root)
  {
    hide Going, Inv, Elsewhere, Granted, GrantsApart, Allowed, ArenaShows, Writable, Walk, Stored, InCommon, Shown;
    got := [];
    assert own + AsSet(got) == own;
    match step
    case Store(v, off, x) =>
      UserStore(mem, root, v, off, x, b, own, grants);
      ok, pages := true, 0;
    case MapMmio(phys, len) =>
      var va;
      ok, va, pages := MapMmioForUser(mem, root, cursor, phys, len, grants, b, own);
    case MapAnon(len) =>
      var va;
      ok, va, pages, got := MapAnonForUser(mem, root, cursor, len, b, own, grants);
  }

  lemma GoingAtStart(b: Before, m: Before, root: nat, own: set<nat>, grants: seq<Grant>)
    requires root in m.shape.users && Extends(b.shape, m.shape) && Accounted(b, m.tables, m.data, m.free, own)
    requires b.data.Keys !! b.free
    requires Confined(m.tables, root, own) && LowUser(m.tables, root)
    requires forall f :: f in b.data ==> f in m.data && m.data[f] == b.data[f]
    ensures Going(b, m, root, own, grants)
  {
    hide LowUser, Walk, Extends;
  }

  lemma FramedParts(b: Before, mem: Memory, root: nat, c: Mode)
    requires Framed(b, mem, root, [], c)
    ensures Extends(b.shape, mem.shape) && (c.low ==> Elsewhere(b.tables, mem.tables, b.shape, root))
    ensures forall f :: f in b.data ==> f in mem.data && mem.data[f] == b.data[f]
  {
  }

  lemma RunOthers(t0: Tables, b: Before, t1: Tables, t2: Tables, sh0: Shape, root: nat)
    requires SameSpaces(t0, t1, sh0) && Elsewhere(b.tables, t1, b.shape, root) && Elsewhere(b.tables, t2, b.shape, root)
    requires !IsRoot(sh0, root) && b.shape.users == sh0.users + {root} && b.shape.kernel == sh0.kernel
    ensures SameSpaces(t0, t2, sh0)
  {
    hide Walk;
    forall r: nat, w: VPage | Page(sh0, r, w) ensures Walk(t2, r, w) == Walk(t0, r, w) {
      assert Page(b.shape, r, w);
    }
  }

  /** Of the frames that were free, what a program leaves neither free nor in use by anybody: the tables below its
      root, and the memory it asked for while it ran. */
  lemma Leaked(t0: Tables, f0: set<nat>, b: Before, t2: Tables, f2: set<nat>, own: set<nat>, anon: set<nat>,
               f3: set<nat>, root: nat)
    requires Took(t0, f0, b.tables, b.free) && root in f0 && root !in t0 && b.tables.Keys == t0.Keys + {root}
    requires b.tables.Keys <= t2.Keys && b.free == f2 + (t2.Keys - b.tables.Keys) + (own + anon)
    requires f3 == f2 + own + {root}
    ensures f0 == f3 + ((t2 - {root}).Keys - t0.Keys) + anon
  {
    assert b.tables.Keys - t0.Keys == {root};
    assert (t2 - {root}).Keys - t0.Keys == t2.Keys - b.tables.Keys;
  }

  /** A root taken from the free frames stays in use, with no program to give it back. */
  ghost predicate Abandoned(m: Before, users: set<nat>) {
    exists root :: root in m.free && users == m.shape.users + {root}
  }

  /** Run a program to its end, whatever it does. The frames that were free are free again except exactly the
      tables below its root and the memory it got of what it asked for: all of it, unless nothing is
      free at the end but what the program gives `back`. Every frame that was in use holds what it held
      unless it is granted; and no other space has changed, provided the file and the program's
      mappings stayed in the lower half.  An error is the first check the file fails, or that nothing is
      free; then nothing that was taken is given back, and the new root stays in use. */
  method RunElf(mem: Memory, d: seq<Byte>, cr3: nat, steps: seq<Step>, grants: seq<Grant>)
    returns (r: Result, ghost anon: seq<nat>, ghost back: set<nat>)
    requires mem.Valid() && IsRoot(mem.shape, cr3) && Private(mem.tables, cr3) && GrantsApart(Now(mem), grants)
    modifies mem
    ensures mem.Valid()
    ensures r.Ok? ==>
      FirstError(d, PhNum(d)) == None && r.entry == Field(d, 24, 8) && mem.shape.users == old(mem.shape).users
    ensures r.Ok? ==> |anon| <= AnonAsked(grants, steps) && AsSet(r.pages) <= back <= mem.free
    ensures r.Ok? && |anon| < AnonAsked(grants, steps) ==> mem.free == back
    ensures r.Ok? ==> old(mem.free) == mem.free + (mem.tables.Keys - old(mem.tables).Keys) + AsSet(anon)
    ensures r.Ok? ==>
      NoRepeats(anon) && AsSet(anon) !! old(mem.data).Keys && mem.data.Keys == old(mem.data).Keys + AsSet(anon)
    ensures r.Ok? ==> forall f :: f in old(mem.data) && !Granted(grants, f) ==> mem.data[f] == old(mem.data)[f]
    ensures r.Ok? && AllUser(LoadList(d, PhNum(d))) && Cursor(grants, steps) <= LOW_PAGES ==>
              SameSpaces(old(mem.tables), mem.tables, old(mem.shape))
    ensures r.Err? && r.error in {OutOfMemory, Panicked} ==> mem.free == {}
    ensures r.Err? && r.error == NoSegments ==> FirstError(d, PhNum(d)) == None && LoadList(d, PhNum(d)) == []
    ensures r.Err? && r.error !in {OutOfMemory, Panicked, NoSegments} ==> FirstError(d, PhNum(d)) == Some(r.error)
    ensures r.Err? && r.error != Panicked ==>
      Taken(old(Now(mem)), mem.tables, mem.data, mem.free) && Abandoned(old(Now(mem)), mem.shape.users)
    ensures r.Err? && r.error != Panicked ==>
      && (AllUser(LoadList(d, PhNum(d))) ==> SameSpaces(old(mem.tables), mem.tables, old(mem.shape)))
      && forall f :: f in old(mem.data) ==> f in mem.data && mem.data[f] == old(mem.data)[f]
  {
    hide Inv, LoadList, PhNum, FirstError, SameSpaces, Accounted, Field, Took, Ready, Framed, Walk, Elsewhere, Extends,
      Confined, Private, LowUser, Granted, GrantsApart, Going, Cursor, AllUser, Taken, UpperKept;
    anon, back := [], {};
    ghost var t0, f0, sh0, m0 := mem.tables, mem.free, mem.shape, Now(mem);
    var root, stack;
    ghost var b;
    root, r, stack, b := SetUp(mem, d, cr3);
    if r.Err? { return; }
    ghost var own, c := AsSet(r.pages) + AsSet(stack), ModeOf(d, false);
    FramedParts(b, mem, root, c);
    GoingAtStart(b, Now(mem), root, own, grants);
    GrantsStart(m0, b, grants, root);
    ghost var t1 := mem.tables;
    var ok, next;
    ok, next, anon := Program(mem, root, steps, grants, b, own);
    if !ok { return Err(Panicked), anon, {}; }
    ghost var m2 := Now(mem);
    GoingParts(b, m2, root, own + AsSet(anon), grants);
    TearDown(mem, root, r.pages, stack);
    back := own + {root};
    Leaked(t0, f0, b, m2.tables, m2.free, own, AsSet(anon), mem.free, root);
    Left(b.data, m2.data, own, AsSet(anon), mem.data, grants);
    if c.low && next <= LOW_PAGES {
      RunOthers(t0, b, t1, m2.tables, sh0, root);
      DroppedOthers(t0, m2.tables, mem.tables, sh0, m2.shape, root);
    }
  }

  lemma Left(d0: map<nat, seq<Byte>>, d2: map<nat, seq<Byte>>, own: set<nat>, anon: set<nat>, d3: map<nat, seq<Byte>>,
             grants: seq<Grant>)
    requires d2.Keys == d0.Keys + (own + anon) && own + anon !! d0.Keys && own !! anon && d3 == d2 - own
    requires forall f :: f in d0 && !Granted(grants, f) ==> d2[f] == d0[f]
    ensures d3.Keys == d0.Keys + anon && anon !! d0.Keys
    ensures forall f :: f in d0 && !Granted(grants, f) ==> d3[f] == d0[f]
  {
    hide Granted;
  }

  lemma GrantsStart(m: Before, b: Before, grants: seq<Grant>, root: nat)
    requires GrantsApart(m, grants) && Took(m.tables, m.free, b.tables, b.free)
    requires root in m.free && b.tables.Keys == m.tables.Keys + {root}
    ensures GrantsApart(b, grants)
  {
    hide Granted;
  }

  lemma GoingParts(b: Before, m: Before, root: nat, own: set<nat>, grants: seq<Grant>)
    requires Going(b, m, root, own, grants)
    ensures root in m.shape.users && Extends(b.shape, m.shape) && m.shape.users == b.shape.users
    ensures m.shape.kernel == b.shape.kernel
    ensures b.tables.Keys <= m.tables.Keys && b.free == m.free + (m.tables.Keys - b.tables.Keys) + own
    ensures m.data.Keys == b.data.Keys + own && own !! b.data.Keys
    ensures forall f :: f in b.data && !Granted(grants, f) ==> m.data[f] == b.data[f]
  {
    hide Granted, LowUser, Within;
  }

  /** The condition is about what the program asks for, and it can fail: calls move the arena on even when they
      get nothing, and after 2,097,128 of them its next page is the first of the kernel half. */
  lemma ArenaEnd(grants: seq<Grant>)
    ensures var steps := seq(2_097_128, _ => MapAnon(MAX_ANON));
      Cursor(grants, steps) == LOW_PAGES && PageOf(Cursor(grants, steps) * PAGE)[0] == 256
  {
    ManyAsked(grants, 2_097_128);
  }

  lemma {:induction false} ManyAsked(grants: seq<Grant>, n: nat)
    ensures Cursor(grants, seq(n, _ => MapAnon(MAX_ANON))) == MMIO_BASE / PAGE + 16384 * n
  {
    if n > 0 {
      var steps := seq(n, _ => MapAnon(MAX_ANON));
      assert steps[..n - 1] == seq(n - 1, _ => MapAnon(MAX_ANON));
      ManyAsked(grants, n - 1);
    }
  }

  /** A page of the arena is in the lower half if and only if its number is below `LOW_PAGES`. */
  lemma LowIff(q: nat)
    requires q < 2 * LOW_PAGES
    ensures V(q)[0] < 256 <==> q < LOW_PAGES
  {
    PageOfInjective(q * PAGE, q * PAGE);
  }

  /** And then it matters: once a program's calls have moved the arena there, its next mapping of granted memory,
      unless the kernel panics for lack of memory, appears in every other space that has that part of the
      upper half in common. */
  method ArenaSpills(mem: Memory, root: nat, other: nat, steps: seq<Step>, grants: seq<Grant>, phys: nat, len: nat,
                     ghost b: Before, ghost own: set<nat>)
    returns (ok: bool)
    requires mem.Valid() && Going(b, Now(mem), root, own, grants) && GrantsApart(b, grants)
    requires 0 < len <= MAX_MMIO && Allowed(grants, phys, len)
    requires LOW_PAGES <= Cursor(grants, steps)
    requires Cursor(grants, steps) + Asked(grants, MapMmio(phys, len)) <= 2 * LOW_PAGES
    requires IsRoot(mem.shape, other) && root in mem.tables && other in mem.tables
    requires var i := V(Cursor(grants, steps))[0];
             mem.tables[other][i].present && mem.tables[other][i] == mem.tables[root][i]
    modifies mem
    ensures mem.Valid() && (!ok ==> mem.free == {})
    ensures ok ==> Shown(mem.tables, other, Cursor(grants, steps), phys / PAGE)
  {
    hide Inv, Going, GrantsApart, UpperKept, Extends, Cursor, V, Arena, Allowed, Shown, Walk;
    ghost var m0, q := Now(mem), Cursor(grants, steps);
    LowIff(q);
    GoingParts(b, m0, root, own, grants);
    var next;
    ghost var anon;
    ok, next, anon := Program(mem, root, steps, grants, b, own);
    if !ok { return; }
    ghost var m1 := Now(mem);
    StillInCommon(m0, m1, root, other, V(q));
    var va, pages;
    ok, va, pages := MapMmioForUser(mem, root, next, phys, len, grants, b, own + AsSet(anon));
    assert next == q && pages > 0;
  }
}
