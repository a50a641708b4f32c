/** Both ends of a program's life in memory, as `run_elf` has them: its space, its pages, its stack,
    and what is given back when it exits. */
module Process {
  import opened Paging
  import opened ElfFormat
  import opened Elf

  const STACK_PAGES: nat := 8
  const STACK_TOP: nat := 0x7FFF_F000
  const STACK_BASE: nat := STACK_TOP - STACK_PAGES * PAGE

  /** Memory as it is now. */
  ghost function Now(mem: Memory): Before
    reads mem
  {
    Before(mem.tables, mem.shape, mem.data, mem.free)
  }

  ghost function AsSet(s: seq<nat>): set<nat> { set f | f in s }

  ghost predicate NoRepeats(s: seq<nat>) { forall i, j :: 0 <= i < j < |s| ==> s[i] != s[j] }

  const FIRST_STACK_PAGE: nat := STACK_BASE / PAGE

  predicate IsStack(q: nat) { FIRST_STACK_PAGE <= q < FIRST_STACK_PAGE + STACK_PAGES }

  /** One zeroed page, mapped as page `q`. Without a frame for the page that is an error, without one for a table a
      panic. */
  method MapStackPage(mem: Memory, root: nat, q: nat, ghost b: Before, ghost pages: set<nat>, ghost c: Mode)
    returns (e: Option<Error>, p: nat)
    requires mem.Valid() && root in mem.shape.users && b.data.Keys !! b.free && q < LOW_PAGES
    requires LowUser(mem.tables, root)
    requires Framed(b, mem, root, [], c) && Accounted(b, mem.tables, mem.data, mem.free, pages)
    requires c.bare ==> Confined(mem.tables, root, pages)
    modifies mem
    ensures mem.Valid() && mem.shape.users == old(mem.shape.users) && Framed(b, mem, root, [], c)
    ensures e.Some? ==> e.value in {OutOfMemory, Panicked} && mem.free == {} && Taken(b, mem.tables, mem.data, mem.free)
    ensures e.None? && c.bare ==> Confined(mem.tables, root, pages + {p})
    ensures e.None? ==> p !in pages && Accounted(b, mem.tables, mem.data, mem.free, pages + {p})
    ensures e.None? ==> p !in old(mem.data) && mem.data == old(mem.data)[p := ZeroPage()]
    ensures e.None? ==> LowUser(mem.tables, root) && Backs(mem.tables, root, q, p)
    ensures e.None? ==> SamePagesBut(old(mem.tables), mem.tables, root, q)
    ensures e.None? ==> UpperSame(old(mem.tables), mem.tables, b.shape)
  {
    hide PageOf, Walk, UserPath, Inv, SameBut, SameUser, SameSpaces, Elsewhere, Took, LowUser, SamePagesBut, Confined,
      UpperKept, Taken, Accounted, UpperSame;
    ghost var t0, sh0, d0 := mem.tables, mem.shape, mem.data;
    AllTaken(b, mem.tables, mem.data, mem.free, pages);
    var f := mem.AllocPage();
    if f.None? { return Some(OutOfMemory), 0; }
    p := f.value;
    mem.data := mem.data[p := ZeroPage()];
    InSpace(mem.shape, root, q * PAGE);
    Walkable(t0, root, q);
    var mapped := mem.MapInto(root, q * PAGE, p, true, true, false);
    UpperTwice(b.tables, t0, mem.tables, b.shape, sh0);
    StackTaken(b, t0, d0, old(mem.free), mem.tables, mem.data, mem.free, pages, p);
    if c.low { StackElsewhere(b, t0, mem.tables, sh0, root, q * PAGE, mapped); }
    if !mapped { return Some(Panicked), p; }
    StackSeen(t0, mem.tables, sh0, root, q);
    StackBelow(b, t0, mem.tables, sh0, root, q);
    if c.bare { ConfinedMore(t0, mem.tables, sh0, root, PageOf(q * PAGE), p, pages); }
    e := None;
  }

  lemma StackTaken(b: Before, t0: Tables, d0: map<nat, seq<Byte>>, f0: set<nat>, t1: Tables, d1: map<nat, seq<Byte>>,
                   f1: set<nat>, pages: set<nat>, p: nat)
    requires Accounted(b, t0, d0, f0, pages) && p in f0 && Took(t0, f0 - {p}, t1, f1) && d1.Keys == d0.Keys + {p}
    requires b.data.Keys !! b.free && d0.Keys !! f0
    ensures Accounted(b, t1, d1, f1, pages + {p}) && Taken(b, t1, d1, f1) && f1 <= f0 && p !in pages
  {
    AccountedMore(b, t0, d0, f0, t1, d1, f1, pages, p);
    AllTaken(b, t1, d1, f1, pages + {p});
  }

  /** No space has changed in the upper half. */
  ghost predicate UpperSame(t0: Tables, t1: Tables, sh: Shape) {
    forall r: nat, v: VPage :: Page(sh, r, v) && v[0] >= 256 ==> Walk(t1, r, v) == Walk(t0, r, v)
  }

  lemma StackBelow(b: Before, t0: Tables, t1: Tables, sh: Shape, root: nat, q: nat)
    requires SameBut(t0, t1, sh, root, PageOf(q * PAGE)) && q < LOW_PAGES && Extends(b.shape, sh)
    ensures UpperSame(t0, t1, b.shape)
  {
    hide Walk, PageOf;
    LowPages(q, q);
    forall r: nat, v: VPage | Page(b.shape, r, v) && v[0] >= 256 ensures Walk(t1, r, v) == Walk(t0, r, v) {
      assert Page(sh, r, v);
    }
  }

  lemma UpperSameTwice(t0: Tables, t1: Tables, t2: Tables, sh: Shape)
    requires UpperSame(t0, t1, sh) && UpperSame(t1, t2, sh)
    ensures UpperSame(t0, t2, sh)
  {
    hide Walk;
  }

  /** So what a file shows in the upper half of other spaces stays. */
  lemma SpilledStays(b: Before, t1: Tables, t2: Tables, root: nat, segs: seq<Segment>, pages: seq<nat>)
    requires Spilled(b.tables, b.shape, t1, root, segs, pages) && UpperSame(t1, t2, b.shape)
    ensures Spilled(b.tables, b.shape, t2, root, segs, pages)
  {
    hide Walk, V, InImage;
    forall q: nat, r: nat | InImage(segs, q) && InCommon(b.tables, b.shape, root, r, V(q))
      ensures var e := Walk(t2, r, V(q)); e.Some? && e.value.frame in pages
    {
      assert Page(b.shape, r, V(q)) && Walk(t2, r, V(q)) == Walk(t1, r, V(q));
    }
  }

  /** No low page but `q` of the space translates differently. */
  ghost predicate SamePagesBut(t0: Tables, t1: Tables, root: nat, q: nat) {
    forall p :: 0 <= p < LOW_PAGES && p != q ==> Walk(t1, root, V(p)) == Walk(t0, root, V(p))
  }

  lemma Walkable(tables: Tables, root: nat, q: nat)
    requires LowUser(tables, root) && q < LOW_PAGES
    ensures UserPath(tables, root, PageOf(q * PAGE))
  {
    assert UserPath(tables, root, V(q));
  }

  lemma StackSeen(t0: Tables, t1: Tables, sh: Shape, root: nat, q: nat)
    requires root in sh.users && q < LOW_PAGES && LowUser(t0, root)
    requires SameBut(t0, t1, sh, root, PageOf(q * PAGE)) && SameUser(t0, t1, sh)
    ensures LowUser(t1, root) && SamePagesBut(t0, t1, root, q)
  {
    hide Walk, UserPath, PageOf;
    forall p | 0 <= p < LOW_PAGES
      ensures UserPath(t1, root, V(p)) && (p != q ==> Walk(t1, root, V(p)) == Walk(t0, root, V(p)))
    {
      LowPages(p, q);
      assert Page(sh, root, V(p)) && UserPath(t0, root, V(p));
    }
  }

  /** The stack is in place: its pages are zero and the program's own, and below and above it the
      space is as it was. */
  ghost predicate StackUpTo(t0: Tables, tables: Tables, data: map<nat, seq<Byte>>, root: nat, stack: seq<nat>) {
    && (forall i :: 0 <= i < |stack| ==> stack[i] in data && data[stack[i]] == ZeroPage())
    && (forall i :: 0 <= i < |stack| ==> Backs(tables, root, FIRST_STACK_PAGE + i, stack[i]))
    && (forall p :: 0 <= p < LOW_PAGES && !IsStack(p) ==> Walk(tables, root, V(p)) == Walk(t0, root, V(p)))
  }

  function ZeroPage(): seq<Byte> { seq(PAGE, _ => 0) }

  /** Eight zeroed pages under the stack top. */
  method MapStack(mem: Memory, root: nat, ghost b: Before, ghost pages: set<nat>, ghost c: Mode)
    returns (e: Option<Error>, stack: seq<nat>)
    requires mem.Valid() && root in mem.shape.users && b.data.Keys !! b.free && LowUser(mem.tables, root)
    requires Framed(b, mem, root, [], c) && Accounted(b, mem.tables, mem.data, mem.free, pages)
    requires c.bare ==> Confined(mem.tables, root, pages)
    modifies mem
    ensures mem.Valid() && mem.shape.users == old(mem.shape.users) && Framed(b, mem, root, [], c)
    ensures e.Some? ==> e.value in {OutOfMemory, Panicked} && mem.free == {} && Taken(b, mem.tables, mem.data, mem.free)
    ensures e.None? && c.bare ==> Confined(mem.tables, root, pages + AsSet(stack))
    ensures e.None? ==>
      && Accounted(b, mem.tables, mem.data, mem.free, pages + AsSet(stack))
      && |stack| == STACK_PAGES
      && AsSet(stack) !! pages
      && NoRepeats(stack)
    ensures e.None? ==> StackUpTo(old(mem.tables), mem.tables, mem.data, root, stack) && LowUser(mem.tables, root)
    ensures e.None? ==> forall f :: f in old(mem.data) ==> f in mem.data && mem.data[f] == old(mem.data)[f]
    ensures e.None? ==> UpperSame(old(mem.tables), mem.tables, b.shape)
  {
    hide Inv, Framed, Accounted, LowUser, Backs, SamePagesBut, StackUpTo, ZeroPage, Confined, Taken, UpperSame;
    UpperSelf(mem.tables, b.shape);
    stack := [];
    assert pages + AsSet(stack) == pages;
    StackNone(mem.tables, mem.data, root);
    for i := 0 to STACK_PAGES
      invariant mem.Valid() && mem.shape.users == old(mem.shape.users) && Framed(b, mem, root, [], c)
      invariant LowUser(mem.tables, root)
      invariant |stack| == i && Accounted(b, mem.tables, mem.data, mem.free, pages + AsSet(stack))
      invariant AsSet(stack) !! pages && NoRepeats(stack)
      invariant c.bare ==> Confined(mem.tables, root, pages + AsSet(stack))
      invariant StackUpTo(old(mem.tables), mem.tables, mem.data, root, stack)
      invariant UpperSame(old(mem.tables), mem.tables, b.shape)
      invariant forall f :: f in old(mem.data) ==> f in mem.data && mem.data[f] == old(mem.data)[f]
    {
      ghost var t1, d1 := mem.tables, mem.data;
      var p;
      e, p := MapStackPage(mem, root, FIRST_STACK_PAGE + i, b, pages + AsSet(stack), c);
      if e.Some? { return; }
      assert AsSet(stack + [p]) == AsSet(stack) + {p};
      assert pages + AsSet(stack) + {p} == pages + (AsSet(stack) + {p});
      StackMore(old(mem.tables), t1, d1, mem.tables, root, stack, p);
      UpperSameTwice(old(mem.tables), t1, mem.tables, b.shape);
      stack := stack + [p];
    }
    e := None;
  }

  lemma UpperSelf(t: Tables, sh: Shape)
    ensures UpperSame(t, t, sh)
  {
  }

  lemma StackNone(tables: Tables, data: map<nat, seq<Byte>>, root: nat)
    ensures StackUpTo(tables, tables, data, root, [])
  {
  }

  lemma StackMore(t0: Tables, t1: Tables, d1: map<nat, seq<Byte>>, t2: Tables, root: nat, stack: seq<nat>, f: nat)
    requires StackUpTo(t0, t1, d1, root, stack) && |stack| < STACK_PAGES && f !in d1
    requires Backs(t2, root, FIRST_STACK_PAGE + |stack|, f) && SamePagesBut(t1, t2, root, FIRST_STACK_PAGE + |stack|)
    ensures StackUpTo(t0, t2, d1[f := ZeroPage()], root, stack + [f])
  {
    hide Walk, V, ZeroPage;
    forall i | 0 <= i < |stack + [f]| ensures Backs(t2, root, FIRST_STACK_PAGE + i, (stack + [f])[i]) {
      if i < |stack| { assert Backs(t1, root, FIRST_STACK_PAGE + i, stack[i]); }
    }
  }

  lemma InSpace(sh: Shape, root: nat, virt: nat)
    requires root in sh.users
    ensures Page(sh, root, PageOf(virt))
  {
  }

  lemma StackElsewhere(b: Before, t0: Tables, t1: Tables, sh0: Shape, root: nat, virt: nat, mapped: bool)
    requires Extends(b.shape, sh0) && Elsewhere(b.tables, t0, b.shape, root) && virt < USER_TOP
    requires if mapped then SameBut(t0, t1, sh0, root, PageOf(virt)) else SameSpaces(t0, t1, sh0)
    ensures Elsewhere(b.tables, t1, b.shape, root)
  {
    hide Walk, PageOf;
    PageOfInjective(virt, virt);
    assert Elsewhere(t0, t1, sh0, root);
  }

  /** Give frames back one by one; each is in use until then. */
  method FreeAll(mem: Memory, frames: seq<nat>)
    requires mem.Valid() && (forall f :: f in frames ==> f in mem.data)
    requires NoRepeats(frames)
    modifies mem`data, mem`free
    ensures mem.Valid() && mem.free == old(mem.free) + AsSet(frames) && mem.data == old(mem.data) - AsSet(frames)
    ensures old(mem.free) !! AsSet(frames)
  {
    hide Inv;
    for i := 0 to |frames|
      invariant mem.Valid() && mem.free == old(mem.free) + AsSet(frames[..i])
      invariant mem.data == old(mem.data) - AsSet(frames[..i])
      invariant mem.tables == old(mem.tables) && mem.shape == old(mem.shape)
    {
      assert frames[..i + 1] == frames[..i] + [frames[i]];
      assert AsSet(frames[..i + 1]) == AsSet(frames[..i]) + {frames[i]};
      mem.free := mem.free + {frames[i]};
      mem.data := mem.data - {frames[i]};
    }
    assert frames[..|frames|] == frames;
  }

  ghost function WithoutRoot(sh: Shape, r: nat): Shape { sh.(role := sh.role - {r}, users := sh.users - {r}) }

  lemma DropRootInv(tables: Tables, sh: Shape, root: nat)
    requires Inv(tables, sh) && root in sh.users
    ensures Inv(tables - {root}, WithoutRoot(sh, root))
  {
    var u, sh' := tables - {root}, WithoutRoot(sh, root);
    assert RootOk(tables, sh, root);
    forall r | IsRoot(sh', r) ensures RootOk(u, sh', r) {
      assert RootOk(tables, sh, r);
      forall j | 0 <= j < ENTRIES && (j >= 256 || r in sh'.users) ensures Child(u, sh', u[r][j], OwnerOf(r, j), [j]) {
        assert Child(tables, sh, tables[r][j], OwnerOf(r, j), [j]);
      }
    }
    forall x | x in sh'.role && sh'.role[x].Inner? ensures InnerOk(u, sh', x) {
      assert InnerOk(tables, sh, x);
      if |sh.role[x].path| < 3 {
        forall j | 0 <= j < ENTRIES ensures Child(u, sh', u[x][j], sh'.role[x].owner, sh'.role[x].path + [j]) {
          assert Child(tables, sh, tables[x][j], sh.role[x].owner, sh.role[x].path + [j]);
        }
      }
    }
  }

  lemma DropRootSpaces(tables: Tables, sh: Shape, root: nat)
    requires Inv(tables, sh) && root in sh.users
    ensures SameSpaces(tables, tables - {root}, WithoutRoot(sh, root))
  {
    DropRootInv(tables, sh, root);
    assert root in tables by { assert IsRoot(sh, root); assert RootOk(tables, sh, root); }
    assert (tables - {root})[root := tables[root]] == tables;
    NewRootOthers(tables - {root}, WithoutRoot(sh, root), root, tables[root]);
  }

  /** Give back the stack, the program's pages and its root; each was in use and is freed once. The tables
      below the root stay, and so does everything else the program was given while it ran. */
  method TearDown(mem: Memory, root: nat, pages: seq<nat>, stack: seq<nat>)
    requires mem.Valid() && root in mem.shape.users && NoRepeats(pages) && NoRepeats(stack)
    requires AsSet(stack) !! AsSet(pages)
    requires AsSet(pages) + AsSet(stack) <= mem.data.Keys
    modifies mem
    ensures mem.Valid() && mem.shape == WithoutRoot(old(mem.shape), root)
    ensures mem.data == old(mem.data) - (AsSet(pages) + AsSet(stack))
    ensures old(mem.free) !! AsSet(pages) + AsSet(stack) + {root}
    ensures mem.free == old(mem.free) + AsSet(pages) + AsSet(stack) + {root}
    ensures root in old(mem.tables) && mem.tables == old(mem.tables) - {root}
    ensures SameSpaces(old(mem.tables), mem.tables, mem.shape)
  {
    hide Inv, SameSpaces;
    FreeAll(mem, stack);
    FreeAll(mem, pages);
    RootTable(mem.tables, mem.shape, root);
    DropRootInv(mem.tables, mem.shape, root);
    DropRootSpaces(mem.tables, mem.shape, root);
    mem.tables := mem.tables - {root};
    mem.shape := WithoutRoot(mem.shape, root);
    mem.free := mem.free + {root};
  }

  lemma RootTable(tables: Tables, sh: Shape, root: nat)
    requires Inv(tables, sh) && root in sh.users
    ensures root in tables
  {
    assert IsRoot(sh, root);
    assert RootOk(tables, sh, root);
  }

  /** What the program finds when it starts: its image wherever the stack is not, nothing besides,
      and a stack of zeroed pages of its own. */
  ghost predicate Ready(mem: Memory, root: nat, d: seq<Byte>, stack: seq<nat>)
    reads mem
  {
    && |stack| == STACK_PAGES
    && (forall a :: 0 <= a < USER_TOP && !IsStack(a / PAGE) ==> Read(mem.tables, mem.data, root, a) == ImageAt(d, a))
    && (forall i :: 0 <= i < |stack| ==> Backs(mem.tables, root, FIRST_STACK_PAGE + i, stack[i]))
    && (forall i :: 0 <= i < |stack| ==> stack[i] in mem.data && mem.data[stack[i]] == ZeroPage())
  }

  ghost function ImageAt(d: seq<Byte>, a: nat): Option<Byte> {
    if InImage(LoadList(d, PhNum(d)), a / PAGE) then Some(Flat(d, LoadList(d, PhNum(d)), a)) else None
  }

  /** What an error before the first instruction loses: everything taken so far, which includes the root. */
  lemma LostWithRoot(m: Before, b: Before, tables: Tables, data: map<nat, seq<Byte>>, free: set<nat>)
    requires Took(m.tables, m.free, b.tables, b.free) && b.data == m.data
    ensures Taken(b, tables, data, free) ==> Taken(m, tables, data, free)
  {
    if Taken(b, tables, data, free) {
      assert tables.Keys - m.tables.Keys == (tables.Keys - b.tables.Keys) + (b.tables.Keys - m.tables.Keys);
    }
  }

  /** Make a space, load the program and map its stack. `b` is memory once the space exists. An error is the first
      check the file fails, or that nothing is free; then nothing is given back, the root included. */
  method SetUp(mem: Memory, d: seq<Byte>, cr3: nat) returns (root: nat, r: Result, stack: seq<nat>, ghost b: Before)
    requires mem.Valid() && IsRoot(mem.shape, cr3)
    modifies mem
    ensures mem.Valid() && (AllUser(LoadList(d, PhNum(d))) ==> SameSpaces(old(mem.tables), mem.tables, old(mem.shape)))
    ensures forall f :: f in old(mem.data) ==> f in mem.data && mem.data[f] == old(mem.data)[f]
    ensures r.Ok? && AllUser(LoadList(d, PhNum(d))) ==>
      forall v: VPage :: v[0] >= 256 ==> Walk(mem.tables, root, v) == Walk(old(mem.tables), cr3, v)
    ensures r.Ok? && AllUser(LoadList(d, PhNum(d))) ==> Ready(mem, root, d, stack)
    ensures r.Ok? ==> FirstError(d, PhNum(d)) == None && r.entry == Field(d, 24, 8)
    ensures r.Ok? && OwnIndices(LoadList(d, PhNum(d))) ==>
      Spilled(b.tables, b.shape, mem.tables, root, LoadList(d, PhNum(d)), r.pages)
    ensures r.Ok? ==>
      && !IsRoot(old(mem.shape), root)
      && mem.shape.users == old(mem.shape).users + {root}
      && mem.shape.kernel == old(mem.shape).kernel
    ensures r.Ok? ==> NoRepeats(r.pages) && NoRepeats(stack) && AsSet(stack) !! AsSet(r.pages) && |stack| == STACK_PAGES
    ensures r.Ok? ==>
      Accounted(b, mem.tables, mem.data, mem.free, AsSet(r.pages) + AsSet(stack)) && b.data.Keys !! b.free
    ensures r.Ok? ==> Framed(b, mem, root, [], ModeOf(d, false))
    ensures r.Ok? ==>
      b.data == old(mem.data) && root !in old(mem.tables) && b.tables.Keys == old(mem.tables).Keys + {root}
    ensures r.Ok? && Private(old(mem.tables), cr3) ==> Confined(mem.tables, root, AsSet(r.pages) + AsSet(stack))
    ensures r.Ok? ==> LowUser(mem.tables, root)
    ensures r.Err? && r.error in {OutOfMemory, Panicked} ==> mem.free == {}
    ensures r.Err? && r.error == NoSegments ==> FirstError(d, PhNum(d)) == None && LoadList(d, PhNum(d)) == []
    ensures r.Err? && r.error !in {OutOfMemory, Panicked, NoSegments} ==> FirstError(d, PhNum(d)) == Some(r.error)
    ensures r.Err? ==> Taken(old(Now(mem)), mem.tables, mem.data, mem.free)
    ensures r.Err? && r.error != Panicked ==> root in old(mem.free) && mem.shape.users == old(mem.shape).users + {root}
    ensures r.Ok? ==> root in old(mem.free) && root !in b.free && Took(old(mem.tables), old(mem.free), b.tables, b.free)
  {
    hide Walk, UserPath, Inv, Holds, LoadList, PhNum, FirstError, PageOf, SameSpaces, SameUser, Elsewhere, InImage,
      Accounted, SpaceIs, Field, Took, LowUser, StackUpTo, Ready, Private, Confined, AllUser, OwnIndices, Spilled,
      Taken,
      UpperSame;
    stack := [];
    ghost var t0, sh0, m0 := mem.tables, mem.shape, Now(mem);
    SameSelf(t0, sh0);
    b := m0;
    var p := mem.CreateUserPml4(cr3);
    LostWithRoot(m0, Now(mem), mem.tables, mem.data, mem.free);
    NothingYet(mem);
    if p.None? { return 0, Err(Panicked), [], b; }
    root := p.value;
    b := Before(mem.tables, mem.shape, mem.data, mem.free);
    BlankSpace(mem.tables, mem.data, root);
    ghost var c := ModeOf(d, Private(t0, cr3));
    if c.bare { BareSpace(t0, mem.tables, cr3, root); }
    r := Load(mem, d, root);
    if c.low { OthersKept(t0, b.tables, mem.tables, sh0, b.shape, cr3, root); }
    LostWithRoot(m0, b, mem.tables, mem.data, mem.free);
    if r.Err? { return; }
    ghost var t1, d1 := mem.tables, mem.data;
    if c.low { ImageReads(mem, root, d, r.pages); }
    var e;
    e, stack := MapStack(mem, root, b, AsSet(r.pages), c);
    if c.low { OthersKept(t0, b.tables, mem.tables, sh0, b.shape, cr3, root); }
    LostWithRoot(m0, b, mem.tables, mem.data, mem.free);
    if e.Some? { r := Err(e.value); return; }
    if c.low { Started(t1, d1, mem, root, d, stack); }
    if c.apart { SpilledStays(b, t1, mem.tables, root, LoadList(d, PhNum(d)), r.pages); }
  }

  lemma NothingYet(mem: Memory)
    ensures Taken(Now(mem), mem.tables, mem.data, mem.free)
  {
  }

  lemma SameSelf(t: Tables, sh: Shape)
    ensures SameSpaces(t, t, sh)
  {
  }

  /** A new space whose kernel half is private has nothing user mode could write. */
  lemma BareSpace(t0: Tables, t1: Tables, cr3: nat, root: nat)
    requires Private(t0, cr3) && (forall v: VPage :: v[0] < 256 ==> Walk(t1, root, v) == None)
    requires forall v: VPage :: v[0] >= 256 ==> Walk(t1, root, v) == Walk(t0, cr3, v)
    ensures Confined(t1, root, {})
  {
    hide Walk;
    forall v: VPage ensures !Writable(t1, root, v) {
      assert v[0] >= 256 ==> !Writable(t0, cr3, v);
    }
  }

  /** User mode can write nothing in the kernel half. */
  ghost predicate Private(tables: Tables, root: nat) {
    forall v: VPage :: v[0] >= 256 ==> !Writable(tables, root, v)
  }

  /** The image as `Load` leaves it: each address reads its byte, or is not mapped. */
  ghost predicate Imaged(tables: Tables, data: map<nat, seq<Byte>>, root: nat, d: seq<Byte>) {
    forall a :: 0 <= a < USER_TOP ==>
      && Read(tables, data, root, a) == ImageAt(d, a)
      && (ImageAt(d, a) == None ==> Walk(tables, root, V(a / PAGE)) == None)
  }

  lemma ImageReads(mem: Memory, root: nat, d: seq<Byte>, pages: seq<nat>)
    requires Holds(mem, root, d, LoadList(d, PhNum(d)), pages)
    ensures Imaged(mem.tables, mem.data, root, d)
  {
    hide Read, LoadList, PhNum, Flat, InImage, Walk, UserPath, V;
    forall a: nat | a < USER_TOP
      ensures Read(mem.tables, mem.data, root, a) == ImageAt(d, a)
      ensures ImageAt(d, a) == None ==> Walk(mem.tables, root, V(a / PAGE)) == None
    {
      if ImageAt(d, a) == None { assert Empty(mem.tables, root, a / PAGE); }
    }
  }

  lemma Started(t1: Tables, d1: map<nat, seq<Byte>>, mem: Memory, root: nat, d: seq<Byte>, stack: seq<nat>)
    requires Imaged(t1, d1, root, d) && StackUpTo(t1, mem.tables, mem.data, root, stack) && |stack| == STACK_PAGES
    requires forall f :: f in d1 ==> f in mem.data && mem.data[f] == d1[f]
    ensures Ready(mem, root, d, stack)
  {
    hide ImageAt, Walk, PageOf;
    forall a: nat | a < USER_TOP && !IsStack(a / PAGE) ensures Read(mem.tables, mem.data, root, a) == ImageAt(d, a) {
      PageOfInjective(a, a / PAGE * PAGE);
      assert V(a / PAGE) == PageOf(a);
      assert Walk(mem.tables, root, V(a / PAGE)) == Walk(t1, root, V(a / PAGE));
    }
  }

  lemma DroppedOthers(t0: Tables, t1: Tables, t2: Tables, sh0: Shape, sh1: Shape, root: nat)
    requires SameSpaces(t0, t1, sh0) && SameSpaces(t1, t2, WithoutRoot(sh1, root)) && !IsRoot(sh0, root)
    requires sh1.users == sh0.users + {root} && sh1.kernel == sh0.kernel
    ensures SameSpaces(t0, t2, sh0)
  {
    hide Walk;
    forall r: nat, w: VPage | Page(sh0, r, w) ensures Walk(t2, r, w) == Walk(t0, r, w) {
      assert Page(WithoutRoot(sh1, root), r, w);
    }
  }
}
