/** Four-level page tables, built on demand (section 4.5 of the Intel SDM, Volume 3A). */
module Paging {

  type Byte = b: nat | b < 256

  const ENTRIES: nat := 512
  const PAGE: nat := 4096

  datatype Option<T> = None | Some(value: T)

  /** A table entry: bits 0, 1, 2 and 4 and the frame it points to. */
  datatype Entry = Entry(present: bool, write: bool, user: bool, nocache: bool, frame: nat)

  const ABSENT := Entry(false, false, false, false, 0)

  type Table = t: seq<Entry> | |t| == ENTRIES witness seq(ENTRIES, _ => ABSENT)

  type Tables = map<nat, Table>

  function Zeroed(): Table { seq(ENTRIES, _ => ABSENT) }

  /** The four indices of a virtual page, top level first. */
  type VPage = v: seq<nat> | |v| == 4 && forall i :: 0 <= i < 4 ==> v[i] < ENTRIES witness [0, 0, 0, 0]

  function PageOf(virt: nat): VPage {
    [virt / 0x80_0000_0000 % ENTRIES, virt / 0x4000_0000 % ENTRIES, virt / 0x20_0000 % ENTRIES, virt / PAGE % ENTRIES]
  }

  /** Two addresses below 2^48 share a page exactly when they share every index. */
  lemma PageOfInjective(a: nat, b: nat)
    requires a < 0x1_0000_0000_0000 && b < 0x1_0000_0000_0000
    ensures PageOf(a) == PageOf(b) <==> a / PAGE == b / PAGE
    ensures a < 0x8000_0000_0000 <==> PageOf(a)[0] < 256
    ensures var v := PageOf(a); ((v[0] * 512 + v[1]) * 512 + v[2]) * 512 + v[3] == a / PAGE
  {
    hide PageOf;
    Digits(a);
    Digits(b);
    SameDigits(PageOf(a), PageOf(b));
  }

  /** The number of a virtual page, from its indices. */
  function Number(v: VPage): nat { ((v[0] * 512 + v[1]) * 512 + v[2]) * 512 + v[3] }

  lemma SameDigits(v: VPage, w: VPage)
    ensures Number(v) == Number(w) <==> v == w
  {
    if Number(v) == Number(w) {
      LastDigit((v[0] * 512 + v[1]) * 512 + v[2], v[3], (w[0] * 512 + w[1]) * 512 + w[2], w[3]);
      LastDigit(v[0] * 512 + v[1], v[2], w[0] * 512 + w[1], w[2]);
      LastDigit(v[0], v[1], w[0], w[1]);
    }
  }

  lemma LastDigit(a: nat, b: nat, c: nat, d: nat)
    requires b < 512 && d < 512 && a * 512 + b == c * 512 + d
    ensures a == c && b == d
  {
  }

  lemma Digits(a: nat)
    requires a < 0x1_0000_0000_0000
    ensures a / PAGE == Number(PageOf(a))
    ensures PageOf(a)[0] == a / 0x80_0000_0000
  {
    var p := a / PAGE;
    Shift21(a);
    Shift30(a);
    Shift39(a);
    assert p == p / 512 * 512 + p % 512;
    assert p / 512 == p / 512 / 512 * 512 + p / 512 % 512;
    assert p / 512 / 512 == p / 512 / 512 / 512 * 512 + p / 512 / 512 % 512;
  }

  lemma Shift21(a: nat)
    ensures a / 0x20_0000 == a / PAGE / 512
  {
  }

  lemma Shift30(a: nat)
    ensures a / 0x4000_0000 == a / 0x20_0000 / 512
  {
  }

  lemma Shift39(a: nat)
    ensures a / 0x80_0000_0000 == a / 0x4000_0000 / 512
  {
  }

  // ---- what the processor sees -----------------------------------------------------------------

  /** The walk from table `t` along `path`: the leaf, with write and user granted only if granted at every level. */
  function Walk(tables: Tables, t: nat, path: seq<nat>): Option<Entry>
    decreases |path|
  {
    if path == [] || t !in tables || path[0] >= ENTRIES || !tables[t][path[0]].present then None
    else
      var e := tables[t][path[0]];
      if |path| == 1 then Some(e)
      else match Walk(tables, e.frame, path[1..])
        case None => None
        case Some(l) => Some(l.(user := l.user && e.user, write := l.write && e.write))
  }

  /** Every intermediate entry present on the path has USER. */
  ghost predicate UserPath(tables: Tables, t: nat, path: seq<nat>)
    decreases |path|
  {
    |path| > 1 && t in tables && path[0] < ENTRIES && tables[t][path[0]].present ==>
      tables[t][path[0]].user && UserPath(tables, tables[t][path[0]].frame, path[1..])
  }

  // ---- who owns which table ----------------------------------------------------------------------

  datatype Owner = Kernel | Space(root: nat)

  /** A table is a root, or the one its owner reaches by `path`. */
  datatype Role = Root | Inner(owner: Owner, path: seq<nat>)

  /** `users` are the roots built by `create_user_pml4`; `kernel` is the boot root, whose low half
      aliases the direct map and is left out of every claim. */
  datatype Shape = Shape(role: map<nat, Role>, users: set<nat>, kernel: nat)

  function OwnerOf(root: nat, i: nat): Owner { if i < 256 then Space(root) else Kernel }

  ghost predicate IsRoot(sh: Shape, r: nat) { r in sh.users || r == sh.kernel }

  ghost predicate Child(tables: Tables, sh: Shape, e: Entry, owner: Owner, path: seq<nat>) {
    e.present ==> e.write && e.frame in sh.role && sh.role[e.frame] == Inner(owner, path)
  }

  ghost predicate RootOk(tables: Tables, sh: Shape, r: nat) {
    && r in tables && r in sh.role && sh.role[r].Root?
    && forall i :: 0 <= i < ENTRIES && (i >= 256 || r in sh.users) ==>
         Child(tables, sh, tables[r][i], OwnerOf(r, i), [i])
  }

  ghost predicate InnerOk(tables: Tables, sh: Shape, t: nat)
    requires t in sh.role && sh.role[t].Inner?
  {
    && t in tables && 1 <= |sh.role[t].path| <= 3
    && (|sh.role[t].path| < 3 ==>
          forall i :: 0 <= i < ENTRIES ==> Child(tables, sh, tables[t][i], sh.role[t].owner, sh.role[t].path + [i]))
  }

  ghost predicate Inv(tables: Tables, sh: Shape) {
    && sh.kernel !in sh.users
    && tables.Keys == sh.role.Keys
    && (forall r :: IsRoot(sh, r) ==> RootOk(tables, sh, r))
    && (forall t :: t in sh.role && sh.role[t].Inner? ==> InnerOk(tables, sh, t))
  }

  ghost function Depth(role: Role): nat { if role.Root? then 0 else |role.path| }

  ghost predicate Indices(path: seq<nat>) { forall i :: 0 <= i < |path| ==> path[i] < ENTRIES }

  /** Slot `i` of table `t` is one the claims are about. */
  ghost predicate Slot(sh: Shape, t: nat, i: nat) {
    && t in sh.role && i < ENTRIES
    && (sh.role[t].Root? ==> IsRoot(sh, t) && (t in sh.users || i >= 256))
  }

  /** `path` leads from table `t` to a leaf that the claims are about. */
  ghost predicate Covered(sh: Shape, t: nat, path: seq<nat>) {
    Indices(path) && path != [] && Slot(sh, t, path[0]) && Depth(sh.role[t]) + |path| == 4
  }

  /** What the table behind slot `i` of `t` is. */
  ghost function RoleOf(sh: Shape, t: nat, i: nat): Role
    requires t in sh.role
  {
    if sh.role[t].Root? then Inner(OwnerOf(t, i), [i]) else Inner(sh.role[t].owner, sh.role[t].path + [i])
  }

  lemma Descend(tables: Tables, sh: Shape, t: nat, i: nat)
    requires Inv(tables, sh) && Slot(sh, t, i)
    ensures t in tables
    ensures tables[t][i].present && Depth(sh.role[t]) < 3 ==>
              && tables[t][i].write && tables[t][i].frame in tables
              && tables[t][i].frame in sh.role && sh.role[tables[t][i].frame] == RoleOf(sh, t, i)
  {
    if sh.role[t].Root? {
      assert RootOk(tables, sh, t);
      assert Child(tables, sh, tables[t][i], OwnerOf(t, i), [i]);
    } else {
      assert InnerOk(tables, sh, t);
      if Depth(sh.role[t]) < 3 { assert Child(tables, sh, tables[t][i], sh.role[t].owner, sh.role[t].path + [i]); }
    }
  }

  lemma CoveredStep(tables: Tables, sh: Shape, t: nat, path: seq<nat>)
    requires Inv(tables, sh) && Covered(sh, t, path) && |path| > 1
    ensures t in tables
    ensures tables[t][path[0]].present ==> Covered(sh, tables[t][path[0]].frame, path[1..])
  {
    Descend(tables, sh, t, path[0]);
  }

  // ---- adding a table ----------------------------------------------------------------------------

  function Grown(tables: Tables, t: nat, i: nat, e: Entry): Tables
    requires t in tables && i < ENTRIES
  {
    tables[t := tables[t][i := e]][e.frame := Zeroed()]
  }

  ghost function Adopted(sh: Shape, t: nat, i: nat, p: nat): Shape
    requires t in sh.role
  {
    sh.(role := sh.role[p := RoleOf(sh, t, i)])
  }

  ghost predicate CanGrow(tables: Tables, sh: Shape, t: nat, i: nat, e: Entry) {
    && Inv(tables, sh) && Slot(sh, t, i) && Depth(sh.role[t]) < 3
    && t in tables && !tables[t][i].present && e.present && e.write && e.frame !in tables
  }

  lemma GrowInv(tables: Tables, sh: Shape, t: nat, i: nat, e: Entry)
    requires CanGrow(tables, sh, t, i, e)
    ensures Inv(Grown(tables, t, i, e), Adopted(sh, t, i, e.frame))
  {
    var u, sh' := Grown(tables, t, i, e), Adopted(sh, t, i, e.frame);
    forall r | IsRoot(sh', r) ensures RootOk(u, sh', r) {
      assert RootOk(tables, sh, r);
      forall j | 0 <= j < ENTRIES && (j >= 256 || r in sh'.users) ensures Child(u, sh', u[r][j], OwnerOf(r, j), [j]) {
        assert Child(tables, sh, tables[r][j], OwnerOf(r, j), [j]);
      }
    }
    forall x | x in sh'.role && sh'.role[x].Inner? ensures InnerOk(u, sh', x) {
      GrowInner(tables, sh, t, i, e, x);
    }
  }

  lemma GrowInner(tables: Tables, sh: Shape, t: nat, i: nat, e: Entry, x: nat)
    requires CanGrow(tables, sh, t, i, e)
    requires x in Adopted(sh, t, i, e.frame).role && Adopted(sh, t, i, e.frame).role[x].Inner?
    ensures InnerOk(Grown(tables, t, i, e), Adopted(sh, t, i, e.frame), x)
  {
    var u, sh' := Grown(tables, t, i, e), Adopted(sh, t, i, e.frame);
    if x != e.frame {
      assert InnerOk(tables, sh, x);
      if |sh.role[x].path| < 3 {
        forall j | 0 <= j < ENTRIES ensures Child(u, sh', u[x][j], sh'.role[x].owner, sh'.role[x].path + [j]) {
          assert Child(tables, sh, tables[x][j], sh.role[x].owner, sh.role[x].path + [j]);
        }
      }
    } else if sh.role[t].Inner? {
      assert InnerOk(tables, sh, t);
    }
  }

  /** A new empty table changes no translation, in any space. */
  lemma {:induction false} GrowWalk(tables: Tables, sh: Shape, t: nat, i: nat, e: Entry, x: nat, path: seq<nat>)
    requires CanGrow(tables, sh, t, i, e) && Covered(sh, x, path)
    ensures Walk(Grown(tables, t, i, e), x, path) == Walk(tables, x, path)
    ensures e.user ==> UserPath(Grown(tables, t, i, e), x, path) == UserPath(tables, x, path)
    decreases |path|
  {
    var u := Grown(tables, t, i, e);
    Descend(tables, sh, x, path[0]);
    if x == t && path[0] == i {
      assert u[t][i] == e && |path| > 1;
    } else {
      assert u[x][path[0]] == tables[x][path[0]];
      if |path| > 1 && tables[x][path[0]].present {
        CoveredStep(tables, sh, x, path);
        GrowWalk(tables, sh, t, i, e, tables[x][path[0]].frame, path[1..]);
      }
    }
  }

  // ---- writing a leaf ------------------------------------------------------------------------------

  function Leafed(tables: Tables, t: nat, i: nat, e: Entry): Tables
    requires t in tables && i < ENTRIES
  {
    tables[t := tables[t][i := e]]
  }

  /** The owner and full path of the leaf reached from `t` along `path`. */
  ghost function Target(sh: Shape, t: nat, path: seq<nat>): (Owner, seq<nat>)
    requires t in sh.role && path != []
  {
    if sh.role[t].Root? then (OwnerOf(t, path[0]), path) else (sh.role[t].owner, sh.role[t].path + path)
  }

  ghost predicate IsLeafTable(tables: Tables, sh: Shape, t: nat) {
    t in tables && t in sh.role && sh.role[t].Inner? && |sh.role[t].path| == 3
  }

  lemma LeafInv(tables: Tables, sh: Shape, t: nat, i: nat, e: Entry)
    requires Inv(tables, sh) && IsLeafTable(tables, sh, t) && i < ENTRIES
    ensures Inv(Leafed(tables, t, i, e), sh)
  {
    var u := Leafed(tables, t, i, e);
    forall r | IsRoot(sh, r) ensures RootOk(u, sh, r) {
      assert RootOk(tables, sh, r);
      forall j | 0 <= j < ENTRIES && (j >= 256 || r in sh.users) ensures Child(u, sh, u[r][j], OwnerOf(r, j), [j]) {
        assert Child(tables, sh, tables[r][j], OwnerOf(r, j), [j]);
      }
    }
    forall x | x in sh.role && sh.role[x].Inner? ensures InnerOk(u, sh, x) {
      assert InnerOk(tables, sh, x);
      if |sh.role[x].path| < 3 {
        forall j | 0 <= j < ENTRIES ensures Child(u, sh, u[x][j], sh.role[x].owner, sh.role[x].path + [j]) {
          assert Child(tables, sh, tables[x][j], sh.role[x].owner, sh.role[x].path + [j]);
        }
      }
    }
  }

  /** A leaf is seen only along its own path. */
  lemma {:induction false} LeafWalk(tables: Tables, sh: Shape, t: nat, i: nat, e: Entry, x: nat, path: seq<nat>)
    requires Inv(tables, sh) && IsLeafTable(tables, sh, t) && i < ENTRIES && Covered(sh, x, path)
    ensures Target(sh, x, path) != Target(sh, t, [i]) ==>
      Walk(Leafed(tables, t, i, e), x, path) == Walk(tables, x, path)
    ensures UserPath(Leafed(tables, t, i, e), x, path) == UserPath(tables, x, path)
    decreases |path|
  {
    var u := Leafed(tables, t, i, e);
    Descend(tables, sh, x, path[0]);
    if x == t {
      assert |path| == 1 && path == [path[0]];
    } else if |path| > 1 && tables[x][path[0]].present {
      CoveredStep(tables, sh, x, path);
      var y := tables[x][path[0]].frame;
      assert path == [path[0]] + path[1..];
      if sh.role[x].Inner? { assert sh.role[x].path + [path[0]] + path[1..] == sh.role[x].path + path; }
      assert Target(sh, y, path[1..]) == Target(sh, x, path);
      LeafWalk(tables, sh, t, i, e, y, path[1..]);
    }
  }

  // ---- whole spaces --------------------------------------------------------------------------------

  /** Page `v` of the space at root `r` is one the claims are about. */
  ghost predicate Page(sh: Shape, r: nat, v: VPage) { r in sh.users || (r == sh.kernel && v[0] >= 256) }

  /** No page of any space translates differently. */
  ghost predicate SameSpaces(t0: Tables, t1: Tables, sh: Shape) {
    forall r: nat, w: VPage :: Page(sh, r, w) ==> Walk(t1, r, w) == Walk(t0, r, w)
  }

  /** At most page `v` translates differently: of the space at `root` alone if it is in the low half,
      of the spaces that share the kernel half if it is there. */
  ghost predicate SameBut(t0: Tables, t1: Tables, sh: Shape, root: nat, v: VPage) {
    forall r: nat, w: VPage :: Page(sh, r, w) && !(w == v && (r == root || v[0] >= 256)) ==>
      Walk(t1, r, w) == Walk(t0, r, w)
  }

  ghost predicate SameUser(t0: Tables, t1: Tables, sh: Shape) {
    forall r: nat, w: VPage :: Page(sh, r, w) ==> UserPath(t1, r, w) == UserPath(t0, r, w)
  }

  /** Entries above the leaves are only ever added. */
  ghost predicate UpperKept(t0: Tables, t1: Tables, sh: Shape) {
    forall x, j :: x in t0 && x in sh.role && Depth(sh.role[x]) < 3 && 0 <= j < ENTRIES && t0[x][j].present ==>
      x in t1 && t1[x][j] == t0[x][j]
  }

  /** Spaces that share the top entry of a page share the page. */
  lemma SharedPage(t0: Tables, t1: Tables, sh: Shape, r: nat, root: nat, v: VPage)
    requires Inv(t0, sh) && IsRoot(sh, r) && IsRoot(sh, root) && UpperKept(t0, t1, sh)
    requires r in t0 && root in t0 && t0[r][v[0]].present && t0[r][v[0]] == t0[root][v[0]]
    ensures Walk(t1, r, v) == Walk(t1, root, v)
  {
    assert RootOk(t0, sh, r) && RootOk(t0, sh, root);
  }

  ghost predicate Extends(sh: Shape, sh': Shape) {
    && sh'.users == sh.users && sh'.kernel == sh.kernel
    && forall t :: t in sh.role ==> t in sh'.role && sh'.role[t] == sh.role[t]
  }

  lemma PageCovered(tables: Tables, sh: Shape, r: nat, v: VPage)
    requires Inv(tables, sh) && Page(sh, r, v)
    ensures Covered(sh, r, v)
  {
    assert IsRoot(sh, r);
    assert RootOk(tables, sh, r);
  }

  lemma GrowSpaces(tables: Tables, sh: Shape, t: nat, i: nat, e: Entry)
    requires CanGrow(tables, sh, t, i, e)
    ensures SameSpaces(tables, Grown(tables, t, i, e), sh)
    ensures e.user ==> SameUser(tables, Grown(tables, t, i, e), sh)
  {
    hide Covered, Inv, Page;
    forall r: nat, w: VPage | Page(sh, r, w)
      ensures Walk(Grown(tables, t, i, e), r, w) == Walk(tables, r, w)
      ensures e.user ==> UserPath(Grown(tables, t, i, e), r, w) == UserPath(tables, r, w)
    {
      PageCovered(tables, sh, r, w);
      GrowWalk(tables, sh, t, i, e, r, w);
    }
  }

  /** Every frame that left the free pool became a table. */
  ghost predicate Took(t0: Tables, f0: set<nat>, t1: Tables, f1: set<nat>) {
    t0.Keys <= t1.Keys && f0 == f1 + (t1.Keys - t0.Keys)
  }

  lemma TookTwice(t0: Tables, f0: set<nat>, t1: Tables, f1: set<nat>, t2: Tables, f2: set<nat>)
    requires Took(t0, f0, t1, f1) && Took(t1, f1, t2, f2)
    ensures Took(t0, f0, t2, f2)
  {
  }

  /** Physical memory as paging sees it: tables, other frames in use, and free frames. */
  class Memory {
    var tables: Tables
    var data: map<nat, seq<Byte>>
    var free: set<nat>
    ghost var shape: Shape

    ghost predicate Valid()
      reads this
    {
      Inv(tables, shape) && tables.Keys !! data.Keys && tables.Keys !! free && data.Keys !! free
    }

    /** A kernel root with nothing mapped yet, and free frames. */
    constructor (root: nat, frames: set<nat>)
      requires root !in frames
      ensures Valid() && free == frames && data == map[] && shape.users == {} && shape.kernel == root
    {
      tables := map[root := Zeroed()];
      data, free := map[], frames;
      shape := Shape(map[root := Root], {}, root);
    }

    /** Any free frame, or none if there is none. */
    method AllocPage() returns (p: Option<nat>)
      modifies this`free
      ensures p.None? <==> old(free) == {}
      ensures p.Some? ==> p.value in old(free) && free == old(free) - {p.value}
      ensures p.None? ==> free == old(free)
    {
      if free == {} { return None; }
      var f :| f in free;
      free := free - {f};
      p := Some(f);
    }

    /** The table behind slot `i` of `t`, made empty if there is none; `user` marks a new one for
        user mode. An existing entry is left as it is. */
    method GetOrMake(t: nat, i: nat, user: bool) returns (p: Option<nat>)
      requires Valid() && Slot(shape, t, i) && Depth(shape.role[t]) < 3
      modifies this`tables, this`free, this`shape
      ensures Valid() && Extends(old(shape), shape) && Took(old(tables), old(free), tables, free)
      ensures SameSpaces(old(tables), tables, old(shape))
      ensures user ==> SameUser(old(tables), tables, old(shape))
      ensures p.None? ==> old(free) == {}
      ensures p.Some? ==> t in tables && tables[t][i].present && tables[t][i].write && tables[t][i].frame == p.value
      ensures p.Some? ==> p.value in tables && p.value in shape.role && shape.role[p.value] == RoleOf(old(shape), t, i)
      ensures forall x, j :: x in old(tables) && 0 <= j < ENTRIES && old(tables)[x][j].present ==>
                x in tables && tables[x][j] == old(tables)[x][j]
    {
      hide RootOk, InnerOk, Walk, UserPath;
      Descend(tables, shape, t, i);
      if tables[t][i].present { return Some(tables[t][i].frame); }
      var f := AllocPage();
      if f.None? { return None; }
      var e := Entry(true, true, user, false, f.value);
      GrowInv(tables, shape, t, i, e);
      GrowSpaces(tables, shape, t, i, e);
      tables := tables[t := tables[t][i := e]][f.value := Zeroed()];
      shape := Adopted(shape, t, i, f.value);
      p := f;
    }

    /** Walk to the leaf table of page `v`, making the tables that are missing. */
    method Reach(root: nat, v: VPage, user: bool) returns (p: Option<nat>)
      requires Valid() && Page(shape, root, v)
      modifies this`tables, this`free, this`shape
      ensures Valid() && Extends(old(shape), shape) && Took(old(tables), old(free), tables, free)
      ensures SameSpaces(old(tables), tables, old(shape)) && (user ==> SameUser(old(tables), tables, old(shape)))
      ensures forall x, j :: x in old(tables) && 0 <= j < ENTRIES && old(tables)[x][j].present ==>
                x in tables && tables[x][j] == old(tables)[x][j]
      ensures p.None? ==> free == {}
      ensures p.Some? ==> IsLeafTable(tables, shape, p.value) && Linked(tables, root, v, p.value)
      ensures p.Some? ==> shape.role[p.value] == Inner(OwnerOf(root, v[0]), [v[0], v[1], v[2]])
    {
      hide RootOk, InnerOk, Walk, UserPath, Inv, SameSpaces, SameUser, Took;
      RootSlot(tables, shape, root, v);
      ghost var t0, f0, sh0 := tables, free, shape;
      var p3 := GetOrMake(root, v[0], user);
      if p3.None? { NoneFree(t0, f0, tables, free); return None; }
      ghost var t1, f1, sh1 := tables, free, shape;
      var p2 := GetOrMake(p3.value, v[1], user);
      SameTwice(t0, t1, tables, sh0, sh1);
      TookTwice(t0, f0, t1, f1, tables, free);
      if p2.None? { NoneFree(t1, f1, tables, free); return None; }
      ghost var t2, f2, sh2 := tables, free, shape;
      var p1 := GetOrMake(p2.value, v[2], user);
      SameTwice(t0, t2, tables, sh0, sh2);
      TookTwice(t0, f0, t2, f2, tables, free);
      if p1.None? { NoneFree(t2, f2, tables, free); return None; }
      p := p1;
    }

    /** The common body of `map_page`, `map_page_into` and `map_page_current_user`. Afterwards page `v`
        of the space at `root` translates to `leaf`, seen from user mode exactly if the leaf allows it
        and no table already on the path withheld USER; no other page of any space changes. Without
        memory for a table nothing changes at all. */
    method Map(root: nat, v: VPage, leaf: Entry, user: bool) returns (ok: bool)
      requires Valid() && Page(shape, root, v) && leaf.present
      modifies this`tables, this`free, this`shape
      ensures Valid() && Extends(old(shape), shape) && Took(old(tables), old(free), tables, free)
      ensures ok ==> SameBut(old(tables), tables, old(shape), root, v)
      ensures UpperKept(old(tables), tables, old(shape))
      ensures !ok ==> free == {} && SameSpaces(old(tables), tables, old(shape))
      ensures user ==> SameUser(old(tables), tables, old(shape))
      ensures ok ==> Mapped(Walk(tables, root, v), leaf)
      ensures ok && UserPath(tables, root, v) ==> Walk(tables, root, v).value.user == leaf.user
      ensures ok && !UserPath(tables, root, v) ==> !Walk(tables, root, v).value.user
    {
      hide RootOk, InnerOk, Walk, UserPath, Inv, SameSpaces, SameUser;
      var p := Reach(root, v, user);
      if p.None? { return false; }
      ghost var t := tables;
      tables := tables[p.value := tables[p.value][v[3] := leaf]];
      LeafInv(t, shape, p.value, v[3], leaf);
      LeafSpaces(old(tables), t, old(shape), shape, root, v, p.value, leaf);
      LeafLinked(t, shape, root, v, p.value, leaf);
      LeafSeen(tables, root, v, p.value);
      ok := true;
    }

    /** Map a kernel page into the loaded space, writable. */
    method MapPage(cr3: nat, virt: nat, frame: nat, user: bool, nocache: bool) returns (ok: bool)
      requires Valid() && Page(shape, cr3, PageOf(virt))
      modifies this`tables, this`free, this`shape
      ensures Valid() && Extends(old(shape), shape) && Took(old(tables), old(free), tables, free)
      ensures ok ==> SameBut(old(tables), tables, old(shape), cr3, PageOf(virt))
      ensures ok ==> Mapped(Walk(tables, cr3, PageOf(virt)), Entry(true, true, user, nocache, frame))
      ensures !ok ==> free == {} && SameSpaces(old(tables), tables, old(shape))
    {
      hide PageOf;
      ok := Map(cr3, PageOf(virt), Entry(true, true, user, nocache, frame), false);
    }

    /** Map a page into the loaded space for user mode. */
    method MapCurrentUser(cr3: nat, virt: nat, frame: nat, write: bool, nocache: bool) returns (ok: bool)
      requires Valid() && Page(shape, cr3, PageOf(virt))
      modifies this`tables, this`free, this`shape
      ensures Valid() && Extends(old(shape), shape) && Took(old(tables), old(free), tables, free)
      ensures SameUser(old(tables), tables, old(shape)) && UpperKept(old(tables), tables, old(shape))
      ensures ok ==> SameBut(old(tables), tables, old(shape), cr3, PageOf(virt))
      ensures ok ==> Mapped(Walk(tables, cr3, PageOf(virt)), Entry(true, write, true, nocache, frame))
      ensures ok ==> (Walk(tables, cr3, PageOf(virt)).value.user <==> old(UserPath(tables, cr3, PageOf(virt))))
      ensures !ok ==> free == {} && SameSpaces(old(tables), tables, old(shape))
    {
      hide PageOf, Walk, UserPath, Inv;
      ok := Map(cr3, PageOf(virt), Entry(true, write, true, nocache, frame), true);
    }

    /** Map a page into a space that is not loaded. */
    method MapInto(root: nat, virt: nat, frame: nat, write: bool, user: bool, nocache: bool) returns (ok: bool)
      requires Valid() && Page(shape, root, PageOf(virt))
      modifies this`tables, this`free, this`shape
      ensures Valid() && Extends(old(shape), shape) && Took(old(tables), old(free), tables, free)
      ensures SameUser(old(tables), tables, old(shape)) && UpperKept(old(tables), tables, old(shape))
      ensures ok ==> SameBut(old(tables), tables, old(shape), root, PageOf(virt))
      ensures ok ==> Mapped(Walk(tables, root, PageOf(virt)), Entry(true, write, user, nocache, frame))
      ensures ok ==>
        (Walk(tables, root, PageOf(virt)).value.user <==> user && old(UserPath(tables, root, PageOf(virt))))
      ensures !ok ==> free == {} && SameSpaces(old(tables), tables, old(shape))
    {
      hide PageOf, Walk, UserPath, Inv;
      ok := Map(root, PageOf(virt), Entry(true, write, user, nocache, frame), true);
    }

    /** A new space: the kernel half of the loaded one, and an empty low half that user mode can walk. */
    method CreateUserPml4(cr3: nat) returns (p: Option<nat>)
      requires Valid() && IsRoot(shape, cr3)
      modifies this`tables, this`free, this`shape
      ensures Valid() && Took(old(tables), old(free), tables, free) && (p.None? <==> old(free) == {})
      ensures SameSpaces(old(tables), tables, old(shape)) && SameUser(old(tables), tables, old(shape))
      ensures p.None? ==> shape == old(shape)
      ensures p.Some? ==>
        p.value in old(free) && shape.users == old(shape).users + {p.value} && shape.kernel == old(shape).kernel
      ensures p.Some? ==>
        p.value !in old(tables) && tables.Keys == old(tables).Keys + {p.value} && !IsRoot(old(shape), p.value)
      ensures p.Some? ==>
        forall v: VPage :: v[0] < 256 ==> Walk(tables, p.value, v) == None && UserPath(tables, p.value, v)
      ensures p.Some? ==> forall v: VPage :: v[0] >= 256 ==> Walk(tables, p.value, v) == Walk(old(tables), cr3, v)
    {
      hide InnerOk, Walk, UserPath;
      p := AllocPage();
      if p.None? { return; }
      assert RootOk(tables, shape, cr3);
      var t := Zeroed()[..256] + tables[cr3][256..];
      NewRootInv(tables, shape, cr3, p.value, t);
      NewRootSpaces(tables, shape, cr3, p.value, t);
      tables := tables[p.value := t];
      shape := shape.(role := shape.role[p.value := Root], users := shape.users + {p.value});
    }
  }

  ghost predicate NewRoot(tables: Tables, sh: Shape, cr3: nat, p: nat, t: Table) {
    && Inv(tables, sh) && IsRoot(sh, cr3) && p !in tables && cr3 in tables
    && t == Zeroed()[..256] + tables[cr3][256..]
  }

  ghost function WithRoot(sh: Shape, p: nat): Shape { sh.(role := sh.role[p := Root], users := sh.users + {p}) }

  lemma NewRootInv(tables: Tables, sh: Shape, cr3: nat, p: nat, t: Table)
    requires NewRoot(tables, sh, cr3, p, t)
    ensures Inv(tables[p := t], WithRoot(sh, p))
  {
    var u, sh' := tables[p := t], WithRoot(sh, p);
    assert RootOk(tables, sh, cr3) && RootOk(tables, sh, sh.kernel) by { assert IsRoot(sh, sh.kernel); }
    forall r | IsRoot(sh', r) ensures RootOk(u, sh', r) {
      var s := if r == p then cr3 else r;
      assert IsRoot(sh, s) && RootOk(tables, sh, s);
      forall j | 0 <= j < ENTRIES && (j >= 256 || r in sh'.users) ensures Child(u, sh', u[r][j], OwnerOf(r, j), [j]) {
        if j >= 256 || r != p { assert Child(tables, sh, tables[s][j], OwnerOf(s, j), [j]); }
      }
    }
    forall x | x in sh'.role && sh'.role[x].Inner? ensures InnerOk(u, sh', x) {
      assert InnerOk(tables, sh, x);
      if |sh.role[x].path| < 3 {
        forall j | 0 <= j < ENTRIES ensures Child(u, sh', u[x][j], sh'.role[x].owner, sh'.role[x].path + [j]) {
          assert Child(tables, sh, tables[x][j], sh.role[x].owner, sh.role[x].path + [j]);
        }
      }
    }
  }

  /** A walk that starts in the old tables never meets a new one. */
  lemma {:induction false} FreshWalk(tables: Tables, sh: Shape, p: nat, t: Table, x: nat, path: seq<nat>)
    requires Inv(tables, sh) && p !in tables && Covered(sh, x, path)
    ensures Walk(tables[p := t], x, path) == Walk(tables, x, path)
    ensures UserPath(tables[p := t], x, path) == UserPath(tables, x, path)
    decreases |path|
  {
    Descend(tables, sh, x, path[0]);
    if |path| > 1 && tables[x][path[0]].present {
      CoveredStep(tables, sh, x, path);
      FreshWalk(tables, sh, p, t, tables[x][path[0]].frame, path[1..]);
    }
  }

  lemma NewRootSpaces(tables: Tables, sh: Shape, cr3: nat, p: nat, t: Table)
    requires NewRoot(tables, sh, cr3, p, t)
    ensures SameSpaces(tables, tables[p := t], sh) && SameUser(tables, tables[p := t], sh)
    ensures forall v: VPage :: v[0] < 256 ==> Walk(tables[p := t], p, v) == None && UserPath(tables[p := t], p, v)
    ensures forall v: VPage :: v[0] >= 256 ==> Walk(tables[p := t], p, v) == Walk(tables, cr3, v)
  {
    hide Inv, Covered, SameSpaces, SameUser;
    NewRootOthers(tables, sh, p, t);
    forall v: VPage | v[0] >= 256 ensures Walk(tables[p := t], p, v) == Walk(tables, cr3, v) {
      assert Page(sh, cr3, v);
      PageCovered(tables, sh, cr3, v);
      assert t[v[0]] == tables[cr3][v[0]];
      CoveredStep(tables, sh, cr3, v);
      if t[v[0]].present { FreshWalk(tables, sh, p, t, t[v[0]].frame, v[1..]); }
    }
  }

  lemma NewRootOthers(tables: Tables, sh: Shape, p: nat, t: Table)
    requires Inv(tables, sh) && p !in tables
    ensures SameSpaces(tables, tables[p := t], sh) && SameUser(tables, tables[p := t], sh)
  {
    hide Inv, Covered, Walk, UserPath;
    forall r: nat, w: VPage | Page(sh, r, w)
      ensures Walk(tables[p := t], r, w) == Walk(tables, r, w)
      ensures UserPath(tables[p := t], r, w) == UserPath(tables, r, w)
    {
      PageCovered(tables, sh, r, w);
      FreshWalk(tables, sh, p, t, r, w);
    }
  }

  ghost predicate Mapped(e: Option<Entry>, leaf: Entry) {
    && e.Some? && e.value.frame == leaf.frame && e.value.present && e.value.nocache == leaf.nocache
    && e.value.write == leaf.write && (e.value.user ==> leaf.user)
  }

  lemma RootSlot(tables: Tables, sh: Shape, root: nat, v: VPage)
    requires Inv(tables, sh) && Page(sh, root, v)
    ensures Slot(sh, root, v[0]) && sh.role[root].Root?
  {
    assert IsRoot(sh, root);
    assert RootOk(tables, sh, root);
  }

  lemma SameTwice(t0: Tables, t1: Tables, t2: Tables, sh0: Shape, sh1: Shape)
    requires Extends(sh0, sh1) && SameSpaces(t0, t1, sh0) && SameSpaces(t1, t2, sh1)
    ensures SameSpaces(t0, t2, sh0)
    ensures SameUser(t0, t1, sh0) && SameUser(t1, t2, sh1) ==> SameUser(t0, t2, sh0)
  {
  }

  lemma LeafSpaces(t0: Tables, t: Tables, sh0: Shape, sh: Shape, root: nat, v: VPage, p: nat, leaf: Entry)
    requires Inv(t, sh) && Extends(sh0, sh) && SameSpaces(t0, t, sh0)
    requires IsLeafTable(t, sh, p) && sh.role[p] == Inner(OwnerOf(root, v[0]), [v[0], v[1], v[2]])
    ensures SameBut(t0, Leafed(t, p, v[3], leaf), sh0, root, v)
    ensures SameUser(t0, t, sh0) ==> SameUser(t0, Leafed(t, p, v[3], leaf), sh0)
  {
    hide Inv, Covered, Walk, UserPath;
    forall r: nat, w: VPage | Page(sh0, r, w)
      ensures !(w == v && (r == root || v[0] >= 256)) ==> Walk(Leafed(t, p, v[3], leaf), r, w) == Walk(t, r, w)
      ensures UserPath(Leafed(t, p, v[3], leaf), r, w) == UserPath(t, r, w)
    {
      PageCovered(t, sh, r, w);
      RootSlot(t, sh, r, w);
      LeafWalk(t, sh, p, v[3], leaf, r, w);
      assert [v[0], v[1], v[2]] + [v[3]] == v;
    }
  }

  /** The upper three entries of the path to page `v` are in place and end at `p1`. */
  ghost predicate Linked(tables: Tables, root: nat, v: VPage, p1: nat) {
    && Links(tables, root, v[0])
    && Links(tables, tables[root][v[0]].frame, v[1])
    && Links(tables, tables[tables[root][v[0]].frame][v[1]].frame, v[2])
    && tables[tables[tables[root][v[0]].frame][v[1]].frame][v[2]].frame == p1
  }

  ghost predicate Links(tables: Tables, t: nat, i: nat) {
    t in tables && i < ENTRIES && tables[t][i].present && tables[t][i].write && tables[t][i].frame in tables
  }

  lemma NoneFree(t0: Tables, f0: set<nat>, t1: Tables, f1: set<nat>)
    requires Took(t0, f0, t1, f1) && f0 == {}
    ensures f1 == {}
  {
  }

  lemma LeafLinked(t: Tables, sh: Shape, root: nat, v: VPage, p1: nat, leaf: Entry)
    requires Inv(t, sh) && Page(sh, root, v) && Linked(t, root, v, p1) && IsLeafTable(t, sh, p1)
    ensures Linked(Leafed(t, p1, v[3], leaf), root, v, p1)
  {
    var p3 := t[root][v[0]].frame;
    var p2 := t[p3][v[1]].frame;
    RootSlot(t, sh, root, v);
    Descend(t, sh, root, v[0]);
    Descend(t, sh, p3, v[1]);
    assert Depth(sh.role[root]) == 0 && Depth(sh.role[p3]) == 1 && Depth(sh.role[p2]) == 2;
  }

  lemma LeafSeen(tables: Tables, root: nat, v: VPage, p1: nat)
    requires Linked(tables, root, v, p1) && tables[p1][v[3]].present
    ensures Mapped(Walk(tables, root, v), tables[p1][v[3]])
    ensures Walk(tables, root, v).value.user == (tables[p1][v[3]].user && UserPath(tables, root, v))
  {
    var p3 := tables[root][v[0]].frame;
    var p2 := tables[p3][v[1]].frame;
    assert v[1..][1..] == v[2..] && v[2..][1..] == v[3..];
    assert Walk(tables, p1, v[3..]) == Some(tables[p1][v[3]]);
    assert Walk(tables, p2, v[2..]).Some?;
    assert Walk(tables, p3, v[1..]).Some?;
    assert UserPath(tables, p1, v[3..]);
    assert UserPath(tables, p2, v[2..]) == tables[p2][v[2]].user;
  }
}
