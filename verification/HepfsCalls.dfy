/** The calls a client can make: what each gives back and does to names, bytes and space, and exactly
    when it panics. */
module HepfsCalls {
  import opened HepfsLayout
  import opened HepfsTypes
  import opened HepfsStore
  import opened HepfsState
  import opened HepfsNames
  import opened HepfsFile
  import opened HepfsRead
  import opened HepfsDir
  import opened HepfsTree
  import opened HepfsCreate
  import opened HepfsRemove
  import opened HepfsOps
  import opened HepfsContent
  import opened HepfsCopy
  import opened HepfsFormat
  import opened HepfsSpace

  type Name = Str

  datatype Op =
    | OpCreate(parent: nat, name: Name, isDir: bool)
    | OpWrite(ino: nat, data: seq<Byte>)
    | OpRemove(parent: nat, name: Name)
    | OpRename(parent: nat, oldName: Name, newName: Name)
    | OpMove(from: nat, to: nat, name: Name)
    | OpCopy(from: nat, to: nat, name: Name, dest: Name)
    | OpFind(parent: nat, name: Name)
    | OpRead(ino: nat)
    | OpList(dir: nat)

  /** What a call gives back. */
  datatype Outcome =
    | Made(ino: nat)
    | Wrote
    | Did(ok: bool)
    | Copied(made: Option<nat>)
    | Found(entry: Option<nat>)
    | Bytes(bytes: seq<Byte>)
    | Entries(entries: seq<Slot>)

  /** What the code expects of its callers: directories where it takes directories, no
      second entry of a name, and no move of an entry below itself. */
  ghost predicate Allowed(g: State, op: Op)
    requires Tree(g)
  {
    match op
    case OpCreate(p, name, _) => IsDir(g, p) && Lookup(g.nodes[p].slots, name).None?
    case OpWrite(ino, _) => ino in g.nodes
    case OpRemove(p, _) => IsDir(g, p)
    case OpRename(p, _, _) => IsDir(g, p)
    case OpMove(from, to, name) =>
      IsDir(g, from) && IsDir(g, to)
      && (Movable(g, from, to, name) ==> NotBelow(g, Lookup(g.nodes[from].slots, name).value, to))
    case OpCopy(from, to, _, _) => IsDir(g, from) && IsDir(g, to)
    case OpFind(p, _) => IsDir(g, p)
    case OpRead(ino) => ino in g.nodes
    case OpList(d) => d in g.nodes
  }

  ghost predicate NotBelow(g: State, x: nat, to: nat)
    requires Tree(g) && to in g.nodes
  {
    x in g.nodes && !Under(g, x, to)
  }

  // ---- space ------------------------------------------------------------------------

  /** Blocks of data inode `i` holds: a file keeps those it once had when it shrinks. */
  ghost function Held(g: State, i: nat): nat { if i in g.lays then |g.lays[i].blks| else 0 }

  /** The inodes outside `S` hold what they held. */
  ghost predicate SameHeld(g: State, h: State, S: set<nat>) {
    forall i :: i in g.nodes && i in h.nodes && i !in S ==> Held(h, i) == Held(g, i)
  }

  /** A directory has a slot for one more entry, or can get one. */
  ghost predicate Fits(slots: seq<Slot>, free: int) { HasSlot(slots) || (|slots| < MAX_SLOTS && free > 0) }

  ghost predicate Payable(disk: nat, g: State, slots: seq<Slot>, dest: Name, t: Content) {
    && |dest| <= MAX_NAME && (HasSlot(slots) || |slots| < MAX_SLOTS)
    && BlockCost(t) + Extra(slots) <= Free(disk, g) && InodeCost(t) <= MAX_INODES - |g.nodes.Keys|
  }

  /** When a call panics on a disk of `disk` blocks: creating, writing, moving and copying for lack of inodes, blocks or
      slots; creating and copying for too long a name, writing for too much data; a copy into the
      source's own subtree; reading a directory as a file, and listing a file.  Removing, renaming and
      finding never do. */
  ghost predicate Panics(disk: nat, g: State, op: Op)
    requires Tree(g) && Allowed(g, op)
  {
    match op
    case OpCreate(p, name, isDir) =>
      var d := if isDir then 1 else 0;
      || |g.nodes.Keys| >= MAX_INODES || |name| > MAX_NAME
      || Free(disk, g) < d || !Fits(g.nodes[p].slots, Free(disk, g) - d)
    case OpWrite(ino, data) =>
      g.nodes[ino].Dir? || BlocksFor(|data|) > MAX_FILE_BLOCKS || Need(Held(g, ino), |data|) > Free(disk, g)
    case OpMove(from, to, name) => Movable(g, from, to, name) && !Fits(g.nodes[to].slots, Free(disk, g))
    case OpCopy(from, to, name, dest) =>
      && Copyable(g, from, to, name, dest)
      && var src := Lookup(g.nodes[from].slots, name).value;
      && src in g.nodes
      && (Under(g, src, to) || exists t :: Unpayable(disk, g, src, to, dest, t))
    case OpRead(ino) => g.nodes[ino].Dir?
    case OpList(d) => g.nodes[d].File?
    case _ => false
  }

  ghost predicate Unpayable(disk: nat, g: State, src: nat, to: nat, dest: Name, t: Content)
    requires Tree(g) && IsDir(g, to) && src in g.nodes
  {
    HasContent(g.nodes, src, t, Subtree(g, src)) && !Payable(disk, g, g.nodes[to].slots, dest, t)
  }

  /** What a call takes and gives back. */
  ghost predicate Spent(g: State, op: Op, out: Outcome, h: State)
    requires Tree(g) && Allowed(g, op)
  {
    match op
    case OpCreate(p, name, isDir) =>
      && |h.owner.Keys| == |g.owner.Keys| + (if isDir then 1 else 0) + Extra(g.nodes[p].slots) && SameHeld(g, h, {p})
      && (!isDir ==> out.Made? && Held(h, out.ino) == 0)
    case OpWrite(ino, data) =>
      && |h.owner.Keys| == |g.owner.Keys| + Need(Held(g, ino), |data|) && SameHeld(g, h, {ino})
      && Held(h, ino) == Max(Held(g, ino), BlocksFor(|data|))
    case OpRemove(p, name) =>
      if Removable(g, p, name) then
        var ino := Lookup(g.nodes[p].slots, name).value;
        h.owner.Keys == (set b | b in g.owner && g.owner[b].ino != ino) && SameHeld(g, h, {p, ino})
      else h.owner == g.owner && h.lays == g.lays
    case OpMove(from, to, name) =>
      if Movable(g, from, to, name) then
        |h.owner.Keys| == |g.owner.Keys| + Extra(g.nodes[to].slots) && SameHeld(g, h, {from, to})
      else h.owner == g.owner && h.lays == g.lays
    case OpCopy(from, to, name, dest) =>
      Copyable(g, from, to, name, dest) || (h.owner == g.owner && h.lays == g.lays)
    case _ => h.owner == g.owner && h.lays == g.lays
  }

  // ---- one call -----------------------------------------------------------------------

  /** The abstract effect and the result of an operation that does not panic. */
  ghost predicate Step(g: State, op: Op, out: Outcome, h: State)
    requires Tree(g) && Allowed(g, op)
  {
    && Spent(g, op, out, h)
    && match op
    case OpCreate(p, name, isDir) =>
      out.Made? && out.ino !in g.nodes && h.nodes == Created(g, p, name, out.ino, EmptyNode(isDir)).nodes
    case OpWrite(ino, data) => out.Wrote? && g.nodes[ino].File? && h.nodes == g.nodes[ino := File(data)]
    case OpRemove(p, name) =>
      && out == Did(Removable(g, p, name))
      && if Removable(g, p, name) then
           var ino, k := Lookup(g.nodes[p].slots, name).value, First(g.nodes[p].slots, Named(name), 0);
           IsSlot(g.nodes, p, k) && h.nodes == Removed(g, p, k, ino).nodes
         else h.nodes == g.nodes
    case OpRename(p, a, b) =>
      var slots := g.nodes[p].slots;
      var k := First(slots, Named(a), 0);
      var done := |b| <= MAX_NAME && Lookup(slots, b).None? && k < |slots|;
      out == Did(done) && h.nodes == if done then g.nodes[p := Dir(slots[k := Slot(slots[k].ino, b)])] else g.nodes
    case OpMove(from, to, name) =>
      && out == Did(Movable(g, from, to, name))
      && if Movable(g, from, to, name) then
           var x := Lookup(g.nodes[from].slots, name).value;
           Moved(g, h, x, from, First(g.nodes[from].slots, Named(name), 0), to, First(g.nodes[to].slots, Holds(0), 0))
         else h.nodes == g.nodes
    case OpCopy(from, to, name, dest) =>
      && out.Copied? && (out.made.Some? <==> Copyable(g, from, to, name, dest))
      && if out.made.Some? then exists t :: CopyStep(g, h, from, to, name, dest, out.made.value, t)
         else h.nodes == g.nodes
    case OpFind(p, name) => out == Found(Lookup(g.nodes[p].slots, name)) && h == g
    case OpRead(ino) => g.nodes[ino].File? && out == Bytes(g.nodes[ino].bytes) && h == g
    case OpList(d) => g.nodes[d].Dir? && out == Entries(Listing(g.nodes[d].slots)) && h == g
  }

  /** `made`, entered in `to` as `dest`, has the content `t` of the source, on inodes that were free. */
  ghost predicate CopyStep(g: State, h: State, from: nat, to: nat, name: Name, dest: Name, made: nat, t: Content)
    requires Tree(g) && IsDir(g, from) && IsDir(g, to)
  {
    && Copyable(g, from, to, name, dest) && OneMore(g, h, to, made, dest)
    && var src := Lookup(g.nodes[from].slots, name).value;
    && src in g.nodes && HasContent(g.nodes, src, t, Subtree(g, src))
    && HasContent(h.nodes, made, t, h.nodes.Keys - g.nodes.Keys)
    && |h.owner.Keys| == |g.owner.Keys| + BlockCost(t) + Extra(g.nodes[to].slots)
    && |h.nodes.Keys| == |g.nodes.Keys| + InodeCost(t) && SameHeld(g, h, {to})
  }

  /** The same entries in every directory, and the same inodes directories. */
  ghost predicate SameDirs(g: State, h: State) {
    && g.nodes.Keys == h.nodes.Keys
    && (forall i :: i in g.nodes ==> g.nodes[i].Dir? == h.nodes[i].Dir?)
    && (forall i :: i in g.nodes && g.nodes[i].Dir? ==> h.nodes[i] == g.nodes[i])
  }

  /** What a call promises: it panics exactly when `Panics` says so; otherwise the invariant is kept and the
      abstract step taken, and the generation counter moves whenever a directory changes. */
  twostate predicate Promised(vol: Volume, op: Op, new out: Option<Outcome>)
    requires old(Good(vol)) && Tree(old(vol.g)) && Allowed(old(vol.g), op)
    reads vol
  {
    && vol.generation >= old(vol.generation)
    && (out.None? <==> Panics(|old(vol.disk)|, old(vol.g), op))
    && (out.Some? ==> Good(vol) && Step(old(vol.g), op, out.value, vol.g) && |vol.disk| == |old(vol.disk)|)
    && (out.Some? && vol.generation == old(vol.generation) ==> SameDirs(old(vol.g), vol.g))
  }

  lemma SizesKept(v: View, g: State, w: View, h: State, S: set<nat>)
    requires Core(v, g) && Untouched(v, g, w, h, S)
    ensures |w.data| == |v.data| && SameHeld(g, h, S)
  {
    hide InodeOk;
  }

  lemma SizesKeptBy(v: View, g: State, w: View, h: State, ino: nat)
    requires Core(v, g) && Kept(v, g, w, h, ino)
    ensures |w.data| == |v.data| && SameHeld(g, h, {ino})
  {
    hide InodeOk;
  }

  lemma Room(vol: Volume)
    requires Good(vol)
    ensures |vol.v.ibits| >= MAX_INODES && FreeBlocks(vol.v) == Free(|vol.disk|, vol.g) && |vol.v.data| == |vol.disk|
    ensures FreeInodes(vol.v) == MAX_INODES - |vol.g.nodes.Keys| && vol.g.nodes.Keys == vol.g.lays.Keys
    ensures Tree(vol.g)
  {
    hide Core, Tied, Tree;
    FreeIs(vol.v, vol.g);
    SizedDisk(vol.disk, vol.v);
    NodesLive(vol.v, vol.g);
  }

  method ApplyCreate(vol: Volume, parent: nat, name: Name, isDir: bool) returns (out: Option<Outcome>)
    requires Good(vol) && Allowed(vol.g, OpCreate(parent, name, isDir))
    modifies vol
    ensures Promised(vol, OpCreate(parent, name, isDir), out)
  {
    hide Core, Tied, Names, Tree, Lookup, First, AddSlot, Untouched, FreeBlocks, FreeInodes, HasSlot, FirstClear;
    ghost var v, g := vol.v, vol.g;
    Room(vol);
    RootLive(g);
    var r := Create(vol, parent, name, isDir);
    if r.None? { return None; }
    Room(vol);
    SizesKept(v, g, vol.v, vol.g, {parent});
    out := Some(Made(r.value));
  }

  method ApplyWrite(vol: Volume, ino: nat, data: seq<Byte>) returns (out: Option<Outcome>)
    requires Good(vol) && Allowed(vol.g, OpWrite(ino, data))
    modifies vol
    ensures Promised(vol, OpWrite(ino, data), out)
  {
    hide Core, Tied, Names, Tree, Kept, FreeBlocks, FreeInodes, Need;
    ghost var v, g := vol.v, vol.g;
    Room(vol);
    var ok := WriteFile(vol, ino, data);
    if !ok { return None; }
    Room(vol);
    SizesKeptBy(v, g, vol.v, vol.g, ino);
    out := Some(Wrote);
  }

  method ApplyRemove(vol: Volume, parent: nat, name: Name) returns (out: Option<Outcome>)
    requires Good(vol) && Allowed(vol.g, OpRemove(parent, name))
    modifies vol
    ensures Promised(vol, OpRemove(parent, name), out)
  {
    hide Core, Tied, Names, Tree, Lookup, First, Untouched, Removable, FreeBlocks, FreeInodes;
    ghost var v, g := vol.v, vol.g;
    Room(vol);
    var ok := Remove(vol, parent, name);
    Room(vol);
    if ok { SizesKept(v, g, vol.v, vol.g, {parent, Lookup(g.nodes[parent].slots, name).value}); }
    out := Some(Did(ok));
  }

  method ApplyRename(vol: Volume, parent: nat, oldName: Name, newName: Name) returns (out: Option<Outcome>)
    requires Good(vol) && Allowed(vol.g, OpRename(parent, oldName, newName))
    modifies vol
    ensures Promised(vol, OpRename(parent, oldName, newName), out)
  {
    hide Core, Tied, Names, Tree, Lookup, First, Untouched, FreeBlocks, FreeInodes;
    ghost var v, g := vol.v, vol.g;
    Room(vol);
    var ok := Rename(vol, parent, oldName, newName);
    Room(vol);
    RenameGuard(g.nodes[parent].slots, oldName);
    if ok { SizesKept(v, g, vol.v, vol.g, {parent}); }
    out := Some(Did(ok));
  }

  lemma RenameGuard(slots: seq<Slot>, name: Name)
    ensures Lookup(slots, name).Some? <==> First(slots, Named(name), 0) < |slots|
  {
  }

  method ApplyMove(vol: Volume, from: nat, to: nat, name: Name) returns (out: Option<Outcome>)
    requires Good(vol) && Allowed(vol.g, OpMove(from, to, name))
    modifies vol
    ensures Promised(vol, OpMove(from, to, name), out)
  {
    hide Core, Tied, Names, Tree, Lookup, First, AddSlot, Untouched, Under, Moved, HasSlot, FreeBlocks, FreeInodes;
    ghost var v, g := vol.v, vol.g;
    Room(vol);
    var r := MoveEntry(vol, from, to, name);
    ThreeAnswers(r);
    if r.None? { return None; }
    Room(vol);
    if r.value { SizesKept(v, g, vol.v, vol.g, {from, to}); }
    out := Some(Did(r.value));
  }

  lemma ThreeAnswers(r: Option<bool>)
    ensures r == None || r == Some(true) || r == Some(false)
  {
    if r.Some? { if r.value { assert r == Some(true); } else { assert r == Some(false); } }
  }

  /** Only the content the source has decides. */
  lemma PaidOnce(disk: nat, g: State, src: nat, to: nat, dest: Name, t: Content)
    requires Tree(g) && IsDir(g, to) && src in g.nodes && HasContent(g.nodes, src, t, Subtree(g, src))
    ensures (exists u :: Unpayable(disk, g, src, to, dest, u)) <==> !Payable(disk, g, g.nodes[to].slots, dest, t)
  {
    hide Tree, HasContent, Payable, Subtree;
    if !Payable(disk, g, g.nodes[to].slots, dest, t) { assert Unpayable(disk, g, src, to, dest, t); }
    if u :| Unpayable(disk, g, src, to, dest, u) { OneContent(g.nodes, src, t, u, Subtree(g, src)); }
  }

  method ApplyCopy(vol: Volume, from: nat, to: nat, name: Name, dest: Name) returns (out: Option<Outcome>)
    requires Good(vol) && Allowed(vol.g, OpCopy(from, to, name, dest))
    modifies vol
    ensures Promised(vol, OpCopy(from, to, name, dest), out)
  {
    hide Core, Tied, Names, Tree, Under, Lookup, First, AddSlot, Untouched, Subtree, HasContent, Unpayable, FreeBlocks,
      FreeInodes, HasSlot, BlockCost, InodeCost;
    ghost var v, g := vol.v, vol.g;
    Room(vol);
    var r;
    ghost var t;
    r, t := CopyEntry(vol, from, to, name, dest);
    if Copyable(g, from, to, name, dest) {
      ghost var src := Lookup(g.nodes[from].slots, name).value;
      PaidOnce(|old(vol.disk)|, g, src, to, dest, t);
    }
    if r.None? { return None; }
    Room(vol);
    if r.value.Some? {
      SizesKept(v, g, vol.v, vol.g, {to});
      assert CopyStep(g, vol.g, from, to, name, dest, r.value.value, t);
    }
    out := Some(Copied(r.value));
  }

  /** The operations that only look. */
  method ApplyQuery(vol: Volume, op: Op) returns (out: Option<Outcome>)
    requires Good(vol) && Allowed(vol.g, op) && (op.OpFind? || op.OpRead? || op.OpList?)
    ensures out.None? <==> Panics(|vol.disk|, vol.g, op)
    ensures out.Some? ==> Step(vol.g, op, out.value, vol.g)
  {
    hide Core, Tied, Names, Tree, Lookup, Listing;
    match op
    case OpFind(p, name) =>
      var r := FindInDir(vol, p, name);
      out := Some(Found(r));
    case OpRead(ino) =>
      var r := ReadFile(vol, ino);
      out := if r.Some? then Some(Bytes(r.value)) else None;
    case OpList(d) =>
      var r := ListDir(vol, d);
      out := if r.Some? then Some(Entries(r.value)) else None;
  }

  /** One operation, `None` when it panics. */
  method Apply(vol: Volume, op: Op) returns (out: Option<Outcome>)
    requires Good(vol) && Allowed(vol.g, op)
    modifies vol
    ensures vol.generation >= old(vol.generation)
    ensures out.None? <==> Panics(|old(vol.disk)|, old(vol.g), op)
    ensures out.Some? ==> Good(vol) && Step(old(vol.g), op, out.value, vol.g) && |vol.disk| == |old(vol.disk)|
    ensures out.Some? && vol.generation == old(vol.generation) ==> SameDirs(old(vol.g), vol.g)
  {
    hide Core, Tied, Names, Tree, Allowed, Step, Panics, SameDirs;
    match op
    case OpCreate(p, name, isDir) => out := ApplyCreate(vol, p, name, isDir);
    case OpWrite(ino, data) => out := ApplyWrite(vol, ino, data);
    case OpRemove(p, name) => out := ApplyRemove(vol, p, name);
    case OpRename(p, a, b) => out := ApplyRename(vol, p, a, b);
    case OpMove(from, to, name) => out := ApplyMove(vol, from, to, name);
    case OpCopy(from, to, name, dest) => out := ApplyCopy(vol, from, to, name, dest);
    case _ =>
      out := ApplyQuery(vol, op);
      SameDirsSelf(vol.g);
  }

  lemma SameDirsSelf(g: State)
    ensures SameDirs(g, g)
  {
  }
}
