/** Two clients from a freshly formatted disk: one that uses the inodes it is given and
    behaves, and one that moves a directory into itself. */
module HepfsTour {
  import opened HepfsLayout
  import opened HepfsTypes
  import opened HepfsStore
  import opened HepfsState
  import opened HepfsNames
  import opened HepfsFile
  import opened HepfsDir
  import opened HepfsTree
  import opened HepfsCreate
  import opened HepfsRemove
  import opened HepfsOps
  import opened HepfsContent
  import opened HepfsCopy
  import opened HepfsFormat
  import opened BitCount
  import opened HepfsSpace
  import opened HepfsCalls
  import opened HepfsRuns

  // ---- a client that uses what it is given ---------------------------------------------------

  const DIR_NAME: Name := [0x61]
  const FILE_NAME: Name := [0x66]
  const COPY_NAME: Name := [0x62]

  /** Make a directory and a file, write the file, move it into the directory, copy the directory, and
      remove the file: each call names the inodes that earlier calls gave back. */
  function Tour(data: seq<Byte>): Client {
    (hist: seq<Outcome>) => TourNext(data, hist)
  }

  function TourNext(data: seq<Byte>, hist: seq<Outcome>): Option<Op> {
    if |hist| == 0 then Some(OpCreate(ROOT, DIR_NAME, true))
    else if |hist| == 1 then Some(OpCreate(ROOT, FILE_NAME, false))
    else if !hist[0].Made? || !hist[1].Made? then None
    else if |hist| == 2 then Some(OpWrite(hist[1].ino, data))
    else if |hist| == 3 then Some(OpMove(ROOT, hist[0].ino, FILE_NAME))
    else if |hist| == 4 then Some(OpCopy(ROOT, ROOT, DIR_NAME, COPY_NAME))
    else if |hist| == 5 then Some(OpRemove(hist[0].ino, FILE_NAME))
    else None
  }

  ghost predicate NoEntry(g: State, d: nat, name: Name) {
    IsDir(g, d) && Lookup(g.nodes[d].slots, name).None?
  }

  ghost predicate Entry(g: State, d: nat, name: Name, i: nat) {
    IsDir(g, d) && Lookup(g.nodes[d].slots, name) == Some(i)
  }

  /** What the tour knows of the volume after each call. */
  ghost predicate Stage(hist: seq<Outcome>, m: State) {
    && (|hist| == 0 ==> NoEntry(m, ROOT, DIR_NAME) && NoEntry(m, ROOT, FILE_NAME) && NoEntry(m, ROOT, COPY_NAME))
    && (|hist| > 0 ==> hist[0].Made? && hist[0].ino != ROOT && IsDir(m, hist[0].ino))
    && (|hist| == 1 ==> NoEntry(m, ROOT, FILE_NAME) && NoEntry(m, hist[0].ino, FILE_NAME))
    && (1 <= |hist| <= 4 ==> Entry(m, ROOT, DIR_NAME, hist[0].ino) && NoEntry(m, ROOT, COPY_NAME))
    && (|hist| > 1 ==> hist[1].Made?)
    && (2 <= |hist| <= 3 ==>
         Entry(m, ROOT, FILE_NAME, hist[1].ino) && hist[1].ino != hist[0].ino && NoEntry(m, hist[0].ino, FILE_NAME))
  }

  lemma LookupAdded(slots: seq<Slot>, s: Slot, name: Name)
    requires s.ino != 0 && Lookup(slots, s.name).None?
    ensures Lookup(AddSlot(slots, s), name) == if name == s.name then Some(s.ino) else Lookup(slots, name)
  {
    var r, k, f := AddSlot(slots, s), First(slots, Holds(0), 0), First(slots, Named(name), 0);
    assert k < |slots| ==> Holds(0)(slots[k]);
    assert forall j :: 0 <= j < |slots| && j != k ==> r[j] == slots[j];
    var f' := First(r, Named(name), 0);
    if name == s.name { assert Named(name)(r[k]); } else if f < |slots| { assert Named(name)(r[f]); }
  }

  lemma LookupCleared(slots: seq<Slot>, k: nat, name: Name)
    requires k < |slots| && slots[k].name != name
    ensures Lookup(slots[k := EMPTY_SLOT], name) == Lookup(slots, name)
  {
    var r, f := slots[k := EMPTY_SLOT], First(slots, Named(name), 0);
    var f' := First(r, Named(name), 0);
    if f < |slots| { assert Named(name)(r[f]); }
  }

  /** Two entries of the root, one of them a directory that does not hold the other's name. */
  lemma TourAllowed(data: seq<Byte>, hist: seq<Outcome>, m: State)
    requires Tree(m) && Stage(hist, m) && TourNext(data, hist).Some?
    ensures Allowed(m, TourNext(data, hist).value)
  {
    hide Lookup, PlacesOk, SlotsOk, RanksOk;
    if 2 <= |hist| <= 4 {
      LookupPlace(m, ROOT, DIR_NAME);
      var d := hist[0].ino;
      if |hist| < 4 {
        LookupPlace(m, ROOT, FILE_NAME);
        assert !Under(m, hist[1].ino, ROOT);
        assert NamedAt(m.nodes, m.place[d], d) && !Under(m, hist[1].ino, d);
      }
    }
  }

  lemma TourCreate(m: State, p: nat, name: Name, i: nat, isDir: bool, h: State, d: nat, other: Name)
    requires Tree(m) && NoEntry(m, p, name) && i !in m.nodes && i != 0
    requires h.nodes == Created(m, p, name, i, EmptyNode(isDir)).nodes
    ensures Entry(h, p, name, i) && (isDir ==> NoEntry(h, i, other))
    ensures IsDir(m, d) ==>
      IsDir(h, d) && (other != name || d != p ==> Lookup(h.nodes[d].slots, other) == Lookup(m.nodes[d].slots, other))
  {
    hide Lookup, AddSlot, PlacesOk, SlotsOk, RanksOk;
    LookupAdded(m.nodes[p].slots, Slot(i, name), name);
    LookupAdded(m.nodes[p].slots, Slot(i, name), other);
    if isDir { assert forall k :: 0 <= k < SLOTS_PER_BLOCK ==> EmptySlots(SLOTS_PER_BLOCK)[k].ino == 0; }
  }

  lemma TourMove(m: State, h: State, x: nat, from: nat, kf: nat, to: nat, kt: nat, d: nat, other: Name)
    requires Tree(m) && Moved(m, h, x, from, kf, to, kt) && IsDir(m, d) && m.nodes[from].slots[kf].name != other
    ensures IsDir(h, d) && (d == from ==> Lookup(h.nodes[d].slots, other) == Lookup(m.nodes[d].slots, other))
  {
    hide Lookup, PlacesOk, SlotsOk, RanksOk, Placed;
    if d == from { LookupCleared(m.nodes[from].slots, kf, other); }
  }

  lemma StageCreate(data: seq<Byte>, hist: seq<Outcome>, m: State, out: Outcome, h: State)
    requires Names(m) && Stage(hist, m) && TourNext(data, hist).Some? && |hist| < 2
    requires Allowed(m, TourNext(data, hist).value) && Step(m, TourNext(data, hist).value, out, h)
    ensures Stage(hist + [out], h)
  {
    hide Lookup, AddSlot, First, PlacesOk, SlotsOk, RanksOk, Placed, UniqueNames, HasContent, Removable, Spent;
    if |hist| == 0 {
      TourCreate(m, ROOT, DIR_NAME, out.ino, true, h, ROOT, FILE_NAME);
      TourCreate(m, ROOT, DIR_NAME, out.ino, true, h, ROOT, COPY_NAME);
    } else {
      var d := hist[0].ino;
      TourCreate(m, ROOT, FILE_NAME, out.ino, false, h, ROOT, DIR_NAME);
      TourCreate(m, ROOT, FILE_NAME, out.ino, false, h, ROOT, COPY_NAME);
      TourCreate(m, ROOT, FILE_NAME, out.ino, false, h, d, FILE_NAME);
    }
  }

  lemma StageMove(data: seq<Byte>, hist: seq<Outcome>, m: State, out: Outcome, h: State)
    requires Names(m) && Stage(hist, m) && TourNext(data, hist).Some? && |hist| == 3
    requires Allowed(m, TourNext(data, hist).value) && Step(m, TourNext(data, hist).value, out, h)
    ensures Stage(hist + [out], h)
  {
    hide Lookup, AddSlot, First, PlacesOk, SlotsOk, RanksOk, Placed, UniqueNames, HasContent, Removable, Spent;
    LookupPlace(m, ROOT, FILE_NAME);
    var d, x, kf, kt := hist[0].ino, hist[1].ino, First(m.nodes[ROOT].slots, Named(FILE_NAME), 0),
      First(m.nodes[hist[0].ino].slots, Holds(0), 0);
    TourMove(m, h, x, ROOT, kf, d, kt, ROOT, DIR_NAME);
    TourMove(m, h, x, ROOT, kf, d, kt, ROOT, COPY_NAME);
    TourMove(m, h, x, ROOT, kf, d, kt, d, COPY_NAME);
  }

  lemma StageOther(data: seq<Byte>, hist: seq<Outcome>, m: State, out: Outcome, h: State)
    requires Names(m) && Stage(hist, m) && TourNext(data, hist).Some? && (|hist| == 2 || |hist| > 3)
    requires Allowed(m, TourNext(data, hist).value) && Step(m, TourNext(data, hist).value, out, h)
    ensures Stage(hist + [out], h)
  {
    hide Lookup, AddSlot, First, PlacesOk, SlotsOk, RanksOk, Placed, UniqueNames, HasContent, Removable, Spent;
  }

  lemma TourStep(data: seq<Byte>, hist: seq<Outcome>, m: State, out: Outcome, h: State)
    requires Names(m) && Stage(hist, m) && TourNext(data, hist).Some?
    requires Allowed(m, TourNext(data, hist).value) && Step(m, TourNext(data, hist).value, out, h)
    ensures Stage(hist + [out], h)
  {
    hide Names, Stage, Allowed, Step;
    if |hist| < 2 {
      StageCreate(data, hist, m, out, h);
    } else if |hist| == 3 {
      StageMove(data, hist, m, out, h);
    } else {
      StageOther(data, hist, m, out, h);
    }
  }

  lemma {:induction false} TourReach(disk: nat, g: State, data: seq<Byte>, hist: seq<Outcome>, m: State)
    requires Blank(g) && Reach(disk, g, Tour(data), hist, m)
    ensures Stage(hist, m)
    decreases |hist|
  {
    hide Names, Allowed, Step, Stage, Panics;
    if hist == [] {
      BlankStage(g);
    } else {
      var past, out := hist[..|hist| - 1], hist[|hist| - 1];
      var b :| Follows(disk, g, Tour(data), hist, b, m);
      TourReach(disk, g, data, past, b);
      assert Tour(data)(past) == TourNext(data, past);
      TourStep(data, past, b, out, m);
      assert past + [out] == hist;
    }
  }

  lemma BlankStage(g: State)
    requires Blank(g)
    ensures Stage([], g)
  {
    assert forall k :: 0 <= k < SLOTS_PER_BLOCK ==> EmptySlots(SLOTS_PER_BLOCK)[k].ino == 0;
  }

  /** The tour behaves on every blank volume, whatever inode numbers it is given. */
  lemma TourBehaves(data: seq<Byte>)
    ensures forall disk, g :: Blank(g) ==> WellBehaved(disk, g, Tour(data))
  {
    hide PlacesOk, SlotsOk, RanksOk, UniqueNames, Allowed, Step, Stage, Panics;
    forall disk, g, hist, m | Blank(g) && Reach(disk, g, Tour(data), hist, m) && Names(m) && Tour(data)(hist).Some?
      ensures Allowed(m, Tour(data)(hist).value)
    {
      TourReach(disk, g, data, hist, m);
      assert Tour(data)(hist) == TourNext(data, hist);
      TourAllowed(data, hist, m);
    }
  }

  // ---- what the tour costs --------------------------------------------------------------------

  /** No slot from `n` on is used, and there is one. */
  ghost predicate Loose(slots: seq<Slot>, n: nat) {
    n < |slots| && forall j :: n <= j < |slots| ==> slots[j].ino == 0
  }

  lemma LooseAdd(slots: seq<Slot>, n: nat, s: Slot)
    requires Loose(slots, n)
    ensures HasSlot(slots) && |AddSlot(slots, s)| == |slots| && (n + 1 < |slots| ==> Loose(AddSlot(slots, s), n + 1))
  {
    assert Holds(0)(slots[n]);
    var k := First(slots, Holds(0), 0);
    assert k <= n;
  }

  /** Blocks of a file of that size, with its pointer blocks. */
  function Blocks(data: seq<Byte>): int { Need(0, |data|) }

  /** What the volume holds after the first calls of the tour, and how much of it is in use. */
  ghost predicate Account(data: seq<Byte>, hist: seq<Outcome>, m: State) {
    |hist| <= 4 ==>
      && IsDir(m, ROOT) && |m.nodes[ROOT].slots| == SLOTS_PER_BLOCK && Loose(m.nodes[ROOT].slots, |hist|)
      && |m.nodes.Keys| == Min(1 + |hist|, 3)
      && |m.owner.Keys| == (if |hist| == 0 then 1 else 2) + (if |hist| <= 2 then 0 else Blocks(data))
      && (|hist| > 0 ==> hist[0].Made? && IsDir(m, hist[0].ino) && hist[0].ino != ROOT)
      && (1 <= |hist| <= 3 ==> m.nodes[hist[0].ino] == Dir(EmptySlots(SLOTS_PER_BLOCK)))
      && (|hist| >= 2 ==> hist[1].Made? && hist[1].ino in m.nodes)
      && (|hist| == 2 ==> m.nodes[hist[1].ino] == File([]) && Held(m, hist[1].ino) == 0)
      && (3 <= |hist| <= 4 ==> m.nodes[hist[1].ino] == File(data))
      && (|hist| == 4 ==> Listing(m.nodes[hist[0].ino].slots) == [Slot(hist[1].ino, FILE_NAME)])
  }

  /** What a creation of the tour does. */
  lemma TourMakes(m: State, name: Name, isDir: bool, out: Outcome, h: State)
    requires Names(m) && Allowed(m, OpCreate(ROOT, name, isDir)) && Step(m, OpCreate(ROOT, name, isDir), out, h)
    requires HasSlot(m.nodes[ROOT].slots)
    ensures out.Made? && out.ino !in m.nodes && (!isDir ==> Held(h, out.ino) == 0) && ROOT in m.nodes
    ensures h.nodes ==
      m.nodes[out.ino := EmptyNode(isDir)][ROOT := Dir(AddSlot(m.nodes[ROOT].slots, Slot(out.ino, name)))]
    ensures |h.nodes.Keys| == |m.nodes.Keys| + 1 && |h.owner.Keys| == |m.owner.Keys| + if isDir then 1 else 0
  {
    hide Lookup, AddSlot, PlacesOk, SlotsOk, RanksOk, UniqueNames, HasSlot, SameHeld;
    assert h.nodes.Keys == m.nodes.Keys + {out.ino};
  }

  lemma AccountCreate(data: seq<Byte>, hist: seq<Outcome>, m: State, out: Outcome, h: State)
    requires Names(m) && Account(data, hist, m) && |hist| < 2
    requires Allowed(m, TourNext(data, hist).value) && Step(m, TourNext(data, hist).value, out, h)
    ensures Account(data, hist + [out], h)
  {
    hide Names, Allowed, Step, AddSlot, HasSlot, Need, EmptySlots, Loose, Listing;
    LooseAdd(m.nodes[ROOT].slots, |hist|, EMPTY_SLOT);
    var op := TourNext(data, hist).value;
    TourMakes(m, op.name, op.isDir, out, h);
    LooseAdd(m.nodes[ROOT].slots, |hist|, Slot(out.ino, op.name));
    assert (hist + [out])[0] == if |hist| == 0 then out else hist[0];
  }

  lemma AccountWrite(data: seq<Byte>, hist: seq<Outcome>, m: State, out: Outcome, h: State)
    requires Names(m) && Account(data, hist, m) && |hist| == 2
    requires TourNext(data, hist).Some? && Allowed(m, TourNext(data, hist).value)
    requires Step(m, TourNext(data, hist).value, out, h)
    ensures Account(data, hist + [out], h)
  {
    hide PlacesOk, SlotsOk, RanksOk, UniqueNames, Need, EmptySlots, SameHeld, Listing;
    assert h.nodes.Keys == m.nodes.Keys;
  }

  /** An entry put into an empty directory is all of its listing. */
  lemma OnlyEntry(slots: seq<Slot>, s: Slot)
    requires s.ino != 0
    requires Placed(EmptySlots(SLOTS_PER_BLOCK), slots, First(EmptySlots(SLOTS_PER_BLOCK), Holds(0), 0), s)
    ensures HasSlot(EmptySlots(SLOTS_PER_BLOCK)) && Listing(slots) == [s]
  {
    assert Holds(0)(EmptySlots(SLOTS_PER_BLOCK)[0]);
    assert Packed(slots, 1);
    PackedListing(slots, 1);
    assert slots[..1] == [s];
  }

  /** What the move of the tour does. */
  lemma TourMoves(data: seq<Byte>, hist: seq<Outcome>, m: State, out: Outcome, h: State) returns (k: nat)
    requires Names(m) && Stage(hist, m) && Account(data, hist, m) && |hist| == 3
    requires TourNext(data, hist).Some? && Allowed(m, TourNext(data, hist).value)
    requires Step(m, TourNext(data, hist).value, out, h)
    ensures hist[0].Made? && hist[1].Made? && IsDir(m, ROOT) && IsDir(h, hist[0].ino) && k < |m.nodes[ROOT].slots|
    ensures Listing(h.nodes[hist[0].ino].slots) == [Slot(hist[1].ino, FILE_NAME)]
    ensures h.nodes == m.nodes[ROOT := Dir(m.nodes[ROOT].slots[k := EMPTY_SLOT])][hist[0].ino := h.nodes[hist[0].ino]]
    ensures |h.owner.Keys| == |m.owner.Keys|
  {
    hide Lookup, AddSlot, PlacesOk, SlotsOk, RanksOk, UniqueNames, Need, Placed, Listing, First, EmptySlots, Loose,
      SameHeld, HasSlot;
    LookupPlace(m, ROOT, FILE_NAME);
    k := First(m.nodes[ROOT].slots, Named(FILE_NAME), 0);
    OnlyEntry(h.nodes[hist[0].ino].slots, m.nodes[ROOT].slots[k]);
  }

  lemma AccountMove(data: seq<Byte>, hist: seq<Outcome>, m: State, out: Outcome, h: State)
    requires Names(m) && Stage(hist, m) && Account(data, hist, m) && |hist| == 3
    requires TourNext(data, hist).Some? && Allowed(m, TourNext(data, hist).value)
    requires Step(m, TourNext(data, hist).value, out, h)
    ensures Account(data, hist + [out], h)
  {
    hide Names, Stage, Allowed, Step, Listing, Need, EmptySlots;
    var k := TourMoves(data, hist, m, out, h);
    assert h.nodes.Keys == m.nodes.Keys;
  }

  /** The disk has room for the tour: the root, the directory and its copy, and the file twice. */
  predicate RoomForTour(disk: nat, data: seq<Byte>) {
    BlocksFor(|data|) <= MAX_FILE_BLOCKS && Capacity(disk) >= 3 + 2 * Blocks(data)
  }

  lemma CopyPays(disk: nat, data: seq<Byte>, hist: seq<Outcome>, m: State)
    requires Names(m) && Stage(hist, m) && Account(data, hist, m) && |hist| == 4
    requires Allowed(m, OpCopy(ROOT, ROOT, DIR_NAME, COPY_NAME))
    ensures Panics(disk, m, OpCopy(ROOT, ROOT, DIR_NAME, COPY_NAME)) <==> Capacity(disk) < 3 + 2 * Blocks(data)
  {
    hide Lookup, PlacesOk, SlotsOk, RanksOk, UniqueNames, Listing, HasContent, Subtree, First;
    var d, x := hist[0].ino, hist[1].ino;
    var t := DirOf([Kid(FILE_NAME, FileOf(data))]);
    LooseAdd(m.nodes[ROOT].slots, 4, EMPTY_SLOT);
    LookupPlace(m, ROOT, DIR_NAME);
    assert !Under(m, d, ROOT);
    TourContent(m, d, x, data);
    TourCost(data);
    PaidOnce(disk, m, d, ROOT, COPY_NAME, t);
  }

  lemma TourCost(data: seq<Byte>)
    ensures var t := DirOf([Kid(FILE_NAME, FileOf(data))]); BlockCost(t) == 1 + Blocks(data) && InodeCost(t) == 2
  {
    var k := Kid(FILE_NAME, FileOf(data));
    assert KidBlocks([k], 1) == KidBlocks([k], 0) + BlockCost(k.content);
    assert KidInodes([k], 1) == KidInodes([k], 0) + InodeCost(k.content);
  }

  lemma TourContent(m: State, d: nat, x: nat, data: seq<Byte>)
    requires Tree(m) && IsDir(m, d) && x in m.nodes && m.nodes[x] == File(data)
    requires Listing(m.nodes[d].slots) == [Slot(x, FILE_NAME)]
    ensures HasContent(m.nodes, d, DirOf([Kid(FILE_NAME, FileOf(data))]), Subtree(m, d))
  {
    hide Tree, Under, Listing;
    UnderSelf(m, d);
    EntryBelow(m, d, d, 0);
    var t := FileOf(data);
    assert HasContent(m.nodes, x, t, Subtree(m, d));
  }

  /** Each call of the tour finds room if the whole tour does. */
  lemma TourPanics(disk: nat, data: seq<Byte>, hist: seq<Outcome>, m: State)
    requires Names(m) && Stage(hist, m) && Account(data, hist, m) && TourNext(data, hist).Some?
    requires Allowed(m, TourNext(data, hist).value)
    ensures RoomForTour(disk, data) ==> !Panics(disk, m, TourNext(data, hist).value)
    ensures |hist| == 2 && !Panics(disk, m, TourNext(data, hist).value) ==> BlocksFor(|data|) <= MAX_FILE_BLOCKS
    ensures |hist| == 4 && !Panics(disk, m, TourNext(data, hist).value) ==> Capacity(disk) >= 3 + 2 * Blocks(data)
  {
    hide Lookup, PlacesOk, SlotsOk, RanksOk, UniqueNames, Listing, HasContent, Subtree, First, HasSlot;
    assert Blocks(data) >= 0;
    if |hist| < 2 {
      LooseAdd(m.nodes[ROOT].slots, |hist|, EMPTY_SLOT);
    } else if |hist| == 3 {
      LooseAdd(m.nodes[hist[0].ino].slots, 0, EMPTY_SLOT);
    } else if |hist| == 4 {
      CopyPays(disk, data, hist, m);
    }
  }

  lemma AccountStep(data: seq<Byte>, hist: seq<Outcome>, m: State, out: Outcome, h: State)
    requires Names(m) && Stage(hist, m) && Account(data, hist, m) && TourNext(data, hist).Some?
    requires Allowed(m, TourNext(data, hist).value) && Step(m, TourNext(data, hist).value, out, h)
    ensures Account(data, hist + [out], h)
  {
    hide Names, Stage, Allowed, Step;
    if |hist| < 2 {
      AccountCreate(data, hist, m, out, h);
    } else if |hist| == 2 {
      AccountWrite(data, hist, m, out, h);
    } else if |hist| == 3 {
      AccountMove(data, hist, m, out, h);
    }
  }

  lemma {:induction false} TourAccount(disk: nat, g: State, data: seq<Byte>, hist: seq<Outcome>, m: State)
    requires Blank(g) && Reach(disk, g, Tour(data), hist, m)
    ensures Account(data, hist, m)
    ensures |hist| >= 3 ==> BlocksFor(|data|) <= MAX_FILE_BLOCKS
    ensures |hist| >= 5 ==> Capacity(disk) >= 3 + 2 * Blocks(data)
    decreases |hist|
  {
    hide Names, Allowed, Step, Stage, Panics, Account;
    if hist == [] {
      BlankAccount(g, data);
    } else {
      var past, out := hist[..|hist| - 1], hist[|hist| - 1];
      var b :| Follows(disk, g, Tour(data), hist, b, m);
      TourAccount(disk, g, data, past, b);
      TourReach(disk, g, data, past, b);
      assert Tour(data)(past) == TourNext(data, past);
      TourPanics(disk, data, past, b);
      AccountStep(data, past, b, out, m);
      assert past + [out] == hist;
    }
  }

  lemma BlankAccount(g: State, data: seq<Byte>)
    requires Blank(g)
    ensures Account(data, [], g)
  {
    hide Names;
    assert g.nodes.Keys == {ROOT};
  }

  lemma TourNotStuck(disk: nat, g: State, data: seq<Byte>, hist: seq<Outcome>)
    requires Blank(g) && Stuck(disk, g, Tour(data), hist)
    ensures !RoomForTour(disk, data)
  {
    hide Names, Allowed, Step, Stage, Panics, Account, Reach, RoomForTour;
    var m :| StuckIn(disk, g, Tour(data), hist, m);
    TourAccount(disk, g, data, hist, m);
    TourReach(disk, g, data, hist, m);
    assert Tour(data)(hist) == TourNext(data, hist);
    TourPanics(disk, data, hist, m);
  }

  /** Format a disk and take the tour: it panics if and only if the disk has no room for it. */
  method TourFromFormat(vol: Volume, data: seq<Byte>) returns (hist: seq<Outcome>, panicked: bool)
    requires vol.Valid()
    modifies vol
    ensures panicked <==> !RoomForTour(|old(vol.disk)|, data)
    ensures !panicked ==> Good(vol) && |hist| == 6
  {
    hide Names, Core, Tied, Reach, WellBehaved, Stage, Stuck, Account, Need;
    TourBehaves(data);
    hist, panicked := RunFromFormat(vol, Tour(data), 6);
    ghost var disk := |old(vol.disk)|;
    if panicked {
      ghost var g :| Blank(g) && Stuck(disk, g, Tour(data), hist);
      TourNotStuck(disk, g, data, hist);
    } else {
      ghost var g :| Blank(g) && Reach(disk, g, Tour(data), hist, vol.g);
      TourReach(disk, g, data, hist, vol.g);
      assert Tour(data)(hist) == TourNext(data, hist);
      TourGoesOn(data, hist, vol.g);
      TourAccount(disk, g, data, hist, vol.g);
    }
  }

  lemma TourGoesOn(data: seq<Byte>, hist: seq<Outcome>, m: State)
    requires Stage(hist, m)
    ensures TourNext(data, hist).None? ==> |hist| >= 6
  {
  }

  // ---- the missing cycle check ---------------------------------------------------------------

  /** A formatted disk with one more block than the root needs has room for a directory. */
  lemma BlankRoom(v: View, g: State)
    requires Core(v, g) && g.nodes.Keys == {ROOT} && g.owner.Keys == {DATA_START} && |v.data| > DATA_START + 1
    ensures FreeBlocks(v) > 0 && |v.ibits| >= MAX_INODES && FreeInodes(v) > 0
  {
    hide InodeOk;
    assert 1 !in g.lays && DATA_START + 1 !in g.owner;
    ClearSome(v.ibits, 0, MAX_INODES, 1);
    ClearSome(v.bbits, DATA_START, Min(|v.bbits|, |v.data|), DATA_START + 1);
  }

  lemma NoneUsed(slots: seq<Slot>, name: Name)
    requires |slots| > 0 && forall k :: 0 <= k < |slots| ==> slots[k].ino == 0
    ensures HasSlot(slots) && Lookup(slots, name).None?
  {
    assert Holds(0)(slots[0]);
  }

  /** On a fresh volume, make a directory and move it into itself: the call succeeds, the directory is
      its own only entry, the root is empty, and what is stored is no tree. */
  method MoveIntoItself(vol: Volume) returns (d: nat)
    requires vol.Valid() && |vol.disk| > DATA_START + 1
    modifies vol
    ensures vol.Valid() && Core(vol.v, vol.g) && !Good(vol) && !Treelike(vol.g)
    ensures vol.g.nodes.Keys == {ROOT, d} && d != ROOT && Entry(vol.g, d, DIR_NAME, d) && NoEntry(vol.g, ROOT, DIR_NAME)
  {
    hide Core, Tied, Names, Tree, Treelike, Lookup, First, AddSlot, Untouched, FreeBlocks, FreeInodes, Moved, HasSlot;
    Format(vol);
    ghost var g := vol.g;
    SizedDisk(vol.disk, vol.v);
    BlankRoom(vol.v, g);
    NoneUsed(EmptySlots(SLOTS_PER_BLOCK), DIR_NAME);
    RootLive(g);
    var r := Create(vol, ROOT, DIR_NAME, true);
    d := r.value;
    ghost var h := vol.g;
    TreeOf(g);
    TreeOf(h);
    TourCreate(g, ROOT, DIR_NAME, d, true, h, ROOT, DIR_NAME);
    assert h.nodes[d] == EmptyNode(true) && HasSlot(h.nodes[d].slots);
    assert Movable(h, ROOT, d, DIR_NAME) && Under(h, d, d);
    var ok := MoveEntry(vol, ROOT, d, DIR_NAME);
    ThreeAnswers(ok);
    MovedIn(h, vol.g, d, DIR_NAME);
  }

  lemma MovedIn(h: State, i: State, d: nat, name: Name)
    requires Names(h) && Entry(h, ROOT, name, d) && NoEntry(h, d, name) && d != 0
    requires Moved(h, i, d, ROOT, First(h.nodes[ROOT].slots, Named(name), 0), d, First(h.nodes[d].slots, Holds(0), 0))
    requires i.nodes[d] == Dir(AddSlot(h.nodes[d].slots, Slot(d, name)))
    ensures Entry(i, d, name, d) && NoEntry(i, ROOT, name) && i.nodes.Keys == h.nodes.Keys
  {
    hide AddSlot, Placed, Tree;
    LookupAdded(h.nodes[d].slots, Slot(d, name), name);
    var slots, kf := h.nodes[ROOT].slots, First(h.nodes[ROOT].slots, Named(name), 0);
    assert UniqueNames(slots) && Named(name)(slots[kf]);
    assert Lookup(slots[kf := EMPTY_SLOT], name).None?;
  }
}
