/** How each directory operation keeps the name space a tree. */
module HepfsTree {
  import opened HepfsLayout
  import opened HepfsTypes
  import opened HepfsNames
  import opened HepfsDir

  /** `r` is `slots` with the unused slot `k`, possibly in a new block, set to `s`. */
  ghost predicate Placed(slots: seq<Slot>, r: seq<Slot>, k: nat, s: Slot) {
    && |slots| <= |r| && k < |r| && r[k] == s
    && (k < |slots| ==> slots[k].ino == 0)
    && (forall j :: 0 <= j < |slots| && j != k ==> r[j] == slots[j])
    && (forall j :: |slots| <= j < |r| && j != k ==> r[j].ino == 0)
  }

  lemma AddSlotPlaces(slots: seq<Slot>, s: Slot)
    ensures Placed(slots, AddSlot(slots, s), First(slots, Holds(0), 0), s)
  {
  }

  lemma PlacedUnique(slots: seq<Slot>, r: seq<Slot>, k: nat, s: Slot)
    requires Placed(slots, r, k, s) && UniqueNames(slots) && Lookup(slots, s.name).None?
    ensures UniqueNames(r)
  {
  }

  /** The state after `node` is entered under `parent` as slot `k`. */
  ghost predicate Entered(g: State, h: State, parent: nat, k: nat, s: Slot, node: Node) {
    && parent in g.nodes && g.nodes[parent].Dir? && s.ino != 0 && s.ino !in g.nodes
    && parent in h.nodes && h.nodes[parent].Dir?
    && h.nodes == g.nodes[s.ino := node][parent := h.nodes[parent]]
    && Placed(g.nodes[parent].slots, h.nodes[parent].slots, k, s)
    && h.place == g.place[s.ino := Place(parent, k)]
    && parent in g.rank && h.rank == g.rank[s.ino := g.rank[parent] + 1]
  }

  ghost predicate Childless(node: Node) {
    node.Dir? ==> forall j :: 0 <= j < |node.slots| ==> node.slots[j].ino == 0
  }

  lemma EnterPlaces(g: State, h: State, parent: nat, k: nat, s: Slot, node: Node)
    requires Tree(g) && Entered(g, h, parent, k, s, node)
    ensures PlacesOk(h) && RanksOk(h)
  {
    forall i | i in h.place ensures NamedAt(h.nodes, h.place[i], i) {
      if i != s.ino { assert NamedAt(g.nodes, g.place[i], i); }
    }
    forall i | i in h.place ensures h.place[i].dir in h.rank && h.rank[h.place[i].dir] < h.rank[i] {
      if i != s.ino { assert NamedAt(g.nodes, g.place[i], i); }
    }
  }

  lemma EnterSlots(g: State, h: State, parent: nat, k: nat, s: Slot, node: Node)
    requires Tree(g) && Entered(g, h, parent, k, s, node) && Childless(node)
    ensures SlotsOk(h)
  {
    hide PlacesOk, RanksOk;
    forall d, j: nat | IsSlot(h.nodes, d, j)
      ensures var i := h.nodes[d].slots[j].ino; i != 0 ==> i in h.place && h.place[i] == Place(d, j)
    {
      if d != s.ino && (d != parent || j < |g.nodes[parent].slots|) { assert IsSlot(g.nodes, d, j); }
    }
  }

  lemma EnterTree(g: State, h: State, parent: nat, k: nat, s: Slot, node: Node)
    requires Tree(g) && Entered(g, h, parent, k, s, node) && Childless(node)
    ensures Tree(h)
  {
    hide PlacesOk, SlotsOk, RanksOk;
    EnterPlaces(g, h, parent, k, s, node);
    EnterSlots(g, h, parent, k, s, node);
  }

  lemma EnterNames(g: State, h: State, parent: nat, k: nat, s: Slot, node: Node)
    requires Names(g) && Entered(g, h, parent, k, s, node) && Childless(node)
    requires Lookup(g.nodes[parent].slots, s.name).None?
    ensures Names(h)
  {
    hide Tree;
    EnterTree(g, h, parent, k, s, node);
    forall d | d in h.nodes && h.nodes[d].Dir? ensures UniqueNames(h.nodes[d].slots) {
      if d == parent { PlacedUnique(g.nodes[parent].slots, h.nodes[parent].slots, k, s); }
      else if d != s.ino { assert d in g.nodes; }
    }
  }

  /** The state after the entry in slot `k` of `parent` and its inode are gone. */
  ghost predicate Dropped(g: State, h: State, parent: nat, k: nat, ino: nat) {
    && IsSlot(g.nodes, parent, k) && ino != 0 && ino in g.nodes && g.nodes[parent].slots[k].ino == ino
    && parent in h.nodes
    && h.nodes == (g.nodes - {ino})[parent := Dir(g.nodes[parent].slots[k := EMPTY_SLOT])]
    && h.place == g.place - {ino} && h.rank == g.rank - {ino}
  }

  lemma DropTree(g: State, h: State, parent: nat, k: nat, ino: nat)
    requires Tree(g) && Dropped(g, h, parent, k, ino) && Childless(g.nodes[ino]) && parent != ino
    ensures PlacesOk(h) && RanksOk(h)
  {
    assert g.place[ino] == Place(parent, k);
    forall i | i in h.place
      ensures NamedAt(h.nodes, h.place[i], i) && h.place[i].dir in h.rank
    {
      assert NamedAt(g.nodes, g.place[i], i);
    }
  }

  lemma DropSlots(g: State, h: State, parent: nat, k: nat, ino: nat)
    requires Tree(g) && Dropped(g, h, parent, k, ino) && parent != ino
    ensures SlotsOk(h)
  {
    hide PlacesOk, RanksOk;
    assert g.place[ino] == Place(parent, k);
    forall d, j: nat | IsSlot(h.nodes, d, j)
      ensures var i := h.nodes[d].slots[j].ino; i != 0 ==> i in h.place && h.place[i] == Place(d, j)
    {
      assert IsSlot(g.nodes, d, j);
    }
  }

  lemma DropNames(g: State, h: State, parent: nat, k: nat, ino: nat)
    requires Names(g) && Dropped(g, h, parent, k, ino) && Childless(g.nodes[ino]) && parent != ino
    ensures Names(h)
  {
    hide PlacesOk, SlotsOk, RanksOk;
    DropTree(g, h, parent, k, ino);
    DropSlots(g, h, parent, k, ino);
  }

  /** Renaming slot `k` to a name not yet used. */
  lemma RenameNames(g: State, h: State, parent: nat, k: nat, name: Str)
    requires Names(g) && IsSlot(g.nodes, parent, k) && Lookup(g.nodes[parent].slots, name).None?
    requires h == WithSlots(g, parent, g.nodes[parent].slots[k := Slot(g.nodes[parent].slots[k].ino, name)])
    ensures Names(h)
  {
    hide PlacesOk, SlotsOk, RanksOk;
    RenameSlots(g, h, parent, k, name);
  }

  lemma RenameSlots(g: State, h: State, parent: nat, k: nat, name: Str)
    requires Tree(g) && IsSlot(g.nodes, parent, k)
    requires h == WithSlots(g, parent, g.nodes[parent].slots[k := Slot(g.nodes[parent].slots[k].ino, name)])
    ensures PlacesOk(h) && SlotsOk(h) && RanksOk(h)
  {
    forall i | i in h.place ensures NamedAt(h.nodes, h.place[i], i) {
      assert NamedAt(g.nodes, g.place[i], i);
    }
    forall d, j: nat | IsSlot(h.nodes, d, j)
      ensures var i := h.nodes[d].slots[j].ino; i != 0 ==> i in h.place && h.place[i] == Place(d, j)
    {
      assert IsSlot(g.nodes, d, j);
    }
  }

  // ---- moving ----------------------------------------------------------------------

  /** `n` is `x` or lies below it. */
  ghost predicate Under(g: State, x: nat, n: nat)
    requires Tree(g) && n in g.nodes
    decreases g.rank[n]
  {
    n == x || (n in g.place && assert NamedAt(g.nodes, g.place[n], n); Under(g, x, g.place[n].dir))
  }

  /** Entry `x` leaves slot `kf` of `from` for slot `kt` of `to`. */
  ghost predicate Moved(g: State, h: State, x: nat, from: nat, kf: nat, to: nat, kt: nat) {
    && IsSlot(g.nodes, from, kf) && g.nodes[from].slots[kf].ino == x != 0 && from != to
    && to in g.nodes && g.nodes[to].Dir? && to in h.nodes && h.nodes[to].Dir?
    && Placed(g.nodes[to].slots, h.nodes[to].slots, kt, g.nodes[from].slots[kf])
    && h.nodes == g.nodes[from := Dir(g.nodes[from].slots[kf := EMPTY_SLOT])][to := h.nodes[to]]
    && h.place == g.place[x := Place(to, kt)]
  }

  /** Ranks for the moved tree: the moved part is lifted above its new parent. */
  ghost function MovedRank(g: State, x: nat, to: nat): map<nat, nat>
    requires Tree(g) && to in g.nodes
  {
    map n | n in g.rank :: if Under(g, x, n) then g.rank[n] + g.rank[to] + 1 else g.rank[n]
  }

  lemma MoveRanks(g: State, h: State, x: nat, from: nat, kf: nat, to: nat, kt: nat)
    requires Tree(g) && Moved(g, h, x, from, kf, to, kt) && !Under(g, x, to) && h.rank == MovedRank(g, x, to)
    ensures RanksOk(h)
  {
    hide PlacesOk, SlotsOk;
    forall i | i in h.place ensures i in h.rank && h.place[i].dir in h.rank && h.rank[h.place[i].dir] < h.rank[i] {
      if i != x {
        assert i in g.place && Under(g, x, i) == Under(g, x, g.place[i].dir);
      } else {
        assert x in g.nodes by { MovedPlaced(g, h, x, from, kf, to, kt); }
      }
    }
  }

  lemma MovedPlaced(g: State, h: State, x: nat, from: nat, kf: nat, to: nat, kt: nat)
    requires Tree(g) && Moved(g, h, x, from, kf, to, kt)
    ensures x in g.place && g.place[x] == Place(from, kf) && x in g.nodes
  {
    assert IsSlot(g.nodes, from, kf);
  }

  lemma MoveSlots(g: State, h: State, x: nat, from: nat, kf: nat, to: nat, kt: nat)
    requires Tree(g) && Moved(g, h, x, from, kf, to, kt)
    ensures PlacesOk(h) && SlotsOk(h)
  {
    MovedPlaced(g, h, x, from, kf, to, kt);
    forall i | i in h.place ensures NamedAt(h.nodes, h.place[i], i) {
      if i != x { assert NamedAt(g.nodes, g.place[i], i); }
    }
    forall d, j: nat | IsSlot(h.nodes, d, j)
      ensures var i := h.nodes[d].slots[j].ino; i != 0 ==> i in h.place && h.place[i] == Place(d, j)
    {
      if d != to || j < |g.nodes[to].slots| { assert IsSlot(g.nodes, d, j); }
    }
  }

  lemma MoveNames(g: State, h: State, x: nat, from: nat, kf: nat, to: nat, kt: nat)
    requires Names(g) && Moved(g, h, x, from, kf, to, kt) && !Under(g, x, to) && h.rank == MovedRank(g, x, to)
    requires Lookup(g.nodes[to].slots, g.nodes[from].slots[kf].name).None?
    ensures Names(h)
  {
    hide PlacesOk, SlotsOk, RanksOk, Under, Placed;
    MoveRanks(g, h, x, from, kf, to, kt);
    MoveSlots(g, h, x, from, kf, to, kt);
    MovedPlaced(g, h, x, from, kf, to, kt);
    assert h.nodes.Keys == g.nodes.Keys && h.place.Keys == g.place.Keys;
    forall d | d in h.nodes && h.nodes[d].Dir? ensures UniqueNames(h.nodes[d].slots) {
      assert d in g.nodes && g.nodes[d].Dir?;
      if d == to { PlacedUnique(g.nodes[to].slots, h.nodes[to].slots, kt, g.nodes[from].slots[kf]); }
    }
  }

  /** A rank function on the moved tree puts everything below `x` above `x`. */
  lemma {:induction false} BelowRank(g: State, h: State, x: nat, n: nat)
    requires Tree(g) && n in g.nodes && Under(g, x, n) && RanksOk(h) && h.rank.Keys == g.nodes.Keys
    requires forall i :: i in g.place && i != x ==> i in h.place && h.place[i] == g.place[i]
    ensures x in h.rank && h.rank[x] <= h.rank[n]
    decreases g.rank[n]
  {
    if n != x {
      assert NamedAt(g.nodes, g.place[n], n);
      BelowRank(g, h, x, g.place[n].dir);
    }
  }

  lemma RankOfPlace(h: State, x: nat)
    requires RanksOk(h) && x in h.place
    ensures x in h.rank && h.place[x].dir in h.rank && h.rank[h.place[x].dir] < h.rank[x]
  {
  }

  /** Some choice of parents and ranks makes the stored directories a tree. */
  ghost predicate Treelike(g: State) {
    exists p, r :: Tree(g.(place := p, rank := r))
  }

  /** The slots determine where every inode is named. */
  lemma PlaceUnique(h: State, p: map<nat, Place>, r: map<nat, nat>)
    requires PlacesOk(h) && Tree(h.(place := p, rank := r)) && h.place.Keys == h.nodes.Keys - {ROOT}
    ensures p == h.place
  {
    hide RanksOk;
    forall i | i in h.place ensures p[i] == h.place[i] {
      assert NamedAt(h.nodes, h.place[i], i);
      assert IsSlot(h.nodes, h.place[i].dir, h.place[i].slot);
    }
  }

  lemma MovedKeys(g: State, h: State, x: nat, from: nat, kf: nat, to: nat, kt: nat)
    requires Tree(g) && Moved(g, h, x, from, kf, to, kt)
    ensures h.nodes.Keys == g.nodes.Keys && h.place.Keys == g.place.Keys
  {
    hide PlacesOk, SlotsOk, RanksOk, Placed;
    MovedPlaced(g, h, x, from, kf, to, kt);
  }

  lemma CycleNoTree(g: State, h: State, x: nat, from: nat, kf: nat, to: nat, kt: nat, r: map<nat, nat>)
    requires Tree(g) && Moved(g, h, x, from, kf, to, kt) && Under(g, x, to)
    ensures !Tree(h.(rank := r))
  {
    hide PlacesOk, SlotsOk, RanksOk, Under, Placed;
    var h' := h.(rank := r);
    MovedPlaced(g, h, x, from, kf, to, kt);
    MovedKeys(g, h, x, from, kf, to, kt);
    if Tree(h') {
      BelowRank(g, h', x, to);
      RankOfPlace(h', x);
      assert false;
    }
  }

  /** The missing cycle check, exactly: after a move the stored directories form a tree if and
      only if the destination was not the moved entry or below it. */
  lemma MoveIsTreeIff(g: State, h: State, x: nat, from: nat, kf: nat, to: nat, kt: nat)
    requires Tree(g) && Moved(g, h, x, from, kf, to, kt)
    ensures Treelike(h) <==> !Under(g, x, to)
  {
    hide PlacesOk, SlotsOk, RanksOk, Under, Placed;
    MovedPlaced(g, h, x, from, kf, to, kt);
    MovedKeys(g, h, x, from, kf, to, kt);
    MoveSlots(g, h, x, from, kf, to, kt);
    if Under(g, x, to) {
      forall p, r ensures !Tree(h.(place := p, rank := r)) {
        if Tree(h.(place := p, rank := r)) {
          PlaceUnique(h, p, r);
          CycleNoTree(g, h, x, from, kf, to, kt, r);
          assert false;
        }
      }
    } else {
      var h' := h.(rank := MovedRank(g, x, to));
      MoveRanks(g, h', x, from, kf, to, kt);
      MoveSlots(g, h', x, from, kf, to, kt);
      assert Tree(h.(place := h.place, rank := h'.rank));
    }
  }
}
