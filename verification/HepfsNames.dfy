/** The name space of HepFS: every live inode except the root is named by exactly
    one directory slot, names are unique within a directory, and following parents
    upwards always reaches the root (a rank that grows from parent to child). */
module HepfsNames {
  import opened HepfsLayout
  import opened HepfsTypes
  import opened HepfsStore
  import opened HepfsState

  const ROOT: nat := 0

  ghost predicate IsSlot(nodes: map<nat, Node>, d: nat, j: nat) {
    d in nodes && nodes[d].Dir? && j < |nodes[d].slots|
  }

  ghost predicate NamedAt(nodes: map<nat, Node>, p: Place, i: nat) {
    IsSlot(nodes, p.dir, p.slot) && nodes[p.dir].slots[p.slot].ino == i
  }

  ghost predicate UniqueNames(slots: seq<Slot>) {
    forall a, b :: 0 <= a < b < |slots| && slots[a].ino != 0 && slots[b].ino != 0 ==> slots[a].name != slots[b].name
  }

  /** Every inode but the root sits where its place says. */
  ghost predicate PlacesOk(g: State) {
    forall i :: i in g.place ==> NamedAt(g.nodes, g.place[i], i)
  }

  /** Every used slot is the place of the inode it names: no inode has two names. */
  ghost predicate SlotsOk(g: State) {
    forall d, j: nat :: IsSlot(g.nodes, d, j) ==> var i := g.nodes[d].slots[j].ino;
      i != 0 ==> i in g.place && g.place[i] == Place(d, j)
  }

  ghost predicate RanksOk(g: State) {
    forall i :: i in g.place ==> i in g.rank && g.place[i].dir in g.rank && g.rank[g.place[i].dir] < g.rank[i]
  }

  ghost predicate Tree(g: State) {
    && ROOT in g.nodes && g.nodes[ROOT].Dir?
    && g.place.Keys == g.nodes.Keys - {ROOT} && g.rank.Keys == g.nodes.Keys
    && PlacesOk(g) && SlotsOk(g) && RanksOk(g)
  }

  ghost predicate Names(g: State) {
    && Tree(g)
    && forall d :: d in g.nodes && g.nodes[d].Dir? ==> UniqueNames(g.nodes[d].slots)
  }

  /** The whole invariant of a mounted volume. */
  ghost predicate Good(vol: Volume)
    reads vol
  {
    vol.Valid() && Core(vol.v, vol.g) && Names(vol.g)
  }

  /** Changing what a file holds does not touch the name space. */
  lemma NamesFile(g: State, h: State, ino: nat, bytes: seq<Byte>)
    requires Names(g) && ino in g.nodes && g.nodes[ino].File?
    requires h.nodes == g.nodes[ino := File(bytes)] && h.place == g.place && h.rank == g.rank
    ensures Names(h)
  {
    assert h.nodes.Keys == g.nodes.Keys;
    forall i | i in h.place ensures NamedAt(h.nodes, h.place[i], i) {
      assert NamedAt(g.nodes, g.place[i], i);
    }
    forall d, j: nat | IsSlot(h.nodes, d, j)
      ensures var i := h.nodes[d].slots[j].ino; i != 0 ==> i in h.place && h.place[i] == Place(d, j)
    {
      assert IsSlot(g.nodes, d, j);
    }
  }
}
