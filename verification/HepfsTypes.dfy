/** The abstract side of HepFS: what an inode is to a caller (`Node`), how its
    blocks are laid out (`Lay`), and which inode owns which block (`Own`). */
module HepfsTypes {
  import opened HepfsLayout

  datatype Option<+T> = None | Some(value: T)

  /** What a live inode holds: the bytes of a file, or the slots of a directory. */
  datatype Node = File(bytes: seq<Byte>) | Dir(slots: seq<Slot>)

  /** The blocks of one inode: data blocks in file order, the single-indirect table,
      the double-indirect table and its level-1 tables.  0 stands for "none". */
  datatype Lay = Lay(blks: seq<nat>, ind: nat, dind: nat, l1: seq<nat>)

  const EMPTY_LAY := Lay([], 0, 0, [])

  datatype Role = Data(i: nat) | Indirect | DIndirect | Level1(j: nat)

  datatype Own = Own(ino: nat, role: Role)

  /** The one directory slot that names an inode. */
  datatype Place = Place(dir: nat, slot: nat)

  datatype State = State(owner: map<nat, Own>, lays: map<nat, Lay>, nodes: map<nat, Node>,
                         place: map<nat, Place>, rank: map<nat, nat>)
}
