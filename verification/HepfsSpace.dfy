/** What is free is what the disk has room for less what the inodes own, so whether a call finds room is
    a question about names, bytes and blocks owned. */
module HepfsSpace {
  import opened BitCount
  import opened HepfsLayout
  import opened HepfsTypes
  import opened HepfsStore
  import opened HepfsState

  /** Data blocks of a disk of `disk` blocks that the bitmap covers. */
  function Capacity(disk: nat): int { Min(BLOCK_BM_LEN * BITS_PER_BLOCK, disk) - DATA_START }

  ghost function Free(disk: nat, g: State): int { Capacity(disk) - |g.owner.Keys| }

  /** No block is lost and none is counted twice; nor is any inode number. */
  lemma FreeIs(v: View, g: State)
    requires Core(v, g)
    ensures FreeBlocks(v) == Free(|v.data|, g)
    ensures |v.ibits| >= MAX_INODES && FreeInodes(v) == MAX_INODES - |g.nodes.Keys|
  {
    hide InodeOk;
    ClearCount(v.bbits, DATA_START, Min(|v.bbits|, |v.data|), g.owner.Keys);
    ClearCount(v.ibits, 0, MAX_INODES, g.nodes.Keys);
  }
}
