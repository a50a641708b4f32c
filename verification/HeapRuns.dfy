/** Whole runs of the heap: any client, any order of calls. */
module HeapRuns {
  import opened BootMap
  import opened Heap

  /** What a client may do: allocate, give back or write into the `i`-th allocation it holds. */
  datatype Call = New(l: Layout) | Drop(i: nat) | Store(i: nat, off: nat, bytes: seq<Byte>)

  /** A layout is legal if its size is not zero and its alignment a power of two up to a page. */
  ghost predicate Legal(c: Call) {
    c.New? ==> c.l.size > 0 && PowerOfTwo(c.l.align) && c.l.align <= PAGE
  }

  /** An allocation as its owner knows it: where it is, and what they last stored at which offset. */
  datatype Held = Held(ptr: nat, l: Layout, wrote: Memory)

  /** What a client knows after one more call, given the pointer it got back. */
  function After(held: seq<Held>, call: Call, answer: nat): seq<Held> {
    match call
    case New(l) => if answer != 0 then held + [Held(answer, l, map[])] else held
    case Drop(i) => if i < |held| then held[..i] + held[i + 1..] else held
    case Store(i, off, bytes) =>
      if i < |held| && off + |bytes| <= held[i].l.size
      then held[i := held[i].(wrote := Put(held[i].wrote, off, bytes))] else held
  }

  /** What a client knows after the first calls, from nothing but the pointers it got back. */
  function Replay(calls: seq<Call>, answers: seq<nat>): seq<Held>
    requires |answers| <= |calls|
    decreases |answers|
  {
    if answers == [] then []
    else
      var n := |answers| - 1;
      After(Replay(calls, answers[..n]), calls[n], answers[n])
  }

  ghost predicate Owns(live: map<nat, Layout>, held: seq<Held>) {
    && (forall i :: 0 <= i < |held| ==> held[i].ptr in live && live[held[i].ptr] == held[i].l)
    && (forall i :: 0 <= i < |held| ==> PowerOfTwo(held[i].l.align) && held[i].l.align <= PAGE && held[i].l.size > 0)
    && (forall i, j :: 0 <= i < j < |held| ==> held[i].ptr != held[j].ptr)
  }

  /** Whatever the owner stored in `x` is what memory holds there. */
  ghost predicate Reads(mem: Memory, x: Held) {
    forall j :: j in x.wrote ==> j < x.l.size && ByteAt(mem, x.ptr + j) == x.wrote[j]
  }

  ghost predicate AllRead(mem: Memory, held: seq<Held>) {
    forall i :: 0 <= i < |held| ==> Reads(mem, held[i])
  }

  /** Two allocations share no byte. */
  ghost predicate Apart(x: Held, y: Held) {
    x.ptr + x.l.size <= y.ptr || y.ptr + y.l.size <= x.ptr
  }

  ghost predicate Aligned(x: Held) { x.ptr != 0 && x.l.align > 0 && x.ptr % x.l.align == 0 }

  lemma OwnedApart(heap: SlabHeap, held: seq<Held>, i: nat, j: nat)
    requires heap.Valid() && Owns(heap.s.live, held) && i < j < |held|
    ensures Apart(held[i], held[j])
  {
    hide Inv, Complete, Reserved, PowerOfTwo;
    LiveDisjoint(heap.s, heap.mem, heap.heads, held[i].ptr, held[j].ptr);
    LiveFits(heap.s, heap.mem, heap.heads, held[i].ptr);
    LiveFits(heap.s, heap.mem, heap.heads, held[j].ptr);
  }

  lemma OwnedAligned(heap: SlabHeap, held: seq<Held>, i: nat)
    requires heap.Valid() && Owns(heap.s.live, held) && i < |held|
    ensures Aligned(held[i])
  {
    hide Inv, Complete, Reserved, PowerOfTwo;
    LiveFits(heap.s, heap.mem, heap.heads, held[i].ptr);
  }

  /** What the heap does on its own changes nothing its clients have stored. */
  lemma StillRead(s: State, mem: Memory, heads: seq<nat>, t: State, m: Memory, held: seq<Held>)
    requires Inv(s, mem, heads) && Owns(s.live, held) && AllRead(mem, held)
    requires Intact(t, mem, m)
    requires forall i :: 0 <= i < |held| ==> held[i].ptr in t.live && t.live[held[i].ptr] == held[i].l
    ensures AllRead(m, held)
  {
    hide Inv, PowerOfTwo, Reserved;
    forall i | 0 <= i < |held| ensures Reads(m, held[i]) {
      LiveFits(s, mem, heads, held[i].ptr);
      SameRoom(s, t, held[i].ptr);
      assert Reads(mem, held[i]);
    }
  }

  lemma SameRoom(s: State, t: State, a: nat)
    requires a in s.live && a in t.live && s.live[a] == t.live[a]
    ensures Reserved(t, a) == Reserved(s, a)
  {
  }

  method NewOne(heap: SlabHeap, ghost held: seq<Held>, l: Layout) returns (ptr: nat)
    requires heap.Valid() && Owns(heap.s.live, held) && AllRead(heap.mem, held) && Legal(New(l))
    modifies heap`heads, heap`mem, heap`s, heap.pmm`free, heap.pmm.bits
    ensures heap.Valid() && var rest := After(held, New(l), ptr); Owns(heap.s.live, rest) && AllRead(heap.mem, rest)
  {
    hide Inv, Complete, PowerOfTwo, Intact, TookRun, ListEmpty, PagesFor, Exhausted, Holds;
    hide Owns, AllRead;
    ghost var s, mem, heads := heap.s, heap.mem, heap.heads;
    HeldIn(s.live, held);
    ptr := heap.Alloc(l);
    StillRead(s, mem, heads, s, heap.mem, held);
    if ptr != 0 { NewHeld(s.live, heap.mem, held, l, ptr); }
  }

  lemma HeldIn(live: map<nat, Layout>, held: seq<Held>)
    requires Owns(live, held)
    ensures forall i :: 0 <= i < |held| ==> held[i].ptr in live && live[held[i].ptr] == held[i].l
  {
  }

  lemma NewHeld(live: map<nat, Layout>, mem: Memory, held: seq<Held>, l: Layout, ptr: nat)
    requires Owns(live, held) && AllRead(mem, held) && ptr !in live && Legal(New(l))
    ensures var rest := held + [Held(ptr, l, map[])]; Owns(live[ptr := l], rest) && AllRead(mem, rest)
  {
    hide PowerOfTwo;
  }

  method DropOne(heap: SlabHeap, held: seq<Held>, i: nat)
    requires heap.Valid() && Owns(heap.s.live, held) && AllRead(heap.mem, held) && i < |held|
    modifies heap`heads, heap`mem, heap`s, heap.pmm`free, heap.pmm.bits
    ensures heap.Valid() && var rest := After(held, Drop(i), 0); Owns(heap.s.live, rest) && AllRead(heap.mem, rest)
  {
    hide Inv, Complete, PowerOfTwo, Intact, GaveRun, PagesFor, Holds;
    ghost var s, mem, heads, rest := heap.s, heap.mem, heap.heads, held[..i] + held[i + 1..];
    OwnedAligned(heap, held, i);
    heap.Dealloc(held[i].ptr, held[i].l);
    RestRead(mem, held, i);
    StillRead(s, mem, heads, heap.s, heap.mem, rest);
  }

  lemma RestRead(mem: Memory, held: seq<Held>, i: nat)
    requires AllRead(mem, held) && i < |held|
    ensures AllRead(mem, held[..i] + held[i + 1..])
  {
    hide Reads;
  }

  method StoreOne(heap: SlabHeap, held: seq<Held>, i: nat, off: nat, bytes: seq<Byte>)
    requires heap.Valid() && Owns(heap.s.live, held) && AllRead(heap.mem, held) && i < |held|
    requires off + |bytes| <= held[i].l.size
    modifies heap`mem
    ensures heap.Valid()
    ensures var rest := After(held, Store(i, off, bytes), 0); Owns(heap.s.live, rest) && AllRead(heap.mem, rest)
  {
    hide Inv, Complete, Reserved, PowerOfTwo;
    ghost var mem := heap.mem;
    LiveFits(heap.s, heap.mem, heap.heads, held[i].ptr);
    heap.ClientWrite(held[i].ptr, held[i].ptr + off, bytes);
    ghost var rest := After(held, Store(i, off, bytes), 0);
    forall k | 0 <= k < |held| ensures Reads(heap.mem, rest[k]) {
      assert Reads(mem, held[k]);
      LiveFits(heap.s, heap.mem, heap.heads, held[k].ptr);
      if k == i { PutReads(mem, held[i], off, bytes); }
    }
  }

  /** The owner's own store, as they see it and as memory does. */
  lemma PutReads(mem: Memory, x: Held, off: nat, bytes: seq<Byte>)
    requires Reads(mem, x) && off + |bytes| <= x.l.size
    ensures Reads(Put(mem, x.ptr + off, bytes), x.(wrote := Put(x.wrote, off, bytes)))
  {
    hide Put, ByteAt;
    var after := Put(x.wrote, off, bytes);
    forall j | j in after ensures j < x.l.size && ByteAt(Put(mem, x.ptr + off, bytes), x.ptr + j) == after[j] {
      PutReadsAt(mem, x, off, bytes, j);
    }
  }

  lemma PutReadsAt(mem: Memory, x: Held, off: nat, bytes: seq<Byte>, j: nat)
    requires Reads(mem, x) && off + |bytes| <= x.l.size && j in Put(x.wrote, off, bytes)
    ensures j < x.l.size && ByteAt(Put(mem, x.ptr + off, bytes), x.ptr + j) == Put(x.wrote, off, bytes)[j]
  {
    hide Put;
    PutKeys(x.wrote, off, bytes, j);
    PutByte(x.wrote, off, bytes, j);
    PutByte(mem, x.ptr + off, bytes, x.ptr + j);
    if !(off <= j < off + |bytes|) { assert j in x.wrote; }
  }

  lemma {:induction false} PutKeys(mem: Memory, w: nat, bytes: seq<Byte>, i: nat)
    ensures i in Put(mem, w, bytes) <==> i in mem || w <= i < w + |bytes|
    decreases |bytes|
  {
    if bytes != [] { PutKeys(mem[w := bytes[0]], w + 1, bytes[1..], i); }
  }

  /** After any run the allocations still held are pairwise apart, aligned and not null, and every byte of them that
      the client has stored reads as it last stored it, in whatever order others were made, written and given back. */
  method Session(heap: SlabHeap, calls: seq<Call>) returns (held: seq<Held>, answers: seq<nat>)
    requires heap.Valid() && forall i :: 0 <= i < |calls| ==> Legal(calls[i])
    modifies heap`heads, heap`mem, heap`s, heap.pmm`free, heap.pmm.bits
    ensures heap.Valid() && |answers| == |calls| && held == Replay(calls, answers)
    ensures forall i, j :: 0 <= i < j < |held| ==> Apart(held[i], held[j])
    ensures forall i :: 0 <= i < |held| ==> Aligned(held[i]) && Reads(heap.mem, held[i])
  {
    hide Inv, Complete, PowerOfTwo, Apart, Aligned, Reads, After;
    held, answers := [], [];
    for n := 0 to |calls|
      invariant heap.Valid() && |answers| == n && held == Replay(calls, answers)
      invariant Owns(heap.s.live, held) && AllRead(heap.mem, held)
    {
      assert Legal(calls[n]);
      var answer := ServeOne(heap, held, calls[n]);
      held := After(held, calls[n], answer);
      assert (answers + [answer])[..n] == answers;
      answers := answers + [answer];
    }
    forall i, j | 0 <= i < j < |held| ensures Apart(held[i], held[j]) { OwnedApart(heap, held, i, j); }
    forall i | 0 <= i < |held| ensures Aligned(held[i]) { OwnedAligned(heap, held, i); }
  }

  /** One call of a client that holds `held`. */
  method ServeOne(heap: SlabHeap, held: seq<Held>, call: Call) returns (answer: nat)
    requires heap.Valid() && Owns(heap.s.live, held) && AllRead(heap.mem, held) && Legal(call)
    modifies heap`heads, heap`mem, heap`s, heap.pmm`free, heap.pmm.bits
    ensures heap.Valid() && var rest := After(held, call, answer); Owns(heap.s.live, rest) && AllRead(heap.mem, rest)
  {
    hide Inv, Complete, PowerOfTwo, Reads, Owns, AllRead;
    answer := 0;
    match call
    case New(l) => answer := NewOne(heap, held, l);
    case Drop(i) => if i < |held| { DropOne(heap, held, i); }
    case Store(i, off, bytes) =>
      if i < |held| && off + |bytes| <= held[i].l.size { StoreOne(heap, held, i, off, bytes); }
  }
}
