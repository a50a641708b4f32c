/** The slab allocator: ten size classes whose free lists are threaded through the
    free chunks themselves, and contiguous pages for anything larger than a page. */
module Heap {
  import opened BootMap
  import opened Pmm

  const NUM_CLASSES: nat := 10
  const WORD: nat := 8

  type Byte = x: nat | x < 256

  datatype Layout = Layout(size: nat, align: nat)

  /** Chunk size of class `c`: 8, 16, .., 4096. */
  function SizeOf(c: nat): (s: nat)
    requires c < NUM_CLASSES
    ensures WORD <= s <= PAGE
  {
    if c == 0 then 8 else if c == 1 then 16 else if c == 2 then 32 else if c == 3 then 64 else if c == 4 then 128
    else if c == 5 then 256 else if c == 6 then 512 else if c == 7 then 1024 else if c == 8 then 2048 else 4096
  }

  /** Chunks in a page of class `c`. */
  function Count(c: nat): (n: nat)
    requires c < NUM_CLASSES
    ensures n >= 1 && SizeOf(c) * n == PAGE
  {
    if c == 0 then 512 else if c == 1 then 256 else if c == 2 then 128 else if c == 3 then 64 else if c == 4 then 32
    else if c == 5 then 16 else if c == 6 then 8 else if c == 7 then 4 else if c == 8 then 2 else 1
  }

  function Max(a: nat, b: nat): nat { if a < b then b else a }

  predicate PowerOfTwo(n: nat)
    decreases n
  {
    n == 1 || (n > 1 && n % 2 == 0 && PowerOfTwo(n / 2))
  }

  /** Smallest class that covers size and alignment; `NUM_CLASSES` if there is none. */
  function ClassFor(l: Layout): (c: nat)
    ensures c <= NUM_CLASSES
    ensures c < NUM_CLASSES ==> SizeOf(c) >= l.size && SizeOf(c) >= l.align && SizeOf(c) >= WORD
    ensures forall d :: 0 <= d < c ==> SizeOf(d) < Max(Max(l.size, l.align), WORD)
    ensures c < NUM_CLASSES ==> SizeOf(c) < 2 * l.size || SizeOf(c) < 2 * l.align || SizeOf(c) == WORD
    ensures c == NUM_CLASSES <==> l.size > PAGE || l.align > PAGE
  {
    var m := Max(Max(l.size, l.align), WORD);
    if m <= 8 then 0 else if m <= 16 then 1 else if m <= 32 then 2 else if m <= 64 then 3 else if m <= 128 then 4
    else if m <= 256 then 5 else if m <= 512 then 6 else if m <= 1024 then 7 else if m <= 2048 then 8
    else if m <= 4096 then 9 else 10
  }

  function PagesFor(bytes: nat): (n: nat)
    ensures n * PAGE >= bytes && (bytes > 0 ==> n * PAGE < bytes + PAGE && n >= 1)
  {
    (bytes + PAGE - 1) / PAGE
  }

  /** A power-of-two alignment up to a page divides every class size that is not smaller. */
  lemma AlignDivides(align: nat, c: nat)
    requires PowerOfTwo(align) && c < NUM_CLASSES && align <= SizeOf(c)
    ensures align > 0 && SizeOf(c) % align == 0 && PAGE % align == 0
  {
    hide SizeOf;
    ClassPower(c);
    PowersDivide(align, SizeOf(c));
    ClassPower(9);
    PowersDivide(align, PAGE);
  }

  lemma ClassPower(c: nat)
    requires c < NUM_CLASSES
    ensures PowerOfTwo(SizeOf(c)) && SizeOf(9) == PAGE
  {
    Doubled(8);
    Doubled(16);
    Doubled(32);
    Doubled(64);
    Doubled(128);
    Doubled(256);
    Doubled(512);
    Doubled(1024);
    Doubled(2048);
  }

  lemma Doubled(n: nat)
    ensures PowerOfTwo(n) ==> PowerOfTwo(2 * n)
  {
  }

  lemma {:induction false} PowersDivide(n: nat, m: nat)
    requires PowerOfTwo(n) && PowerOfTwo(m) && n <= m
    ensures n > 0 && m % n == 0
    decreases n
  {
    if n > 1 {
      PowersDivide(n / 2, m / 2);
      var k := (m / 2) / (n / 2);
      assert m / 2 == n / 2 * k;
      assert m == n * k;
      MultipleMod(n, k);
    }
  }

  // ---- the heap's own view of memory ------------------------------------------------

  /** What the heap uses a physical page for. */
  datatype Use = Slab(cls: nat) | Large(base: nat)

  datatype Status = Free(pos: nat) | Live

  /** A chunk: the `k`-th of slab page `page`. */
  datatype Chunk = Chunk(page: nat, k: nat, st: Status)

  /** `stacks[c]` is the free list of class `c` from its last chunk to its head. */
  datatype State = State(hhdm: nat, pages: map<nat, Use>, chunks: map<nat, Chunk>, large: map<nat, nat>,
                         stacks: seq<seq<nat>>, live: map<nat, Layout>)

  /** Memory, byte by byte; bytes nobody has written read as zero. */
  type Memory = map<nat, Byte>

  function ByteAt(mem: Memory, a: nat): Byte { if a in mem then mem[a] else 0 }

  /** Addresses end here. */
  const TOP: nat := 0x1_0000_0000_0000_0000

  function Pow256(n: nat): (r: nat) { if n == 0 then 1 else 256 * Pow256(n - 1) }

  /** `n` bytes from `a`, least significant first. */
  function Load(mem: Memory, a: nat, n: nat): nat
    decreases n
  {
    if n == 0 then 0 else ByteAt(mem, a) + 256 * Load(mem, a + 1, n - 1)
  }

  function Save(mem: Memory, a: nat, x: nat, n: nat): Memory
    decreases n
  {
    if n == 0 then mem else Save(mem[a := x % 256], a + 1, x / 256, n - 1)
  }

  /** The pointer stored at `a`. */
  function Word(mem: Memory, a: nat): nat { Load(mem, a, WORD) }

  function SetWord(mem: Memory, a: nat, x: nat): Memory { Save(mem, a, x, WORD) }

  /** Memory with `bytes` from `w` on. */
  function Put(mem: Memory, w: nat, bytes: seq<Byte>): Memory
    decreases |bytes|
  {
    if bytes == [] then mem else Put(mem[w := bytes[0]], w + 1, bytes[1..])
  }

  lemma {:induction false} PutByte(mem: Memory, w: nat, bytes: seq<Byte>, i: nat)
    ensures ByteAt(Put(mem, w, bytes), i) == if w <= i < w + |bytes| then bytes[i - w] else ByteAt(mem, i)
    decreases |bytes|
  {
    if bytes != [] { PutByte(mem[w := bytes[0]], w + 1, bytes[1..], i); }
  }

  lemma {:induction false} LoadSame(m: Memory, m': Memory, a: nat, n: nat)
    requires forall i :: a <= i < a + n ==> ByteAt(m', i) == ByteAt(m, i)
    ensures Load(m', a, n) == Load(m, a, n)
    decreases n
  {
    if n > 0 { LoadSame(m, m', a + 1, n - 1); }
  }

  lemma {:induction false} SaveFrame(mem: Memory, a: nat, x: nat, n: nat, i: nat)
    requires i < a || i >= a + n
    ensures ByteAt(Save(mem, a, x, n), i) == ByteAt(mem, i)
    decreases n
  {
    if n > 0 { SaveFrame(mem[a := x % 256], a + 1, x / 256, n - 1, i); }
  }

  /** What is saved is what is loaded. */
  lemma {:induction false} SaveLoad(mem: Memory, a: nat, x: nat, n: nat)
    requires x < Pow256(n)
    ensures Load(Save(mem, a, x, n), a, n) == x
    decreases n
  {
    if n > 0 {
      SaveLoad(mem[a := x % 256], a + 1, x / 256, n - 1);
      SaveFrame(mem[a := x % 256], a + 1, x / 256, n - 1, a);
    }
  }

  lemma WordSet(mem: Memory, a: nat, x: nat)
    requires x < TOP
    ensures Word(SetWord(mem, a, x), a) == x
  {
    assert Pow256(8) == TOP by {
      assert Pow256(2) == 0x1_0000;
      assert Pow256(4) == 0x1_0000_0000;
      assert Pow256(6) == 0x1_0000_0000_0000;
    }
    SaveLoad(mem, a, x, WORD);
  }

  lemma WordFrame(mem: Memory, a: nat, x: nat, b: nat)
    requires Disjoint(a, WORD, b, WORD)
    ensures Word(SetWord(mem, a, x), b) == Word(mem, b)
  {
    hide Load, Save;
    forall i | b <= i < b + WORD
      ensures ByteAt(SetWord(mem, a, x), i) == ByteAt(mem, i)
    {
      SaveFrame(mem, a, x, WORD, i);
    }
    LoadSame(mem, SetWord(mem, a, x), b, WORD);
  }

  lemma PutFrame(mem: Memory, w: nat, bytes: seq<Byte>, b: nat)
    requires Disjoint(w, |bytes|, b, WORD)
    ensures Word(Put(mem, w, bytes), b) == Word(mem, b)
  {
    hide Load, Put;
    forall i | b <= i < b + WORD ensures ByteAt(Put(mem, w, bytes), i) == ByteAt(mem, i) { PutByte(mem, w, bytes, i); }
    LoadSame(mem, Put(mem, w, bytes), b, WORD);
  }

  ghost function PageAddr(s: State, p: nat): nat { s.hhdm + PAGE * p }

  /** Offset of chunk `k` in a page of class `c`. */
  function Offset(c: nat, k: nat): (o: nat)
    requires c < NUM_CLASSES
  {
    SizeOf(c) * k
  }

  ghost function ChunkAddr(s: State, p: nat, c: nat, k: nat): nat
    requires c < NUM_CLASSES
  {
    PageAddr(s, p) + Offset(c, k)
  }

  ghost predicate IsSlab(s: State, p: nat, c: nat) {
    p in s.pages && s.pages[p] == Slab(c) && c < NUM_CLASSES
  }

  ghost function ClassOf(s: State, a: nat): nat
    requires a in s.chunks && s.chunks[a].page in s.pages && s.pages[s.chunks[a].page].Slab?
  {
    s.pages[s.chunks[a].page].cls
  }

  ghost predicate ChunkOk(s: State, a: nat)
    requires a in s.chunks && |s.stacks| == NUM_CLASSES
  {
    var ch := s.chunks[a];
    && ch.page in s.pages && s.pages[ch.page].Slab? && ClassOf(s, a) < NUM_CLASSES
    && ch.k < Count(ClassOf(s, a)) && a == ChunkAddr(s, ch.page, ClassOf(s, a), ch.k) && a < TOP
    && (ch.st.Free? ==> ch.st.pos < |s.stacks[ClassOf(s, a)]| && s.stacks[ClassOf(s, a)][ch.st.pos] == a)
    && (ch.st.Live? ==> a in s.live && s.live[a].size <= PAGE && ClassFor(s.live[a]) == ClassOf(s, a))
  }

  ghost predicate ChunksOk(s: State)
    requires |s.stacks| == NUM_CLASSES
  {
    forall a :: a in s.chunks ==> ChunkOk(s, a)
  }

  /** No chunk of a slab page is forgotten. */
  ghost predicate Complete(s: State) {
    forall p, c, k :: IsSlab(s, p, c) && 0 <= k < Count(c) ==> ChunkAddr(s, p, c, k) in s.chunks
  }

  ghost predicate OnStack(s: State, c: nat, i: nat)
    requires |s.stacks| == NUM_CLASSES && c < NUM_CLASSES && i < |s.stacks[c]|
  {
    var a := s.stacks[c][i];
    a in s.chunks && s.chunks[a].st == Free(i) && IsSlab(s, s.chunks[a].page, c)
  }

  ghost predicate StacksOk(s: State) {
    && |s.stacks| == NUM_CLASSES
    && forall c, i :: 0 <= c < NUM_CLASSES && 0 <= i < |s.stacks[c]| ==> OnStack(s, c, i)
  }

  /** The next-pointer stored in each free chunk is the chunk below it. */
  ghost predicate LinksOk(s: State, mem: Memory, heads: seq<nat>) {
    && |s.stacks| == NUM_CLASSES && |heads| == NUM_CLASSES
    && forall c :: 0 <= c < NUM_CLASSES ==> Chain(s.stacks[c], mem, heads[c])
  }

  ghost predicate Chain(stack: seq<nat>, mem: Memory, head: nat) {
    && head == (if stack == [] then 0 else stack[|stack| - 1])
    && forall i :: 0 <= i < |stack| ==> Word(mem, stack[i]) == Below(stack, i)
  }

  ghost function Below(stack: seq<nat>, i: nat): nat
    requires i < |stack|
  {
    if i == 0 then 0 else stack[i - 1]
  }

  ghost predicate LargeLive(s: State, b: nat)
    requires b in s.large
  {
    var a := PageAddr(s, b);
    a in s.live && s.live[a].size > PAGE && PagesFor(s.live[a].size) == s.large[b]
  }

  ghost predicate InLarge(s: State, q: nat, b: nat) {
    b in s.large && b <= q < b + s.large[b]
  }

  ghost predicate LargeOk(s: State) {
    && (forall b :: b in s.large ==> s.large[b] >= 1 && LargeLive(s, b))
    && (forall b, q :: b in s.large && b <= q < b + s.large[b] ==> q in s.pages && s.pages[q] == Large(b))
    && (forall q :: q in s.pages && s.pages[q].Large? ==> InLarge(s, q, s.pages[q].base))
  }

  ghost predicate LiveOk(s: State) {
    forall a :: a in s.live ==>
      if s.live[a].size <= PAGE then a in s.chunks && s.chunks[a].st.Live?
      else exists b :: b in s.large && a == PageAddr(s, b)
  }

  ghost predicate Inv(s: State, mem: Memory, heads: seq<nat>) {
    && s.hhdm > 0 && s.hhdm % PAGE == 0
    && StacksOk(s) && ChunksOk(s) && LinksOk(s, mem, heads) && LargeOk(s) && LiveOk(s)
  }

  // ---- chunks do not overlap -----------------------------------------------------------

  lemma InPage(c: nat, k: nat)
    requires c < NUM_CLASSES && k < Count(c)
    ensures Offset(c, k) + SizeOf(c) <= PAGE
  {
    assert SizeOf(c) * k + SizeOf(c) == SizeOf(c) * (k + 1);
    assert SizeOf(c) * (k + 1) <= SizeOf(c) * Count(c);
  }

  lemma Spaced(c: nat, i: nat, k: nat)
    requires c < NUM_CLASSES && i < k
    ensures Offset(c, i) + SizeOf(c) <= Offset(c, k)
  {
    assert SizeOf(c) * i + SizeOf(c) == SizeOf(c) * (i + 1);
    assert SizeOf(c) * (i + 1) <= SizeOf(c) * k;
  }

  /** Bytes `[a, a+n)` and `[b, b+m)` do not overlap. */
  predicate Disjoint(a: nat, n: nat, b: nat, m: nat) { a + n <= b || b + m <= a }

  /** A chunk of a slab page overlaps no other chunk. */
  lemma ChunkApart(s: State, p: nat, c: nat, k: nat, b: nat)
    requires StacksOk(s) && ChunksOk(s) && IsSlab(s, p, c) && k < Count(c) && b in s.chunks
    requires ChunkAddr(s, p, c, k) != b
    ensures Disjoint(ChunkAddr(s, p, c, k), SizeOf(c), b, SizeOf(ClassOf(s, b)))
  {
    hide SizeOf, Count, Offset;
    assert ChunkOk(s, b);
    var y := s.chunks[b];
    InPage(c, k);
    InPage(ClassOf(s, b), y.k);
    if p == y.page {
      if k < y.k { Spaced(c, k, y.k); }
      if y.k < k { Spaced(c, y.k, k); }
    }
  }

  /** Two chunks, free or live, of whatever classes, never overlap. */
  lemma ChunksDisjoint(s: State, a: nat, b: nat)
    requires StacksOk(s) && ChunksOk(s) && a in s.chunks && b in s.chunks && a != b
    ensures Disjoint(a, SizeOf(ClassOf(s, a)), b, SizeOf(ClassOf(s, b)))
  {
    hide SizeOf, Count, Offset;
    assert ChunkOk(s, a);
    ChunkApart(s, s.chunks[a].page, ClassOf(s, a), s.chunks[a].k, b);
  }

  /** Bytes reserved for a live allocation. */
  ghost function Reserved(s: State, a: nat): nat
    requires a in s.live
  {
    if s.live[a].size <= PAGE then (if ClassFor(s.live[a]) < NUM_CLASSES then SizeOf(ClassFor(s.live[a])) else 0)
    else PAGE * PagesFor(s.live[a].size)
  }

  lemma LargeDisjoint(s: State, b: nat, d: nat)
    requires LargeOk(s) && b in s.large && d in s.large && b != d
    ensures b + s.large[b] <= d || d + s.large[d] <= b
  {
    assert s.pages[d] == Large(d) && s.pages[b] == Large(b);
  }

  lemma SlabLargeDisjoint(s: State, p: nat, c: nat, k: nat, b: nat)
    requires LargeOk(s) && IsSlab(s, p, c) && k < Count(c) && b in s.large
    ensures Disjoint(ChunkAddr(s, p, c, k), SizeOf(c), PageAddr(s, b), PAGE * s.large[b])
  {
    hide SizeOf, Count, Offset;
    InPage(c, k);
  }

  lemma ChunkLargeDisjoint(s: State, a: nat, b: nat)
    requires StacksOk(s) && ChunksOk(s) && LargeOk(s) && a in s.chunks && b in s.large
    ensures Disjoint(a, SizeOf(ClassOf(s, a)), PageAddr(s, b), PAGE * s.large[b])
  {
    hide SizeOf, Count, Offset;
    assert ChunkOk(s, a);
    SlabLargeDisjoint(s, s.chunks[a].page, ClassOf(s, a), s.chunks[a].k, b);
  }

  /** No live allocation overlaps a chunk of a slab page that is not itself. */
  lemma LiveApart(s: State, mem: Memory, heads: seq<nat>, a: nat, p: nat, c: nat, k: nat)
    requires Inv(s, mem, heads) && a in s.live && IsSlab(s, p, c) && k < Count(c) && ChunkAddr(s, p, c, k) != a
    ensures Disjoint(a, Reserved(s, a), ChunkAddr(s, p, c, k), SizeOf(c))
  {
    hide SizeOf, Count, Offset, LinksOk, PagesFor;
    if s.live[a].size <= PAGE {
      assert ChunkOk(s, a);
      ChunkApart(s, p, c, k, a);
    } else {
      var b :| b in s.large && a == PageAddr(s, b);
      assert LargeLive(s, b);
      SlabLargeDisjoint(s, p, c, k, b);
    }
  }

  /** Every live allocation of `s` holds the same bytes in both memories. */
  ghost predicate Intact(s: State, m: Memory, m': Memory) {
    forall a, i :: a in s.live && a <= i < a + Reserved(s, a) ==> ByteAt(m', i) == ByteAt(m, i)
  }

  lemma SetIntact(s: State, m: Memory, a: nat, x: nat)
    requires forall b :: b in s.live ==> Disjoint(b, Reserved(s, b), a, WORD)
    ensures Intact(s, m, SetWord(m, a, x))
  {
    hide Reserved;
    forall b, i | b in s.live && b <= i < b + Reserved(s, b) ensures ByteAt(SetWord(m, a, x), i) == ByteAt(m, i) {
      SaveFrame(m, a, x, WORD, i);
    }
  }

  lemma IntactSame(s: State, m: Memory)
    ensures Intact(s, m, m)
  {
  }

  lemma IntactTwice(s: State, t: State, m0: Memory, m1: Memory, m2: Memory)
    requires Intact(s, m0, m1) && Intact(t, m1, m2) && t.live == s.live
    ensures Intact(s, m0, m2)
  {
    forall a, i | a in s.live && a <= i < a + Reserved(s, a) ensures ByteAt(m2, i) == ByteAt(m0, i) {
      assert Reserved(t, a) == Reserved(s, a) && a in t.live;
      assert ByteAt(m1, i) == ByteAt(m0, i);
    }
  }

  lemma IntactLike(s: State, t: State, m0: Memory, m1: Memory)
    requires Intact(t, m0, m1) && t.live == s.live
    ensures Intact(s, m0, m1)
  {
    IntactSame(s, m0);
    IntactTwice(s, t, m0, m0, m1);
  }

  /** Writing a chunk that is not live changes no live allocation. */
  lemma FreshIntact(s: State, mem: Memory, heads: seq<nat>, c: nat, p: nat, k: nat, x: nat)
    requires Inv(s, mem, heads) && IsSlab(s, p, c) && k < Count(c) && ChunkAddr(s, p, c, k) !in s.live
    ensures Intact(s, mem, SetWord(mem, ChunkAddr(s, p, c, k), x))
  {
    hide Inv, Reserved, ChunkAddr, Count, Intact;
    forall b | b in s.live
      ensures Disjoint(b, Reserved(s, b), ChunkAddr(s, p, c, k), WORD)
    {
      LiveApart(s, mem, heads, b, p, c, k);
    }
    SetIntact(s, mem, ChunkAddr(s, p, c, k), x);
  }

  /** Writing into an allocation that is given back changes none of the others. */
  lemma FreedIntact(s: State, t: State, mem: Memory, heads: seq<nat>, a: nat, x: nat)
    requires Inv(s, mem, heads) && a in s.live && t.live == s.live - {a} && s.live[a].size <= PAGE
    requires ClassFor(s.live[a]) < NUM_CLASSES
    ensures Intact(t, mem, SetWord(mem, a, x))
  {
    hide Inv, Intact, ClassFor;
    forall b | b in t.live ensures Disjoint(b, Reserved(t, b), a, WORD) {
      LiveDisjoint(s, mem, heads, a, b);
      assert Reserved(t, b) == Reserved(s, b);
    }
    SetIntact(t, mem, a, x);
  }

  /** A client's write changes no other allocation. */
  lemma PutIntact(s: State, mem: Memory, heads: seq<nat>, a: nat, w: nat, bytes: seq<Byte>, b: nat, i: nat)
    requires Inv(s, mem, heads) && a in s.live && a <= w && w + |bytes| <= a + Reserved(s, a)
    requires b in s.live && b != a && b <= i < b + Reserved(s, b)
    ensures ByteAt(Put(mem, w, bytes), i) == ByteAt(mem, i)
  {
    hide Inv, Reserved;
    LiveDisjoint(s, mem, heads, a, b);
    PutByte(mem, w, bytes, i);
  }

  /** Every two live allocations occupy disjoint memory, and none overlaps a free chunk. */
  lemma LiveDisjoint(s: State, mem: Memory, heads: seq<nat>, a: nat, b: nat)
    requires Inv(s, mem, heads) && a in s.live && a != b
    ensures b in s.live ==> Disjoint(a, Reserved(s, a), b, Reserved(s, b))
    ensures b in s.chunks ==> ChunkOk(s, b) && Disjoint(a, Reserved(s, a), b, SizeOf(ClassOf(s, b)))
  {
    hide SizeOf, Count, Offset, LinksOk, PagesFor;
    var p: nat, q: nat := 0, 0;
    if s.live[a].size <= PAGE { assert ChunkOk(s, a); } else { p :| p in s.large && a == PageAddr(s, p); }
    if b in s.chunks {
      assert ChunkOk(s, b);
      if s.live[a].size <= PAGE { ChunksDisjoint(s, a, b); } else { ChunkLargeDisjoint(s, b, p); }
    }
    if b in s.live && s.live[b].size > PAGE {
      q :| q in s.large && b == PageAddr(s, q);
      if s.live[a].size <= PAGE { ChunkLargeDisjoint(s, a, q); } else { LargeDisjoint(s, p, q); }
    }
  }

  // ---- what each step does to the state ---------------------------------------------------

  /** A client may write any bytes of its own allocation without touching a free list. */
  lemma WriteKeeps(s: State, mem: Memory, heads: seq<nat>, a: nat, w: nat, bytes: seq<Byte>)
    requires Inv(s, mem, heads) && a in s.live && a <= w && w + |bytes| <= a + Reserved(s, a)
    ensures Inv(s, Put(mem, w, bytes), heads)
  {
    hide ChunksOk, LargeOk, LiveOk, Reserved, Word, Put, ClassOf;
    forall c | 0 <= c < NUM_CLASSES ensures Chain(s.stacks[c], Put(mem, w, bytes), heads[c]) {
      assert Chain(s.stacks[c], mem, heads[c]);
      forall i | 0 <= i < |s.stacks[c]| ensures Word(Put(mem, w, bytes), s.stacks[c][i]) == Word(mem, s.stacks[c][i]) {
        FreeIsNotLive(s, mem, heads, c, i);
        LiveDisjoint(s, mem, heads, a, s.stacks[c][i]);
        PutFrame(mem, w, bytes, s.stacks[c][i]);
      }
      ChainFrame(s.stacks[c], mem, heads[c], Put(mem, w, bytes));
    }
  }

  lemma FreeIsNotLive(s: State, mem: Memory, heads: seq<nat>, c: nat, i: nat)
    requires Inv(s, mem, heads) && c < NUM_CLASSES && i < |s.stacks[c]|
    ensures s.stacks[c][i] in s.chunks && s.stacks[c][i] !in s.live && s.stacks[c][i] != 0
  {
    hide SizeOf, Offset, Count, LinksOk;
    var b := s.stacks[c][i];
    assert OnStack(s, c, i);
    assert ChunkOk(s, b);
    if b in s.live && s.live[b].size > PAGE {
      var q :| q in s.large && b == PageAddr(s, q);
      ChunkLargeDisjoint(s, b, q);
    }
  }

  ghost function Popped(s: State, c: nat, l: Layout): State
    requires |s.stacks| == NUM_CLASSES && c < NUM_CLASSES && |s.stacks[c]| > 0
    requires s.stacks[c][|s.stacks[c]| - 1] in s.chunks
  {
    var n := |s.stacks[c]| - 1;
    var a := s.stacks[c][n];
    s.(stacks := s.stacks[c := s.stacks[c][..n]], chunks := s.chunks[a := s.chunks[a].(st := Live)],
      live := s.live[a := l])
  }

  lemma PopChunks(s: State, mem: Memory, heads: seq<nat>, c: nat, l: Layout)
    requires Inv(s, mem, heads) && c < NUM_CLASSES && |s.stacks[c]| > 0 && ClassFor(l) == c && l.size <= PAGE
    ensures s.stacks[c][|s.stacks[c]| - 1] in s.chunks
    ensures var t := Popped(s, c, l); StacksOk(t) && ChunksOk(t)
  {
    hide SizeOf, Offset, Count, LinksOk, LargeOk, LiveOk, ClassFor;
    var n := |s.stacks[c]| - 1;
    var a := s.stacks[c][n];
    assert OnStack(s, c, n);
    var t := Popped(s, c, l);
    forall d, i | 0 <= d < NUM_CLASSES && 0 <= i < |t.stacks[d]| ensures OnStack(t, d, i) {
      assert OnStack(s, d, i);
    }
    forall b | b in t.chunks ensures ChunkOk(t, b) {
      assert ChunkOk(s, b);
    }
  }

  lemma PopLinks(s: State, mem: Memory, heads: seq<nat>, c: nat, t: State)
    requires LinksOk(s, mem, heads) && c < NUM_CLASSES == |s.stacks| == |heads| && |s.stacks[c]| > 0
    requires t.stacks == s.stacks[c := s.stacks[c][..|s.stacks[c]| - 1]]
    ensures LinksOk(t, mem, heads[c := Word(mem, heads[c])])
  {
    hide Chain;
    forall d | 0 <= d < NUM_CLASSES ensures Chain(t.stacks[d], mem, heads[c := Word(mem, heads[c])][d]) {
      assert Chain(s.stacks[d], mem, heads[d]);
      if d == c { ChainPop(s.stacks[c], mem, heads[c]); }
    }
  }

  lemma PopKeeps(s: State, mem: Memory, heads: seq<nat>, c: nat, l: Layout)
    requires Inv(s, mem, heads) && c < NUM_CLASSES && |s.stacks[c]| > 0 && ClassFor(l) == c && l.size <= PAGE
    ensures s.stacks[c][|s.stacks[c]| - 1] in s.chunks
    ensures Inv(Popped(s, c, l), mem, heads[c := Word(mem, heads[c])])
  {
    hide SizeOf, Offset, Count, StacksOk, ChunksOk, ClassFor, PagesFor, LinksOk, Word;
    InvParts(s, mem, heads);
    PopChunks(s, mem, heads, c, l);
    var n := |s.stacks[c]| - 1;
    var a, t := s.stacks[c][n], Popped(s, c, l);
    FreeIsNotLive(s, mem, heads, c, n);
    PopLinks(s, mem, heads, c, t);
    LargeSame(s, t);
    LiveGrows(s, t);
  }

  lemma ChainPop(stack: seq<nat>, mem: Memory, head: nat)
    requires Chain(stack, mem, head) && |stack| > 0
    ensures Chain(stack[..|stack| - 1], mem, Word(mem, head))
  {
    assert Word(mem, stack[|stack| - 1]) == Below(stack, |stack| - 1);
    forall i | 0 <= i < |stack| - 1
      ensures Word(mem, stack[i]) == Below(stack[..|stack| - 1], i)
    {
      assert Word(mem, stack[i]) == Below(stack, i);
    }
  }

  lemma ChainPush(stack: seq<nat>, mem: Memory, head: nat, a: nat)
    requires Chain(stack, mem, head) && head < TOP && forall i :: 0 <= i < |stack| ==> Disjoint(a, WORD, stack[i], WORD)
    ensures Chain(stack + [a], SetWord(mem, a, head), a)
  {
    hide Word, SetWord;
    var m := SetWord(mem, a, head);
    WordSet(mem, a, head);
    forall i | 0 <= i < |stack| ensures Word(m, stack[i]) == Below(stack, i) {
      assert Word(mem, stack[i]) == Below(stack, i);
      WordFrame(mem, a, head, stack[i]);
    }
  }

  lemma ChainFrame(stack: seq<nat>, mem: Memory, head: nat, m: Memory)
    requires Chain(stack, mem, head) && forall i :: 0 <= i < |stack| ==> Word(m, stack[i]) == Word(mem, stack[i])
    ensures Chain(stack, m, head)
  {
    hide Word;
    forall i | 0 <= i < |stack|
      ensures Word(m, stack[i]) == Below(stack, i)
    {
      assert Word(mem, stack[i]) == Below(stack, i);
    }
  }

  /** Large allocations do not notice what happens to chunks. */
  lemma LargeSame(s: State, t: State)
    requires LargeOk(s) && t.large == s.large && t.hhdm == s.hhdm
    requires forall q :: q in s.pages ==> q in t.pages && t.pages[q] == s.pages[q]
    requires forall q :: q in t.pages && q !in s.pages ==> t.pages[q].Slab?
    requires forall b :: b in s.large ==>
               PageAddr(s, b) in s.live && PageAddr(s, b) in t.live && t.live[PageAddr(s, b)] == s.live[PageAddr(s, b)]
    ensures LargeOk(t)
  {
    forall b | b in t.large ensures LargeLive(t, b) { assert LargeLive(s, b); }
    forall q | q in t.pages && t.pages[q].Large?
      ensures InLarge(t, q, t.pages[q].base)
    {
      assert InLarge(s, q, s.pages[q].base);
    }
  }

  lemma LiveGrows(s: State, t: State)
    requires LiveOk(s) && t.large == s.large && t.hhdm == s.hhdm
    requires forall a :: a in t.live && t.live[a].size <= PAGE ==> a in t.chunks && t.chunks[a].st.Live?
    requires forall a :: a in t.live && t.live[a].size > PAGE ==> a in s.live && s.live[a] == t.live[a]
    ensures LiveOk(t)
  {
    forall a | a in t.live && t.live[a].size > PAGE ensures exists b :: b in t.large && a == PageAddr(t, b) {
      var b :| b in s.large && a == PageAddr(s, b);
      assert a == PageAddr(t, b);
    }
  }

  /** Chunk `k` of page `p`, not live any more or not seen before, becomes the head of its list. */
  ghost function Pushed(s: State, c: nat, a: nat, p: nat, k: nat): State
    requires |s.stacks| == NUM_CLASSES && c < NUM_CLASSES
  {
    s.(stacks := s.stacks[c := s.stacks[c] + [a]], chunks := s.chunks[a := Chunk(p, k, Free(|s.stacks[c]|))],
      live := s.live - {a})
  }

  lemma PushChunks(s: State, mem: Memory, heads: seq<nat>, c: nat, a: nat, p: nat, k: nat)
    requires Inv(s, mem, heads) && IsSlab(s, p, c) && k < Count(c) && a == ChunkAddr(s, p, c, k)
    requires (a in s.chunks ==> s.chunks[a] == Chunk(p, k, Live)) && a < TOP
    ensures var t := Pushed(s, c, a, p, k); StacksOk(t) && ChunksOk(t)
  {
    hide SizeOf, Offset, Count, LinksOk, LargeOk, LiveOk, ClassFor;
    var t := Pushed(s, c, a, p, k);
    forall d, i | 0 <= d < NUM_CLASSES && 0 <= i < |t.stacks[d]| ensures OnStack(t, d, i) {
      if !(d == c && i == |s.stacks[c]|) { assert OnStack(s, d, i); }
    }
    forall b | b in t.chunks ensures ChunkOk(t, b) {
      if b != a { assert ChunkOk(s, b); }
    }
  }

  lemma NotLarge(s: State, mem: Memory, heads: seq<nat>, c: nat, a: nat, p: nat, k: nat, b: nat)
    requires Inv(s, mem, heads) && IsSlab(s, p, c) && k < Count(c) && a == ChunkAddr(s, p, c, k) && b in s.large
    ensures a != PageAddr(s, b)
  {
    hide SizeOf, Offset, Count;
    InPage(c, k);
    assert s.pages[b] == Large(b);
  }

  lemma PushKeeps(s: State, mem: Memory, heads: seq<nat>, c: nat, a: nat, p: nat, k: nat)
    requires Inv(s, mem, heads) && IsSlab(s, p, c) && k < Count(c) && a == ChunkAddr(s, p, c, k) && a < TOP
    requires a in s.chunks ==> s.chunks[a] == Chunk(p, k, Live)
    ensures Inv(Pushed(s, c, a, p, k), SetWord(mem, a, heads[c]), heads[c := a])
  {
    hide SizeOf, Offset, Count, StacksOk, ChunksOk, ClassFor, PagesFor, Word, SetWord;
    PushChunks(s, mem, heads, c, a, p, k);
    var t := Pushed(s, c, a, p, k);
    PushLinks(s, mem, heads, c, a, p, k);
    hide LinksOk;
    forall b | b in s.large ensures PageAddr(s, b) in t.live {
      assert LargeLive(s, b);
      NotLarge(s, mem, heads, c, a, p, k, b);
    }
    LargeSame(s, t);
    LiveGrows(s, t);
  }

  lemma PushLinks(s: State, mem: Memory, heads: seq<nat>, c: nat, a: nat, p: nat, k: nat)
    requires Inv(s, mem, heads) && IsSlab(s, p, c) && k < Count(c) && a == ChunkAddr(s, p, c, k)
    requires a in s.chunks ==> s.chunks[a] == Chunk(p, k, Live)
    ensures LinksOk(Pushed(s, c, a, p, k), SetWord(mem, a, heads[c]), heads[c := a])
  {
    hide SizeOf, Offset, Count, StacksOk, ChunksOk, Chain, LargeOk, LiveOk, Word, SetWord, ChunkAddr;
    var t, m := Pushed(s, c, a, p, k), SetWord(mem, a, heads[c]);
    HeadBelowTop(s, mem, heads, c);
    forall d | 0 <= d < NUM_CLASSES ensures Chain(t.stacks[d], m, heads[c := a][d]) {
      assert Chain(s.stacks[d], mem, heads[d]);
      forall i | 0 <= i < |s.stacks[d]| ensures Disjoint(a, WORD, s.stacks[d][i], WORD) {
        StackedIsFree(s, d, i);
        ChunkApart(s, p, c, k, s.stacks[d][i]);
        ChunkRoom(s, s.stacks[d][i]);
      }
      if d == c { ChainPush(s.stacks[c], mem, heads[c], a); } else {
        forall i | 0 <= i < |s.stacks[d]| ensures Word(m, s.stacks[d][i]) == Word(mem, s.stacks[d][i]) {
          WordFrame(mem, a, heads[c], s.stacks[d][i]);
        }
        ChainFrame(s.stacks[d], mem, heads[d], m);
      }
    }
  }

  lemma ChunkRoom(s: State, a: nat)
    requires StacksOk(s) && ChunksOk(s) && a in s.chunks
    ensures ChunkOk(s, a) && SizeOf(ClassOf(s, a)) >= WORD && a < TOP
  {
    assert ChunkOk(s, a);
  }

  lemma HeadBelowTop(s: State, mem: Memory, heads: seq<nat>, c: nat)
    requires Inv(s, mem, heads) && c < NUM_CLASSES
    ensures heads[c] < TOP
  {
    hide SizeOf, Offset, Count, LargeOk, LiveOk, Word;
    assert Chain(s.stacks[c], mem, heads[c]);
    if s.stacks[c] != [] {
      StackedIsFree(s, c, |s.stacks[c]| - 1);
      ChunkRoom(s, heads[c]);
    }
  }

  lemma StackedIsFree(s: State, d: nat, i: nat)
    requires StacksOk(s) && d < NUM_CLASSES && i < |s.stacks[d]|
    ensures s.stacks[d][i] in s.chunks && s.chunks[s.stacks[d][i]].st == Free(i)
  {
    assert OnStack(s, d, i);
  }

  /** A fresh page becomes a slab of class `c`, with no chunk handed out yet. */
  lemma PageKeeps(s: State, mem: Memory, heads: seq<nat>, p: nat, c: nat)
    requires Inv(s, mem, heads) && p !in s.pages && c < NUM_CLASSES
    ensures Inv(s.(pages := s.pages[p := Slab(c)]), mem, heads)
  {
    hide StacksOk, ChunksOk, LinksOk, LargeOk, LiveOk;
    var t := s.(pages := s.pages[p := Slab(c)]);
    PageChunks(s, t, p, c);
    LinksSame(s, t, mem, heads);
    assert LargeOk(t) by { LargeAddrs(s); LargeSame(s, t); }
    LiveSame(s, t);
  }

  lemma LargeAddrs(s: State)
    requires LargeOk(s)
    ensures forall b :: b in s.large ==> PageAddr(s, b) in s.live
  {
    forall b | b in s.large ensures PageAddr(s, b) in s.live { assert LargeLive(s, b); }
  }

  lemma PageChunks(s: State, t: State, p: nat, c: nat)
    requires StacksOk(s) && ChunksOk(s) && p !in s.pages && t == s.(pages := s.pages[p := Slab(c)])
    ensures StacksOk(t) && ChunksOk(t)
  {
    hide SizeOf, Offset, Count, ClassFor;
    forall d, i | 0 <= d < NUM_CLASSES && 0 <= i < |t.stacks[d]| ensures OnStack(t, d, i) { assert OnStack(s, d, i); }
    forall b | b in t.chunks ensures ChunkOk(t, b) { assert ChunkOk(s, b); }
  }

  lemma LinksSame(s: State, t: State, mem: Memory, heads: seq<nat>)
    requires LinksOk(s, mem, heads) && t.stacks == s.stacks
    ensures LinksOk(t, mem, heads)
  {
  }

  lemma LiveSame(s: State, t: State)
    requires LiveOk(s) && t.live == s.live && t.chunks == s.chunks && t.large == s.large && t.hhdm == s.hhdm
    ensures LiveOk(t)
  {
    forall a | a in t.live && t.live[a].size > PAGE ensures exists b :: b in t.large && a == PageAddr(t, b) {
      var b :| b in s.large && a == PageAddr(s, b);
      assert a == PageAddr(t, b);
    }
  }

  /** Chunk `k` of slab page `p`, not seen before, goes straight to the caller. */
  ghost function Handed(s: State, a: nat, p: nat, k: nat, l: Layout): State {
    s.(chunks := s.chunks[a := Chunk(p, k, Live)], live := s.live[a := l])
  }

  lemma HandKeeps(s: State, mem: Memory, heads: seq<nat>, c: nat, a: nat, p: nat, k: nat, l: Layout)
    requires Inv(s, mem, heads) && IsSlab(s, p, c) && k < Count(c) && a == ChunkAddr(s, p, c, k) && a !in s.chunks
    requires a < TOP && ClassFor(l) == c && l.size <= PAGE
    ensures Inv(Handed(s, a, p, k, l), mem, heads)
  {
    hide LinksOk;
    var t := Handed(s, a, p, k, l);
    HandChunks(s, mem, heads, c, a, p, k, l);
    hide StacksOk, ChunksOk, ClassFor, SizeOf, Offset, Count;
    LinksSame(s, t, mem, heads);
    forall b | b in s.large ensures PageAddr(s, b) in s.live && PageAddr(s, b) != a {
      assert LargeLive(s, b);
      NotLarge(s, mem, heads, c, a, p, k, b);
    }
    LargeSame(s, t);
    LiveGrows(s, t);
  }

  lemma HandChunks(s: State, mem: Memory, heads: seq<nat>, c: nat, a: nat, p: nat, k: nat, l: Layout)
    requires Inv(s, mem, heads) && IsSlab(s, p, c) && k < Count(c) && a == ChunkAddr(s, p, c, k) && a !in s.chunks
    requires a < TOP && ClassFor(l) == c && l.size <= PAGE
    ensures var t := Handed(s, a, p, k, l); StacksOk(t) && ChunksOk(t)
  {
    hide SizeOf, Offset, Count, LinksOk, LargeOk, LiveOk, ClassFor;
    var t := Handed(s, a, p, k, l);
    forall d, i | 0 <= d < NUM_CLASSES && 0 <= i < |t.stacks[d]| ensures OnStack(t, d, i) { assert OnStack(s, d, i); }
    forall b | b in t.chunks ensures ChunkOk(t, b) { if b != a { assert ChunkOk(s, b); } }
  }

  ghost function Span(b: nat, n: nat): (r: set<nat>)
    ensures forall q :: q in r <==> b <= q < b + n
  {
    if n == 0 then {} else Span(b, n - 1) + {b + n - 1}
  }

  /** `n` fresh pages from `b` become one large allocation. */
  ghost function LargeTaken(s: State, b: nat, n: nat, l: Layout): State {
    s.(pages := s.pages + map q | q in Span(b, n) :: Large(b),
       large := s.large[b := n], live := s.live[PageAddr(s, b) := l])
  }

  lemma BasePage(s: State, b: nat)
    requires LargeOk(s) && b in s.large
    ensures b in s.pages
  {
  }

  lemma FreshAddr(s: State, mem: Memory, heads: seq<nat>, b: nat)
    requires Inv(s, mem, heads) && b !in s.pages
    ensures PageAddr(s, b) !in s.live && PageAddr(s, b) !in s.chunks && b !in s.large
  {
    hide SizeOf, Offset, Count, LinksOk;
    var a := PageAddr(s, b);
    if b in s.large { BasePage(s, b); assert false; }
    if a in s.chunks { assert ChunkOk(s, a); InPage(ClassOf(s, a), s.chunks[a].k); }
  }

  lemma TakeLargeOk(s: State, mem: Memory, heads: seq<nat>, b: nat, n: nat, l: Layout)
    requires Inv(s, mem, heads) && (forall q :: b <= q < b + n ==> q !in s.pages) && l.size > PAGE
    requires n == PagesFor(l.size)
    ensures LargeOk(LargeTaken(s, b, n, l))
  {
    hide StacksOk, ChunksOk, LinksOk, LiveOk, PagesFor, LargeTaken;
    var t := LargeTaken(s, b, n, l);
    FreshAddr(s, mem, heads, b);
    forall q: nat ensures q in t.pages <==> q in s.pages || b <= q < b + n { TakenPage(s, b, n, l, q); }
    forall d | d in t.large ensures t.large[d] >= 1 && LargeLive(t, d) {
      TakenLarge(s, b, n, l, d);
      if d != b { assert LargeLive(s, d); }
    }
    forall d, q | d in t.large && d <= q < d + t.large[d] ensures q in t.pages && t.pages[q] == Large(d) {
      TakenLarge(s, b, n, l, d);
      TakenPage(s, b, n, l, q);
    }
    forall q | q in t.pages && t.pages[q].Large? ensures InLarge(t, q, t.pages[q].base) {
      TakenPage(s, b, n, l, q);
      TakenLarge(s, b, n, l, t.pages[q].base);
      if !(b <= q < b + n) { assert InLarge(s, q, s.pages[q].base); }
    }
  }

  lemma TakenPage(s: State, b: nat, n: nat, l: Layout, q: nat)
    ensures var t := LargeTaken(s, b, n, l);
      && (q in t.pages <==> q in s.pages || b <= q < b + n)
      && (b <= q < b + n ==> t.pages[q] == Large(b))
      && (q in s.pages && !(b <= q < b + n) ==> t.pages[q] == s.pages[q])
  {
  }

  lemma TakenLarge(s: State, b: nat, n: nat, l: Layout, d: nat)
    ensures var t := LargeTaken(s, b, n, l);
      && (d in t.large <==> d in s.large || d == b)
      && (d in t.large ==> t.large[d] == if d == b then n else s.large[d])
      && t.hhdm == s.hhdm && t.live == s.live[PageAddr(s, b) := l]
  {
  }

  lemma LargeKeeps(s: State, mem: Memory, heads: seq<nat>, b: nat, n: nat, l: Layout)
    requires Inv(s, mem, heads) && (forall q :: b <= q < b + n ==> q !in s.pages) && l.size > PAGE
    requires n == PagesFor(l.size)
    ensures Inv(LargeTaken(s, b, n, l), mem, heads)
  {
    hide LargeOk, LinksOk, SizeOf, Offset, Count, ClassFor, PagesFor;
    var t := LargeTaken(s, b, n, l);
    TakeLargeOk(s, mem, heads, b, n, l);
    LinksSame(s, t, mem, heads);
    FreshAddr(s, mem, heads, b);
    assert StacksOk(t) && ChunksOk(t) by {
      forall d, i | 0 <= d < NUM_CLASSES && 0 <= i < |t.stacks[d]|
        ensures OnStack(t, d, i)
      {
        assert OnStack(s, d, i);
        StackPage(s, d, i);
      }
      forall a | a in t.chunks ensures ChunkOk(t, a) { assert ChunkOk(s, a); }
    }
    forall a | a in t.live && t.live[a].size > PAGE ensures exists d :: d in t.large && a == PageAddr(t, d) {
      if a == PageAddr(s, b) { assert b in t.large && a == PageAddr(t, b); } else {
        var d :| d in s.large && a == PageAddr(s, d);
        assert d in t.large && a == PageAddr(t, d);
      }
    }
  }

  lemma StackPage(s: State, d: nat, i: nat)
    requires StacksOk(s) && d < NUM_CLASSES && i < |s.stacks[d]|
    ensures s.stacks[d][i] in s.chunks && s.chunks[s.stacks[d][i]].page in s.pages
  {
    assert OnStack(s, d, i);
  }

  /** The pages of a large allocation leave the heap. */
  ghost function LargeGiven(s: State, b: nat): State
    requires b in s.large
  {
    s.(pages := s.pages - Span(b, s.large[b]), large := s.large - {b}, live := s.live - {PageAddr(s, b)})
  }

  lemma SameAddr(s: State, b: nat, d: nat)
    ensures PageAddr(s, b) == PageAddr(s, d) <==> b == d
  {
  }

  lemma GiveLarge(s: State, b: nat)
    requires LargeOk(s) && b in s.large
    ensures LargeOk(LargeGiven(s, b))
  {
    hide PagesFor, PageAddr, Span;
    var t := LargeGiven(s, b);
    forall d | d in t.large ensures t.large[d] >= 1 && LargeLive(t, d) {
      assert LargeLive(s, d);
      SameAddr(s, b, d);
      SameHhdm(s, t, d);
    }
    forall d, q | d in t.large && d <= q < d + t.large[d] ensures q in t.pages && t.pages[q] == Large(d) {
      assert s.pages[q] == Large(d);
    }
    forall q | q in t.pages && t.pages[q].Large?
      ensures InLarge(t, q, t.pages[q].base)
    {
      assert InLarge(s, q, s.pages[q].base);
    }
  }

  lemma SameHhdm(s: State, t: State, b: nat)
    requires s.hhdm == t.hhdm
    ensures PageAddr(s, b) == PageAddr(t, b)
  {
  }

  lemma GiveLive(s: State, b: nat)
    requires LiveOk(s) && LargeOk(s) && b in s.large
    ensures LiveOk(LargeGiven(s, b))
  {
    hide LargeOk, PageAddr;
    LargeIsLive(s, b);
    var t := LargeGiven(s, b);
    forall a | a in t.live && t.live[a].size > PAGE ensures exists d :: d in t.large && a == PageAddr(t, d) {
      var d :| d in s.large && a == PageAddr(s, d);
      SameHhdm(s, t, d);
      assert d in t.large && a == PageAddr(t, d);
    }
  }

  lemma GiveKeeps(s: State, mem: Memory, heads: seq<nat>, b: nat)
    requires Inv(s, mem, heads) && b in s.large
    ensures Inv(LargeGiven(s, b), mem, heads)
  {
    hide LargeOk, LiveOk, LinksOk, SizeOf, Offset, Count, ClassFor, PagesFor;
    var t := LargeGiven(s, b);
    GiveLarge(s, b);
    GiveLive(s, b);
    LinksSame(s, t, mem, heads);
    forall q | b <= q < b + s.large[b] ensures q in s.pages && s.pages[q] == Large(b) { LargePage(s, b, q); }
    LargeIsLive(s, b);
    assert StacksOk(t) && ChunksOk(t) by {
      forall d, i | 0 <= d < NUM_CLASSES && 0 <= i < |t.stacks[d]| ensures OnStack(t, d, i) { assert OnStack(s, d, i); }
      forall a | a in t.chunks ensures ChunkOk(t, a) { assert ChunkOk(s, a); }
    }
  }

  lemma LargePage(s: State, b: nat, q: nat)
    requires LargeOk(s) && b in s.large && b <= q < b + s.large[b]
    ensures q in s.pages && s.pages[q] == Large(b)
  {
  }

  lemma LargeIsLive(s: State, b: nat)
    requires LargeOk(s) && b in s.large
    ensures PageAddr(s, b) in s.live && s.live[PageAddr(s, b)].size > PAGE
  {
    assert LargeLive(s, b);
  }

  // ---- the allocator ------------------------------------------------------------------------

  /** An address names at most one chunk. */
  lemma ChunkIdentity(s: State, p: nat, c: nat, k: nat)
    requires StacksOk(s) && ChunksOk(s) && IsSlab(s, p, c) && k < Count(c) && ChunkAddr(s, p, c, k) in s.chunks
    ensures var ch := s.chunks[ChunkAddr(s, p, c, k)]; ch.page == p && ch.k == k
  {
    hide SizeOf, Offset, Count;
    var a := ChunkAddr(s, p, c, k);
    assert ChunkOk(s, a);
    var ch := s.chunks[a];
    InPage(c, k);
    InPage(ClassOf(s, a), ch.k);
    assert ch.page == p;
    if ch.k < k { Spaced(c, ch.k, k); }
    if k < ch.k { Spaced(c, k, ch.k); }
  }

  lemma UnseenNotLive(s: State, mem: Memory, heads: seq<nat>, p: nat, c: nat, k: nat)
    requires Inv(s, mem, heads) && IsSlab(s, p, c) && k < Count(c) && ChunkAddr(s, p, c, k) !in s.chunks
    ensures ChunkAddr(s, p, c, k) !in s.live
  {
    hide SizeOf, Offset, Count, StacksOk, ChunksOk, LargeOk, LinksOk;
    var a := ChunkAddr(s, p, c, k);
    if a in s.live {
      var b :| b in s.large && a == PageAddr(s, b);
      NotLarge(s, mem, heads, c, a, p, k, b);
    }
  }

  /** Every live allocation is big enough, aligned and not null. */
  lemma LiveFits(s: State, mem: Memory, heads: seq<nat>, a: nat)
    requires Inv(s, mem, heads) && a in s.live && PowerOfTwo(s.live[a].align) && s.live[a].align <= PAGE
    ensures s.live[a].align > 0 && Reserved(s, a) >= s.live[a].size && a != 0 && a % s.live[a].align == 0
  {
    hide OnStack, LinksOk, ClassFor, PagesFor, SizeOf, Count, ChunkAddr, PageAddr, PowerOfTwo;
    if s.live[a].size <= PAGE {
      assert ChunkOk(s, a);
      SmallFits(s, s.chunks[a].page, ClassOf(s, a), s.chunks[a].k, s.live[a]);
    } else {
      var b :| b in s.large && a == PageAddr(s, b);
      assert LargeLive(s, b);
      LargeFits(s, b, s.live[a]);
    }
  }

  lemma SmallFits(s: State, p: nat, c: nat, k: nat, l: Layout)
    requires c < NUM_CLASSES && ClassFor(l) == c && PowerOfTwo(l.align) && s.hhdm % PAGE == 0
    ensures l.align > 0 && SizeOf(c) >= l.size && ChunkAddr(s, p, c, k) % l.align == 0
    ensures ChunkAddr(s, p, c, k) >= s.hhdm
  {
    hide ClassFor, SizeOf, PowerOfTwo;
    AlignDivides(l.align, c);
    AlignedSum(s.hhdm, p, SizeOf(c), k, l.align);
  }

  lemma LargeFits(s: State, b: nat, l: Layout)
    requires PowerOfTwo(l.align) && l.align <= PAGE && s.hhdm % PAGE == 0
    ensures l.align > 0 && PAGE * PagesFor(l.size) >= l.size && PageAddr(s, b) % l.align == 0
    ensures PageAddr(s, b) >= s.hhdm
  {
    hide PowerOfTwo, PagesFor;
    AlignDivides(l.align, 9);
    AlignedSum(s.hhdm, b, PAGE, 0, l.align);
  }

  lemma AlignedSum(hhdm: nat, p: nat, size: nat, k: nat, align: nat)
    requires align > 0 && hhdm % PAGE == 0 && PAGE % align == 0 && size % align == 0
    ensures (hhdm + PAGE * p + size * k) % align == 0
  {
    var x, y := PAGE / align, size / align;
    var h := hhdm / PAGE;
    assert PAGE == align * x && size == align * y && hhdm == PAGE * h;
    assert hhdm + PAGE * p == PAGE * (h + p);
    Scaled(align, x, h + p);
    Scaled(align, y, k);
    var m := x * (h + p) + y * k;
    assert PAGE * (h + p) + size * k == align * m;
    MultipleMod(align, m);
  }

  lemma Scaled(a: nat, x: nat, n: nat)
    ensures (a * x) * n == a * (x * n)
  {
  }

  lemma MultipleMod(a: nat, m: nat)
    requires a > 0
    ensures (a * m) % a == 0
  {
    var x := a * m;
    var d := m - x / a;
    assert x == a * (x / a) + x % a;
    assert x % a == a * d;
    assert d >= 1 ==> a * d >= a * 1;
    assert d <= -1 ==> a * d <= a * -1;
  }

  /** Pages the heap holds are in use and managed. */
  ghost predicate Holds(s: State, bits: seq<bool>, managed: set<nat>) {
    forall p :: p in s.pages ==> p < |bits| && bits[p] && p in managed
  }

  class SlabHeap {
    const pmm: Allocator
    const hhdm: nat
    /** Head of each class's free list, 0 for an empty one. */
    var heads: seq<nat>
    var mem: Memory
    ghost var s: State

    ghost predicate Valid()
      reads this, pmm, pmm.bits
    {
      && s.hhdm == hhdm > 0 && hhdm + PAGE * MAX_PAGES <= TOP && Inv(s, mem, heads) && Complete(s)
      && pmm.Valid() && Holds(s, pmm.bits[..], pmm.managed)
    }

    constructor (p: Allocator, offset: nat)
      requires p.Valid() && offset > 0 && offset % PAGE == 0 && offset + PAGE * MAX_PAGES <= TOP
      ensures Valid() && s.live == map[] && pmm == p && hhdm == offset
    {
      pmm, hhdm := p, offset;
      heads := seq(NUM_CLASSES, _ => 0);
      mem := map[];
      s := State(offset, map[], map[], map[], seq(NUM_CLASSES, _ => []), map[]);
    }

    /** Slice slab page `p` into chunks `count-1 .. 1`, each pushed in turn, so that the list
        hands them out in ascending order. */
    method Carve(p: nat, c: nat)
      requires Inv(s, mem, heads) && s.hhdm == hhdm && IsSlab(s, p, c) && p < MAX_PAGES
      requires hhdm + PAGE * MAX_PAGES <= TOP
      requires forall a :: a in s.chunks ==> s.chunks[a].page != p
      modifies this`heads, this`mem, this`s
      ensures Inv(s, mem, heads) && s == old(s).(stacks := s.stacks, chunks := s.chunks)
      ensures forall a :: a in old(s).chunks ==> a in s.chunks && s.chunks[a] == old(s).chunks[a]
      ensures forall k :: 1 <= k < Count(c) ==> ChunkAddr(s, p, c, k) in s.chunks
      ensures ChunkAddr(s, p, c, 0) !in s.chunks && Intact(old(s), old(mem), mem)
    {
      hide Inv, Count, SizeOf, Offset, Intact, SetWord;
      ghost var s0, m0 := s, mem;
      IntactSame(s, mem);
      var i := Count(c);
      while i > 1
        invariant 1 <= i <= Count(c)
        invariant Inv(s, mem, heads) && s == s0.(stacks := s.stacks, chunks := s.chunks)
        invariant Intact(s0, m0, mem)
        invariant forall a :: a in s0.chunks ==> a in s.chunks && s.chunks[a] == s0.chunks[a]
        invariant forall a :: a in s.chunks && s.chunks[a].page == p ==> s.chunks[a].k >= i
        invariant forall k :: i <= k < Count(c) ==> ChunkAddr(s, p, c, k) in s.chunks
      {
        i := i - 1;
        var chunk := hhdm + PAGE * p + Offset(c, i);
        PushFresh(s, mem, heads, p, c, i);
        InPage(c, i);
        PushKeeps(s, mem, heads, c, chunk, p, i);
        FreshIntact(s, mem, heads, c, p, i, heads[c]);
        IntactTwice(s0, s, m0, mem, SetWord(mem, chunk, heads[c]));
        ghost var before := s;
        s := Pushed(s, c, chunk, p, i);
        mem := SetWord(mem, chunk, heads[c]);
        heads := heads[c := chunk];
        forall k | i <= k < Count(c) ensures ChunkAddr(s, p, c, k) in s.chunks {
          assert ChunkAddr(s, p, c, k) == ChunkAddr(before, p, c, k);
        }
      }
      if ChunkAddr(s, p, c, 0) in s.chunks { InvParts(s, mem, heads); ChunkIdentity(s, p, c, 0); }
    }

    /** Allocate.  Zero bytes cost nothing.  Otherwise the result is null exactly when the
        alignment is beyond a page or memory is exhausted; if it is not null it is a new
        live allocation and no other has changed.  Of the page allocator it takes nothing while the class's
        list has a chunk, else the lowest free page, and above a page the lowest run that is long enough. */
    method Alloc(l: Layout) returns (ptr: nat)
      requires Valid()
      modifies this`heads, this`mem, this`s, pmm`free, pmm.bits
      ensures Valid()
      ensures Intact(old(s), old(mem), mem)
      ensures l.size == 0 ==> ptr == l.align && s == old(s)
      ensures l.size > 0 && ptr == 0 ==> s == old(s) && Exhausted(old(s), old(pmm.bits[..]), l)
      ensures l.size > 0 && ptr != 0 ==>
        !Exhausted(old(s), old(pmm.bits[..]), l) && ptr !in old(s).live && s.live == old(s).live[ptr := l]
      ensures ptr == 0 || l.size == 0 || (l.size <= PAGE && !ListEmpty(old(s), l)) ==>
        pmm.bits[..] == old(pmm.bits[..]) && pmm.free == old(pmm.free)
      ensures ptr != 0 && 0 < l.size <= PAGE && ListEmpty(old(s), l) ==>
        ptr >= hhdm && TookRun(old(pmm.bits[..]), pmm.bits[..], ptr - hhdm, 1) && pmm.free == old(pmm.free) - 1
      ensures ptr != 0 && l.size > PAGE ==>
        && ptr >= hhdm && TookRun(old(pmm.bits[..]), pmm.bits[..], ptr - hhdm, PagesFor(l.size))
        && pmm.free == old(pmm.free) - PagesFor(l.size)
    {
      hide Inv, Complete, PagesFor, SizeOf, Count, Offset, ClassFor, Allocator.Valid, Intact, Word, TookRun;
      BitsLength(pmm);
      IntactSame(s, mem);
      if l.size == 0 { return l.align; }
      if l.size > PAGE {
        ptr := AllocLarge(l);
        return;
      }
      ClassRange(l);
      var ci := ClassFor(l);
      if ci == NUM_CLASSES { return 0; }
      InvParts(s, mem, heads);
      HeadOf(s, mem, heads, ci);
      if heads[ci] != 0 {
        ptr := heads[ci];
        PopKeeps(s, mem, heads, ci, l);
        FreeIsNotLive(s, mem, heads, ci, |s.stacks[ci]| - 1);
        PopComplete(s, ci, l);
        heads := heads[ci := Word(mem, ptr)];
        s := Popped(s, ci, l);
        return;
      }
      ptr := AllocSlab(l, ci);
    }

    /** Slow path: a fresh page, sliced. */
    method AllocSlab(l: Layout, ci: nat) returns (ptr: nat)
      requires Valid() && ci < NUM_CLASSES && ClassFor(l) == ci && 0 < l.size <= PAGE
      modifies this`heads, this`mem, this`s, pmm`free, pmm.bits
      ensures Valid() && Intact(old(s), old(mem), mem)
      ensures ptr == 0 ==> s == old(s) && forall p :: 0 <= p < MAX_PAGES ==> old(pmm.bits[p])
      ensures ptr != 0 ==>
        ptr !in old(s).live && s.live == old(s).live[ptr := l] && exists p :: 0 <= p < MAX_PAGES && !old(pmm.bits[p])
      ensures ptr == 0 ==> pmm.bits[..] == old(pmm.bits[..]) && pmm.free == old(pmm.free)
      ensures ptr != 0 ==>
        ptr >= hhdm && TookRun(old(pmm.bits[..]), pmm.bits[..], ptr - hhdm, 1) && pmm.free == old(pmm.free) - 1
    {
      hide Inv, Complete, SizeOf, Count, Offset, ClassFor, Allocator.Valid, Intact, TookRun;
      IntactSame(s, mem);
      BitsLength(pmm);
      ghost var before := pmm.bits[..];
      var phys := pmm.AllocPage();
      if phys.None? { return 0; }
      ghost var p := phys.value / PAGE;
      assert forall q :: 0 <= q < p ==> before[q];
      TookOne(before, pmm.bits[..], phys.value);
      ghost var s0 := s;
      PageKeeps(s, mem, heads, p, ci);
      FreshPage(s, mem, heads, p);
      s := s.(pages := s.pages[p := Slab(ci)]);
      ghost var s1 := s;
      Carve(phys.value / PAGE, ci);
      IntactLike(s0, s1, old(mem), mem);
      ptr := hhdm + phys.value;
      OffsetZero(ci);
      UnseenNotLive(s, mem, heads, p, ci, 0);
      HandKeeps(s, mem, heads, ci, ptr, p, 0, l);
      ghost var s2 := s;
      s := Handed(s, ptr, p, 0, l);
      SlabComplete(s0, s2, s, p, ci, ptr, l);
    }

    method AllocLarge(l: Layout) returns (ptr: nat)
      requires Valid() && l.size > PAGE
      modifies this`s, pmm`free, pmm.bits
      ensures Valid()
      ensures ptr == 0 ==> s == old(s) && LowestRun(old(pmm.bits[..]), PagesFor(l.size), None)
      ensures ptr != 0 ==>
        && ptr !in old(s).live
        && s.live == old(s).live[ptr := l]
        && exists p: nat :: RunAt(old(pmm.bits[..]), p, PagesFor(l.size))
      ensures ptr == 0 ==> pmm.bits[..] == old(pmm.bits[..]) && pmm.free == old(pmm.free)
      ensures ptr != 0 ==>
        && ptr >= hhdm && TookRun(old(pmm.bits[..]), pmm.bits[..], ptr - hhdm, PagesFor(l.size))
        && pmm.free == old(pmm.free) - PagesFor(l.size)
    {
      hide Inv, Complete, PagesFor, Claimed, LowestRun, Holds, LargeTaken, Allocator.Valid;
      var n := PagesFor(l.size);
      var phys := pmm.AllocContiguous(n);
      if phys.None? { return 0; }
      ghost var b := phys.value / PAGE;
      ptr := hhdm + phys.value;
      TookMany(old(pmm.bits[..]), pmm.bits[..], phys.value, n);
      LargeHolds(s, old(pmm.bits[..]), pmm.bits[..], pmm.managed, b, n, l);
      LargeKeeps(s, mem, heads, b, n, l);
      FreshAddr(s, mem, heads, b);
      s := LargeTaken(s, b, n, l);
    }

    /** Give an allocation back, with the layout it was made with.  Above a page its pages, exactly those, are free
        again; a chunk goes back to its list and the page allocator is not touched. */
    method Dealloc(ptr: nat, l: Layout)
      requires Valid() && (ptr == 0 || l.size == 0 || (ptr in s.live && s.live[ptr] == l))
      modifies this`heads, this`mem, this`s, pmm`free, pmm.bits
      ensures Valid() && Intact(s, old(mem), mem)
      ensures ptr == 0 || l.size == 0 ==> s == old(s)
      ensures ptr != 0 && l.size > 0 ==> s.live == old(s).live - {ptr}
      ensures ptr == 0 || l.size <= PAGE ==> pmm.bits[..] == old(pmm.bits[..]) && pmm.free == old(pmm.free)
      ensures ptr != 0 && l.size > PAGE ==>
        && ptr >= hhdm && GaveRun(old(pmm.bits[..]), pmm.bits[..], ptr - hhdm, PagesFor(l.size))
        && pmm.free == old(pmm.free) + PagesFor(l.size)
    {
      hide Inv, Complete, PagesFor, SizeOf, Count, Offset, ClassFor, Intact, SetWord, ChunkAddr;
      IntactSame(s, mem);
      if ptr == 0 || l.size == 0 { return; }
      if l.size > PAGE {
        DeallocLarge(ptr, l);
        IntactSame(s, mem);
        return;
      }
      LiveChunk(s, mem, heads, ptr);
      var ci := ClassFor(l);
      if ci == NUM_CLASSES { assert false; return; }
      ghost var ch := s.chunks[ptr];
      PushKeeps(s, mem, heads, ci, ptr, ch.page, ch.k);
      PushComplete(s, ci, ptr, ch.page, ch.k);
      FreedIntact(s, Pushed(s, ci, ptr, ch.page, ch.k), mem, heads, ptr, heads[ci]);
      s := Pushed(s, ci, ptr, ch.page, ch.k);
      mem := SetWord(mem, ptr, heads[ci]);
      heads := heads[ci := ptr];
    }

    method DeallocLarge(ptr: nat, l: Layout)
      requires Valid() && ptr in s.live && s.live[ptr] == l && l.size > PAGE
      modifies this`s, pmm`free, pmm.bits
      ensures Valid() && s.live == old(s).live - {ptr}
      ensures ptr >= hhdm && GaveRun(old(pmm.bits[..]), pmm.bits[..], ptr - hhdm, PagesFor(l.size))
      ensures pmm.free == old(pmm.free) + PagesFor(l.size)
    {
      hide Inv, Complete, PagesFor, Holds, LargeGiven, GaveRun, Allocator.Valid;
      BitsLength(pmm);
      ghost var b := LiveLarge(s, mem, heads, ptr);
      var n := PagesFor(l.size);
      var phys := ptr - hhdm;
      GiveKeeps(s, mem, heads, b);
      GiveComplete(s, b);
      GiveHolds(s, mem, heads, pmm.bits[..], pmm.managed, b);
      FreeRun(phys / PAGE, n);
      GivenHolds(s, old(pmm.bits[..]), pmm.bits[..], pmm.managed, b);
      GaveMany(old(pmm.bits[..]), pmm.bits[..], phys, n);
      s := LargeGiven(s, b);
    }

    /** Give pages `b` to `b + n` back one by one. */
    method FreeRun(b: nat, n: nat)
      requires pmm.Valid() && b + n <= MAX_PAGES && forall q :: b <= q < b + n ==> pmm.bits[q] && q in pmm.managed
      modifies pmm`free, pmm.bits
      ensures pmm.Valid() && forall q :: 0 <= q < MAX_PAGES ==> pmm.bits[q] == (old(pmm.bits[q]) && !(b <= q < b + n))
      ensures pmm.free == old(pmm.free) + n
    {
      var i := 0;
      while i < n
        invariant 0 <= i <= n && pmm.Valid() && pmm.free == old(pmm.free) + i
        invariant forall q :: 0 <= q < MAX_PAGES ==> pmm.bits[q] == (old(pmm.bits[q]) && !(b <= q < b + i))
      {
        pmm.FreePage((b + i) * PAGE);
        i := i + 1;
      }
    }

    /** Allocate above a page and give it back: every page, the counter and the live allocations are as they were. */
    method AllocDealloc(l: Layout) returns (ptr: nat)
      requires Valid() && l.size > PAGE
      modifies this`heads, this`mem, this`s, pmm`free, pmm.bits
      ensures Valid() && pmm.bits[..] == old(pmm.bits[..]) && pmm.free == old(pmm.free) && s.live == old(s).live
      ensures ptr == 0 <==> Exhausted(old(s), old(pmm.bits[..]), l)
    {
      hide Inv, Complete, PagesFor, Holds, Intact, TookRun, GaveRun, Allocator.Valid, Exhausted;
      ptr := Alloc(l);
      if ptr == 0 { return; }
      ghost var bits := pmm.bits[..];
      Dealloc(ptr, l);
      GivenBack(old(pmm.bits[..]), bits, pmm.bits[..], ptr - hhdm, PagesFor(l.size));
    }

    /** A client stores any bytes in memory it was given; the free lists and every other allocation are
        as they were. */
    method ClientWrite(a: nat, w: nat, bytes: seq<Byte>)
      requires Valid() && a in s.live && a <= w && w + |bytes| <= a + Reserved(s, a)
      modifies this`mem
      ensures Valid() && s == old(s) && mem == Put(old(mem), w, bytes)
      ensures forall b, i :: b in s.live && b != a && b <= i < b + Reserved(s, b) ==>
                ByteAt(mem, i) == ByteAt(old(mem), i)
    {
      hide Inv, Complete, Reserved, Put;
      WriteKeeps(s, mem, heads, a, w, bytes);
      forall b, i | b in s.live && b != a && b <= i < b + Reserved(s, b)
        ensures ByteAt(Put(mem, w, bytes), i) == ByteAt(mem, i)
      {
        PutIntact(s, mem, heads, a, w, bytes, b, i);
      }
      mem := Put(mem, w, bytes);
    }
  }

  lemma InvParts(s: State, mem: Memory, heads: seq<nat>)
    requires Inv(s, mem, heads)
    ensures StacksOk(s) && ChunksOk(s) && |heads| == NUM_CLASSES && |s.stacks| == NUM_CLASSES
  {
  }

  /** A chunk not seen before can be pushed, and pushing it changes no live allocation. */
  lemma PushFresh(s: State, mem: Memory, heads: seq<nat>, p: nat, c: nat, k: nat)
    requires Inv(s, mem, heads) && IsSlab(s, p, c) && k < Count(c)
    requires forall a :: a in s.chunks && s.chunks[a].page == p ==> s.chunks[a].k > k
    ensures |s.stacks| == NUM_CLASSES == |heads|
    ensures ChunkAddr(s, p, c, k) !in s.chunks && s.live - {ChunkAddr(s, p, c, k)} == s.live
  {
    hide Count, SizeOf, Offset, LinksOk, LargeOk, LiveOk;
    InvParts(s, mem, heads);
    if ChunkAddr(s, p, c, k) in s.chunks { ChunkIdentity(s, p, c, k); }
    UnseenNotLive(s, mem, heads, p, c, k);
  }

  /** The lowest run of `n` free pages, which is at physical address `phys`, has been taken, and no other page. */
  ghost predicate TookRun(before: seq<bool>, after: seq<bool>, phys: nat, n: nat) {
    && phys % PAGE == 0 && |after| == |before|
    && (forall q :: 0 <= q < |before| ==> after[q] == (before[q] || phys <= q * PAGE < phys + n * PAGE))
    && RunAt(before, phys / PAGE, n) && forall q: nat :: q < phys / PAGE ==> !RunAt(before, q, n)
  }

  /** The `n` pages at physical address `phys` were taken and are free again, and no other page. */
  ghost predicate GaveRun(before: seq<bool>, after: seq<bool>, phys: nat, n: nat) {
    && phys % PAGE == 0 && |after| == |before| && phys / PAGE + n <= |before|
    && (forall q :: phys / PAGE <= q < phys / PAGE + n ==> before[q])
    && (forall q :: 0 <= q < |before| ==> after[q] == (before[q] && !(phys <= q * PAGE < phys + n * PAGE)))
  }

  lemma InRun(phys: nat, n: nat, q: nat)
    requires phys % PAGE == 0
    ensures phys <= q * PAGE < phys + n * PAGE <==> phys / PAGE <= q < phys / PAGE + n
  {
    assert phys == phys / PAGE * PAGE;
  }

  lemma TookOne(before: seq<bool>, after: seq<bool>, phys: nat)
    requires phys % PAGE == 0 && phys / PAGE < |before| && !before[phys / PAGE] && after == before[phys / PAGE := true]
    requires forall q :: 0 <= q < phys / PAGE ==> before[q]
    ensures TookRun(before, after, phys, 1)
  {
    forall q | 0 <= q < |before| ensures after[q] == (before[q] || phys <= q * PAGE < phys + 1 * PAGE) {
      InRun(phys, 1, q);
    }
    forall q: nat | q < phys / PAGE ensures !RunAt(before, q, 1) { assert before[q]; }
  }

  lemma TookMany(before: seq<bool>, after: seq<bool>, phys: nat, n: nat)
    requires phys % PAGE == 0 && LowestRun(before, n, Some(phys / PAGE)) && Claimed(before, after, phys / PAGE, n)
    ensures TookRun(before, after, phys, n)
  {
    forall q | 0 <= q < |before| ensures after[q] == (before[q] || phys <= q * PAGE < phys + n * PAGE) {
      InRun(phys, n, q);
    }
  }

  lemma GaveMany(before: seq<bool>, after: seq<bool>, phys: nat, n: nat)
    requires phys % PAGE == 0 && |after| == |before| && phys / PAGE + n <= |before|
    requires forall q :: phys / PAGE <= q < phys / PAGE + n ==> before[q]
    requires forall q :: 0 <= q < |before| ==> after[q] == (before[q] && !(phys / PAGE <= q < phys / PAGE + n))
    ensures GaveRun(before, after, phys, n)
  {
    forall q | 0 <= q < |before| ensures after[q] == (before[q] && !(phys <= q * PAGE < phys + n * PAGE)) {
      InRun(phys, n, q);
    }
  }

  /** What was taken and given back leaves every page as it was. */
  lemma GivenBack(a: seq<bool>, b: seq<bool>, c: seq<bool>, phys: nat, n: nat)
    requires TookRun(a, b, phys, n) && GaveRun(b, c, phys, n)
    ensures c == a
  {
    forall q | 0 <= q < |a| ensures c[q] == a[q] { InRun(phys, n, q); }
  }

  /** The list of the layout's class has no chunk. */
  ghost predicate ListEmpty(s: State, l: Layout) {
    ClassFor(l) < |s.stacks| && s.stacks[ClassFor(l)] == []
  }

  /** No allocation with layout `l` is possible: nothing on its free list and no page, or no run of pages. */
  ghost predicate Exhausted(s: State, bits: seq<bool>, l: Layout) {
    if l.size > PAGE then LowestRun(bits, PagesFor(l.size), None)
    else
      l.align > PAGE
      || (ClassFor(l) < |s.stacks| && s.stacks[ClassFor(l)] == [] && forall p :: 0 <= p < |bits| ==> bits[p])
  }

  lemma BitsLength(p: Allocator)
    requires p.Valid()
    ensures p.bits.Length == MAX_PAGES
  {
  }

  lemma ClassRange(l: Layout)
    ensures ClassFor(l) <= NUM_CLASSES && (ClassFor(l) == NUM_CLASSES <==> l.size > PAGE || l.align > PAGE)
  {
  }

  lemma HeadOf(s: State, mem: Memory, heads: seq<nat>, c: nat)
    requires Inv(s, mem, heads) && c < NUM_CLASSES
    ensures |heads| == NUM_CLASSES == |s.stacks| && (heads[c] == 0 <==> s.stacks[c] == [])
    ensures heads[c] != 0 ==> heads[c] == s.stacks[c][|s.stacks[c]| - 1]
  {
    hide Word, ChunksOk, LargeOk, LiveOk;
    assert Chain(s.stacks[c], mem, heads[c]);
    if s.stacks[c] != [] { FreeIsNotLive(s, mem, heads, c, |s.stacks[c]| - 1); }
  }

  lemma OffsetZero(c: nat)
    requires c < NUM_CLASSES
    ensures Offset(c, 0) == 0 && Count(c) >= 1
  {
  }

  lemma FreshPage(s: State, mem: Memory, heads: seq<nat>, p: nat)
    requires Inv(s, mem, heads) && p !in s.pages
    ensures forall a :: a in s.chunks ==> s.chunks[a].page != p
  {
    hide SizeOf, Offset, Count, LinksOk, LargeOk, LiveOk;
    forall a | a in s.chunks ensures s.chunks[a].page != p { assert ChunkOk(s, a); }
  }

  lemma PopComplete(s: State, c: nat, l: Layout)
    requires Complete(s) && |s.stacks| == NUM_CLASSES && c < NUM_CLASSES && |s.stacks[c]| > 0
    requires s.stacks[c][|s.stacks[c]| - 1] in s.chunks
    ensures Complete(Popped(s, c, l))
  {
    MoreComplete(s, Popped(s, c, l));
  }

  lemma PushComplete(s: State, c: nat, a: nat, p: nat, k: nat)
    requires Complete(s) && |s.stacks| == NUM_CLASSES && c < NUM_CLASSES
    ensures Complete(Pushed(s, c, a, p, k))
  {
    MoreComplete(s, Pushed(s, c, a, p, k));
  }

  lemma MoreComplete(s: State, t: State)
    requires Complete(s) && t.hhdm == s.hhdm && s.chunks.Keys <= t.chunks.Keys
    requires forall p, c :: IsSlab(t, p, c) ==> IsSlab(s, p, c)
    ensures Complete(t)
  {
    hide SizeOf, Offset, Count;
    forall p, c, k | IsSlab(t, p, c) && 0 <= k < Count(c) ensures ChunkAddr(t, p, c, k) in t.chunks {
      assert IsSlab(s, p, c) && ChunkAddr(s, p, c, k) in s.chunks;
      assert ChunkAddr(t, p, c, k) == ChunkAddr(s, p, c, k);
    }
  }

  lemma LargeHolds(s: State, before: seq<bool>, bits: seq<bool>, managed: set<nat>, b: nat, n: nat, l: Layout)
    requires Holds(s, before, managed) && Claimed(before, bits, b, n) && LowestRun(before, n, Some(b)) && Complete(s)
    requires forall q :: b <= q < b + n ==> q in managed
    ensures Holds(LargeTaken(s, b, n, l), bits, managed) && (forall q :: b <= q < b + n ==> q !in s.pages)
    ensures RunAt(before, b, n) && LargeTaken(s, b, n, l).hhdm == s.hhdm
    ensures LargeTaken(s, b, n, l).live == s.live[PageAddr(s, b) := l]
    ensures Complete(LargeTaken(s, b, n, l))
  {
    hide Complete;
    LargeComplete(s, LargeTaken(s, b, n, l));
  }

  lemma LargeComplete(s: State, t: State)
    requires Complete(s) && t.hhdm == s.hhdm && s.chunks == t.chunks
    requires forall q :: q in t.pages && t.pages[q].Slab? ==> q in s.pages && s.pages[q] == t.pages[q]
    ensures Complete(t)
  {
    MoreComplete(s, t);
  }

  lemma GiveComplete(s: State, b: nat)
    requires Complete(s) && b in s.large
    ensures Complete(LargeGiven(s, b))
  {
    MoreComplete(s, LargeGiven(s, b));
  }

  lemma SlabComplete(s0: State, s2: State, t: State, p: nat, c: nat, a: nat, l: Layout)
    requires Complete(s0) && c < NUM_CLASSES && p !in s0.pages
    requires s2.hhdm == s0.hhdm && s2.pages == s0.pages[p := Slab(c)] && s0.chunks.Keys <= s2.chunks.Keys
    requires forall k :: 1 <= k < Count(c) ==> ChunkAddr(s2, p, c, k) in s2.chunks
    requires t == Handed(s2, a, p, 0, l) && a == ChunkAddr(s2, p, c, 0)
    ensures Complete(t)
  {
    hide SizeOf, Offset, Count;
    forall q, d, k | IsSlab(t, q, d) && 0 <= k < Count(d) ensures ChunkAddr(t, q, d, k) in t.chunks {
      if q == p {
        assert ChunkAddr(t, p, c, k) == ChunkAddr(s2, p, c, k);
      } else {
        assert IsSlab(s0, q, d) && ChunkAddr(s0, q, d, k) in s0.chunks;
        assert ChunkAddr(t, q, d, k) == ChunkAddr(s0, q, d, k);
      }
    }
  }

  lemma LiveChunk(s: State, mem: Memory, heads: seq<nat>, a: nat)
    requires Inv(s, mem, heads) && a in s.live && s.live[a].size <= PAGE
    ensures |heads| == NUM_CLASSES == |s.stacks| && ClassFor(s.live[a]) < NUM_CLASSES && a in s.chunks && a < TOP
    ensures var ch, c := s.chunks[a], ClassFor(s.live[a]);
      IsSlab(s, ch.page, c) && ch.k < Count(c) && ch.st.Live? && a == ChunkAddr(s, ch.page, c, ch.k)
  {
    hide SizeOf, Offset, Count, LargeOk, ClassFor;
    assert ChunkOk(s, a);
  }

  lemma GiveHolds(s: State, mem: Memory, heads: seq<nat>, bits: seq<bool>, managed: set<nat>, b: nat)
    requires Inv(s, mem, heads) && Holds(s, bits, managed) && b in s.large
    ensures b + s.large[b] <= |bits| && forall q :: b <= q < b + s.large[b] ==> bits[q] && q in managed
  {
    hide Inv;
    forall q | b <= q < b + s.large[b] ensures q in s.pages { InvLarge(s, mem, heads, b, q); }
    var n := s.large[b];
    InvLargeSome(s, mem, heads, b);
    assert b + n - 1 in s.pages;
  }

  lemma InvLargeSome(s: State, mem: Memory, heads: seq<nat>, b: nat)
    requires Inv(s, mem, heads) && b in s.large
    ensures s.large[b] >= 1
  {
    hide StacksOk, ChunksOk, LinksOk, LiveOk;
  }

  lemma GivenHolds(s: State, before: seq<bool>, bits: seq<bool>, managed: set<nat>, b: nat)
    requires Holds(s, before, managed) && b in s.large && |bits| == |before|
    requires forall q :: 0 <= q < |bits| ==> bits[q] == (before[q] && !(b <= q < b + s.large[b]))
    ensures Holds(LargeGiven(s, b), bits, managed) && LargeGiven(s, b).live == s.live - {PageAddr(s, b)}
    ensures LargeGiven(s, b).hhdm == s.hhdm
  {
  }

  lemma LiveLarge(s: State, mem: Memory, heads: seq<nat>, a: nat) returns (b: nat)
    requires Inv(s, mem, heads) && a in s.live && s.live[a].size > PAGE
    ensures b in s.large && a == PageAddr(s, b) && s.large[b] == PagesFor(s.live[a].size)
  {
    hide StacksOk, ChunksOk, LinksOk, PagesFor;
    b :| b in s.large && a == PageAddr(s, b);
    assert LargeLive(s, b);
  }

  lemma InvLarge(s: State, mem: Memory, heads: seq<nat>, b: nat, q: nat)
    requires Inv(s, mem, heads) && b in s.large && b <= q < b + s.large[b]
    ensures q in s.pages
  {
    hide StacksOk, ChunksOk, LinksOk, LiveOk;
    LargePage(s, b, q);
  }
}
