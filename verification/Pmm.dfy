/** The physical page allocator: a bitmap of 512 Ki pages, one bit per 4 KiB page,
    set when the page is used, and a counter of free pages. */
module Pmm {
  import opened BitCount
  import opened BootMap

  const MAX_PAGES: nat := 512 * 1024
  const ONE_MIB: nat := 0x10_0000

  datatype Option<+T> = None | Some(value: T)

  /** `count` clear bits start at `p`. */
  ghost predicate RunAt(bits: seq<bool>, p: nat, count: nat) {
    p + count <= |bits| && forall j :: p <= j < p + count ==> !bits[j]
  }

  ghost predicate LowestRun(bits: seq<bool>, count: nat, r: Option<nat>) {
    match r
    case None => forall p: nat :: !RunAt(bits, p, count)
    case Some(p) => RunAt(bits, p, count) && forall q: nat :: q < p ==> !RunAt(bits, q, count)
  }

  /** `bits` with `count` bits from `p` set. */
  ghost predicate Claimed(before: seq<bool>, bits: seq<bool>, p: nat, count: nat) {
    |bits| == |before| && forall j :: 0 <= j < |bits| ==> bits[j] == (before[j] || p <= j < p + count)
  }

  /** Claiming a run of clear bits lowers the count by its length. */
  lemma {:induction false} ClaimCount(before: seq<bool>, bits: seq<bool>, p: nat, count: nat, hi: nat)
    requires Claimed(before, bits, p, count) && RunAt(before, p, count) && p + count <= hi <= |bits|
    ensures Clear(bits, 0, hi) == Clear(before, 0, hi) - count
    decreases hi
  {
    if p + count < hi { ClaimCount(before, bits, p, count, hi - 1); }
    else if count > 0 {
      ClaimPrefix(before, bits, p, count);
    } else {
      ClearSame(before, bits, 0, hi);
    }
  }

  lemma {:induction false} ClaimPrefix(before: seq<bool>, bits: seq<bool>, p: nat, count: nat)
    requires p + count <= |bits| == |before|
    requires forall j :: 0 <= j < p + count ==> bits[j] == (before[j] || p <= j)
    requires forall j :: p <= j < p + count ==> !before[j]
    ensures Clear(bits, 0, p + count) == Clear(before, 0, p + count) - count
    decreases count
  {
    if count == 0 { ClearSame(before, bits, 0, p); } else { ClaimPrefix(before, bits, p, count - 1); }
  }

  /** A page of `r` that the allocator may hand out. */
  ghost predicate Offers(r: Region, p: nat) {
    r.typ == 1 && r.base >= ONE_MIB && r.base / PAGE <= p < (r.base + r.len) / PAGE
  }

  ghost predicate OfferedBelow(rs: seq<Region>, n: nat, p: nat)
    requires n <= |rs|
  {
    exists i :: 0 <= i < n && Offers(rs[i], p)
  }

  ghost predicate Offered(rs: seq<Region>, p: nat) {
    OfferedBelow(rs, |rs|, p)
  }

  lemma OffersOnce(rs: seq<Region>, i: nat, j: nat, p: nat)
    requires Tidy(rs) && i < j < |rs| && Offers(rs[i], p)
    ensures !Offers(rs[j], p)
  {
    if Offers(rs[j], p) {
      assert InRegion(rs[i], p * PAGE);
      assert InRegion(rs[j], p * PAGE);
    }
  }

  /** Whatever page the allocator offers is conventional memory in the firmware's own map. */
  lemma OfferedIsConventional(ds: seq<Descriptor>, k: nat, rs: seq<Region>, p: nat)
    requires k <= |ds| && Faithful(ds, k, rs) && Tidy(rs) && Offered(rs, p)
    ensures exists i :: 0 <= i < k && ds[i].typ == CONVENTIONAL && InDescriptor(ds[i], p * PAGE)
  {
    var i :| 0 <= i < |rs| && Offers(rs[i], p);
    assert InRegion(rs[i], p * PAGE);
    assert Mapped(rs, p * PAGE, 1);
    assert Described(ds, k, p * PAGE, 1);
  }

  /** And every page the firmware calls conventional, if its descriptor was kept, lies in a usable region and is
      offered if that region starts at or above 1 MiB. */
  lemma ConventionalIsOffered(ds: seq<Descriptor>, k: nat, rs: seq<Region>, i: nat, p: nat)
    requires k <= |ds| && Faithful(ds, k, rs) && Tidy(rs) && i < k
    requires ds[i].typ == CONVENTIONAL && InDescriptor(ds[i], p * PAGE)
    ensures exists j :: 0 <= j < |rs| && rs[j].typ == 1 && InRegion(rs[j], p * PAGE) &&
                        (rs[j].base >= 0x10_0000 ==> Offered(rs, p))
  {
    assert KindOf(ds[i]) == 1;
    assert Described(ds, k, p * PAGE, 1);
    assert Mapped(rs, p * PAGE, 1);
    var j :| 0 <= j < |rs| && InRegion(rs[j], p * PAGE) && rs[j].typ == 1;
    InsideRegion(rs[j].base, rs[j].len, p);
    assert rs[j].base >= 0x10_0000 ==> Offers(rs[j], p);
  }

  lemma InsideRegion(base: nat, len: nat, p: nat)
    requires base % PAGE == 0 && len % PAGE == 0 && base <= p * PAGE < base + len
    ensures base / PAGE <= p < (base + len) / PAGE
  {
    assert base == base / PAGE * PAGE && len == len / PAGE * PAGE;
  }

  class Allocator {
    var bits: array<bool>
    var total: nat
    var free: nat
    /** The pages this allocator was given at boot. */
    ghost var managed: set<nat>

    /** The counter is the number of clear bits, and only managed pages are clear. */
    ghost predicate Valid()
      reads this, bits
    {
      && bits.Length == MAX_PAGES
      && free == Clear(bits[..], 0, MAX_PAGES)
      && forall p :: 0 <= p < MAX_PAGES && !bits[p] ==> p in managed
    }

    constructor ()
      ensures bits.Length == MAX_PAGES && fresh(bits)
    {
      bits := new bool[MAX_PAGES](_ => false);
      total, free, managed := 0, 0, {};
    }

    /** Everything used, then the usable regions freed. */
    method Init(rs: seq<Region>)
      requires bits.Length == MAX_PAGES && Tidy(rs)
      modifies this`total, this`free, this`managed, bits
      ensures Valid()
      ensures forall p :: 0 <= p < MAX_PAGES ==> (!bits[p] <==> Offered(rs, p))
      ensures managed == set p | 0 <= p < MAX_PAGES && Offered(rs, p)
    {
      hide Tidy, Offers;
      var w := 0;
      while w < MAX_PAGES
        invariant 0 <= w <= MAX_PAGES && forall p :: 0 <= p < w ==> bits[p]
      {
        bits[w] := true;
        w := w + 1;
      }
      total, free := 0, 0;
      ClearNone(bits[..], 0, MAX_PAGES);
      var i := 0;
      while i < |rs|
        invariant 0 <= i <= |rs| && free == Clear(bits[..], 0, MAX_PAGES)
        invariant forall p :: 0 <= p < MAX_PAGES ==> (!bits[p] <==> OfferedBelow(rs, i, p))
      {
        InitRegion(rs, i);
        i := i + 1;
      }
      managed := set p | 0 <= p < MAX_PAGES && Offered(rs, p);
    }

    method SetFree(page: nat)
      requires bits.Length == MAX_PAGES && page < MAX_PAGES && bits[page] && free == Clear(bits[..], 0, MAX_PAGES)
      modifies this`free, bits
      ensures free == Clear(bits[..], 0, MAX_PAGES) && bits[..] == old(bits[..])[page := false]
    {
      ClearReset(bits[..], 0, MAX_PAGES, page);
      bits[page] := false;
      free := free + 1;
      assert bits[..] == old(bits[..])[page := false];
    }

    method InitRegion(rs: seq<Region>, i: nat)
      requires bits.Length == MAX_PAGES && Tidy(rs) && i < |rs|
      requires free == Clear(bits[..], 0, MAX_PAGES)
      requires forall p :: 0 <= p < MAX_PAGES ==> (!bits[p] <==> OfferedBelow(rs, i, p))
      modifies this`total, this`free, bits
      ensures free == Clear(bits[..], 0, MAX_PAGES)
      ensures forall p :: 0 <= p < MAX_PAGES ==> (!bits[p] <==> OfferedBelow(rs, i + 1, p))
    {
      hide Tidy, OfferedBelow;
      var entry := rs[i];
      var first, last := entry.base / PAGE, (entry.base + entry.len) / PAGE;
      ghost var before := bits[..];
      var page := first;
      while page < last && page < MAX_PAGES
        invariant first <= page && free == Clear(bits[..], 0, MAX_PAGES)
        invariant forall p :: 0 <= p < MAX_PAGES ==> bits[p] == (before[p] && !(Offers(entry, p) && p < page))
      {
        total := total + 1;
        if entry.typ == 1 && entry.base >= ONE_MIB {
          OfferedFirst(rs, i, page);
          SetFree(page);
        }
        page := page + 1;
      }
      forall p | 0 <= p < MAX_PAGES ensures !bits[p] <==> OfferedBelow(rs, i + 1, p) {
        OfferedStep(rs, i, p);
      }
    }

    /** Claim the lowest free page: the first word that is not all ones, its first clear bit. */
    method AllocPage() returns (r: Option<nat>)
      requires Valid()
      modifies this`free, bits
      ensures Valid()
      ensures match r
        case None => (forall p :: 0 <= p < MAX_PAGES ==> old(bits[p])) && bits[..] == old(bits[..]) && free == old(free)
        case Some(a) =>
          && a % PAGE == 0
          && var p := a / PAGE;
          && p < MAX_PAGES && !old(bits[p]) && p in managed && (forall q :: 0 <= q < p ==> old(bits[q]))
          && bits[..] == old(bits[..])[p := true] && free == old(free) - 1
    {
      hide Clear;
      var i := 0;
      while i < MAX_PAGES / 64
        invariant 0 <= i <= MAX_PAGES / 64 && bits[..] == old(bits[..]) && free == old(free)
        invariant forall q :: 0 <= q < 64 * i ==> bits[..][q]
      {
        var bit := TrailingOnes(i);
        if bit < 64 {
          var page := i * 64 + bit;
          TakeBit(page);
          return Some(page * PAGE);
        }
        i := i + 1;
      }
      r := None;
    }

    method TakeBit(page: nat)
      requires Valid() && page < MAX_PAGES && !bits[page]
      modifies this`free, bits
      ensures Valid() && bits[..] == old(bits[..])[page := true] && free == old(free) - 1
    {
      ClearSet(bits[..], 0, MAX_PAGES, page);
      ClearSome(bits[..], 0, MAX_PAGES, page);
      bits[page] := true;
      free := free - 1;
      assert bits[..] == old(bits[..])[page := true];
    }

    /** Set bits at the bottom of word `i`; 64 when the word is all ones. */
    method TrailingOnes(i: nat) returns (n: nat)
      requires bits.Length == MAX_PAGES && i < MAX_PAGES / 64
      ensures n <= 64 && (forall q :: 64 * i <= q < 64 * i + n ==> bits[q]) && (n < 64 ==> !bits[64 * i + n])
    {
      n := 0;
      while n < 64 && bits[64 * i + n]
        invariant 0 <= n <= 64 && forall q :: 64 * i <= q < 64 * i + n ==> bits[q]
      {
        n := n + 1;
      }
    }

    /** Free the page at `addr`; the allocator does not check what it is given.  The counter stays right if
        and only if the page was in use (or is not tracked at all), and everything does if and only if
        the page was offered at boot, too. */
    method FreePage(addr: nat)
      requires Valid()
      modifies this`free, bits
      ensures free == Clear(bits[..], 0, MAX_PAGES) <==> addr / PAGE >= MAX_PAGES || old(bits[addr / PAGE])
      ensures Valid() <==> addr / PAGE >= MAX_PAGES || (old(bits[addr / PAGE]) && addr / PAGE in managed)
      ensures bits[..] == if addr / PAGE < MAX_PAGES then old(bits[..])[addr / PAGE := false] else old(bits[..])
      ensures free == old(free) + if addr / PAGE < MAX_PAGES then 1 else 0
    {
      var page := addr / PAGE;
      if page >= MAX_PAGES { return; }
      if bits[page] { ClearReset(bits[..], 0, MAX_PAGES, page); } else { assert bits[..][page := false] == bits[..]; }
      bits[page] := false;
      free := free + 1;
      assert bits[..] == old(bits[..])[page := false];
    }

    /** Claim the lowest run of `count` free pages. */
    method AllocContiguous(count: nat) returns (r: Option<nat>)
      requires Valid()
      modifies this`free, bits
      ensures Valid()
      ensures match r
        case None => LowestRun(old(bits[..]), count, None) && bits[..] == old(bits[..]) && free == old(free)
        case Some(a) =>
          && a % PAGE == 0 && LowestRun(old(bits[..]), count, Some(a / PAGE))
          && Claimed(old(bits[..]), bits[..], a / PAGE, count) && free == old(free) - count
          && (forall p :: a / PAGE <= p < a / PAGE + count ==> p in managed)
    {
      hide Claimed, Clear;
      ghost var before := bits[..];
      var i := 0;
      while i < MAX_PAGES
        invariant 0 <= i <= MAX_PAGES && bits[..] == before && free == old(free)
        invariant forall q: nat :: q < i ==> !RunAt(before, q, count)
        invariant count == 0 ==> i == 0
      {
        var n := FreeRun(i, count);
        if i + n >= MAX_PAGES && n < count { break; }
        if n == count {
          Claim(i, count);
          return Some(i * PAGE);
        }
        assert before[i + n];
        i := i + 1;
      }
      r := None;
    }

    /** How many of the pages `i .. i+count` are free before the first used one or the end. */
    method FreeRun(i: nat, count: nat) returns (n: nat)
      requires bits.Length == MAX_PAGES && i < MAX_PAGES
      ensures n <= count && i + n <= MAX_PAGES && (forall j :: i <= j < i + n ==> !bits[j])
      ensures n < count ==> i + n == MAX_PAGES || bits[i + n]
    {
      n := 0;
      while n < count && i + n < MAX_PAGES && !bits[i + n]
        invariant 0 <= n <= count && i + n <= MAX_PAGES && forall j :: i <= j < i + n ==> !bits[j]
      {
        n := n + 1;
      }
    }

    method Claim(i: nat, count: nat)
      requires Valid() && RunAt(bits[..], i, count)
      modifies this`free, bits
      ensures Valid() && Claimed(old(bits[..]), bits[..], i, count) && free == old(free) - count
    {
      ghost var before := bits[..];
      ClaimFits(before, i, count);
      var j := 0;
      while j < count
        invariant 0 <= j <= count && free == old(free)
        invariant forall q :: 0 <= q < MAX_PAGES ==> bits[q] == (before[q] || i <= q < i + j)
      {
        bits[i + j] := true;
        j := j + 1;
      }
      ClaimCount(before, bits[..], i, count, MAX_PAGES);
      free := free - count;
    }
  }

  /** A clear run of that length is counted. */
  lemma ClaimFits(bits: seq<bool>, p: nat, count: nat)
    requires RunAt(bits, p, count)
    ensures Clear(bits, 0, |bits|) >= count
  {
    var after := seq(|bits|, j requires 0 <= j < |bits| => bits[j] || p <= j < p + count);
    ClaimCount(bits, after, p, count, |bits|);
  }

  lemma OfferedStep(rs: seq<Region>, i: nat, p: nat)
    requires i < |rs|
    ensures OfferedBelow(rs, i + 1, p) <==> OfferedBelow(rs, i, p) || Offers(rs[i], p)
  {
  }

  lemma OfferedFirst(rs: seq<Region>, i: nat, p: nat)
    requires Tidy(rs) && i < |rs| && Offers(rs[i], p)
    ensures !OfferedBelow(rs, i, p)
  {
    forall j | 0 <= j < i ensures !Offers(rs[j], p) {
      if Offers(rs[j], p) { OffersOnce(rs, j, i, p); }
    }
  }
}
