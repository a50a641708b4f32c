/** Counting the clear bits of a bitmap. */
module BitCount {

  function Clear(bits: seq<bool>, lo: nat, hi: nat): nat
    requires hi <= |bits|
    decreases hi
  {
    if hi <= lo then 0 else Clear(bits, lo, hi - 1) + if bits[hi - 1] then 0 else 1
  }

  lemma {:induction false} ClearSame(a: seq<bool>, b: seq<bool>, lo: nat, hi: nat)
    requires hi <= |a| && hi <= |b| && forall i :: lo <= i < hi ==> a[i] == b[i]
    ensures Clear(a, lo, hi) == Clear(b, lo, hi)
    decreases hi
  {
    if lo < hi { ClearSame(a, b, lo, hi - 1); }
  }

  /** Setting a clear bit lowers the count by one. */
  lemma {:induction false} ClearSet(bits: seq<bool>, lo: nat, hi: nat, i: nat)
    requires lo <= i < hi <= |bits| && !bits[i]
    ensures Clear(bits[i := true], lo, hi) == Clear(bits, lo, hi) - 1
    decreases hi
  {
    if i == hi - 1 { ClearSame(bits, bits[i := true], lo, hi - 1); } else { ClearSet(bits, lo, hi - 1, i); }
  }

  /** Clearing a set bit raises the count by one. */
  lemma ClearReset(bits: seq<bool>, lo: nat, hi: nat, i: nat)
    requires lo <= i < hi <= |bits| && bits[i]
    ensures Clear(bits[i := false], lo, hi) == Clear(bits, lo, hi) + 1
  {
    ClearSet(bits[i := false], lo, hi, i);
    assert bits[i := false][i := true] == bits;
  }

  lemma {:induction false} ClearNone(bits: seq<bool>, lo: nat, hi: nat)
    requires hi <= |bits| && forall i :: lo <= i < hi ==> bits[i]
    ensures Clear(bits, lo, hi) == 0
    decreases hi
  {
    if lo < hi { ClearNone(bits, lo, hi - 1); }
  }

  lemma {:induction false} ClearSome(bits: seq<bool>, lo: nat, hi: nat, i: nat)
    requires lo <= i < hi <= |bits| && !bits[i]
    ensures Clear(bits, lo, hi) > 0
    decreases hi
  {
    if i < hi - 1 { ClearSome(bits, lo, hi - 1, i); }
  }

  /** The clear bits and the set ones are all of them. */
  lemma {:induction false} ClearCount(bits: seq<bool>, lo: nat, hi: nat, marked: set<nat>)
    requires lo <= hi <= |bits| && forall i :: i in marked <==> lo <= i < hi && bits[i]
    ensures Clear(bits, lo, hi) + |marked| == hi - lo
    decreases hi
  {
    if lo == hi {
      assert marked == {};
    } else {
      ClearCount(bits, lo, hi - 1, marked - {hi - 1});
      if bits[hi - 1] { assert marked == marked - {hi - 1} + {hi - 1}; } else { assert marked == marked - {hi - 1}; }
    }
  }
}
