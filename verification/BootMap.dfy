/** The boot loader's conversion of the firmware memory map: adjacent descriptors of
    the same kind are merged, up to 128 regions. */
module BootMap {

  const PAGE: nat := 4096
  const MAX_MEMMAP: nat := 128
  const CONVENTIONAL: nat := 7
  const U64: nat := 0x1_0000_0000_0000_0000

  /** A firmware descriptor: `pages` pages of kind `typ` from physical address `start`. */
  datatype Descriptor = Descriptor(typ: nat, start: nat, pages: nat)

  /** A region handed to the kernel: `typ` 1 is usable memory. */
  datatype Region = Region(base: nat, len: nat, typ: nat)

  ghost predicate InDescriptor(d: Descriptor, a: nat) { d.start <= a < d.start + d.pages * PAGE }
  ghost predicate InRegion(r: Region, a: nat) { r.base <= a < r.base + r.len }

  /** Descriptors as firmware reports them: page-aligned, within 64 bits, disjoint. */
  ghost predicate Reported(ds: seq<Descriptor>) {
    && (forall i :: 0 <= i < |ds| ==> ds[i].start % PAGE == 0 && ds[i].start + ds[i].pages * PAGE < U64)
    && (forall i, j, a :: 0 <= i < j < |ds| && InDescriptor(ds[i], a) ==> !InDescriptor(ds[j], a))
  }

  function KindOf(d: Descriptor): nat { if d.typ == CONVENTIONAL then 1 else 0 }

  /** One of the first `k` descriptors reports address `a`, as kind `typ`. */
  ghost predicate Described(ds: seq<Descriptor>, k: nat, a: nat, typ: nat)
    requires k <= |ds|
  {
    exists i :: 0 <= i < k && InDescriptor(ds[i], a) && KindOf(ds[i]) == typ
  }

  /** A region of kind `typ` contains address `a`. */
  ghost predicate Mapped(rs: seq<Region>, a: nat, typ: nat) {
    exists i :: 0 <= i < |rs| && InRegion(rs[i], a) && rs[i].typ == typ
  }

  /** Regions are page-aligned and disjoint. */
  ghost predicate Tidy(rs: seq<Region>) {
    && (forall i :: 0 <= i < |rs| ==> rs[i].base % PAGE == 0 && rs[i].len % PAGE == 0 && rs[i].typ <= 1)
    && (forall i, j, a :: 0 <= i < j < |rs| && InRegion(rs[i], a) ==> !InRegion(rs[j], a))
  }

  /** The map so far says of every address what the first `k` descriptors say. */
  ghost predicate Faithful(ds: seq<Descriptor>, k: nat, rs: seq<Region>)
    requires k <= |ds|
  {
    forall a, typ {:trigger Mapped(rs, a, typ)} {:trigger Described(ds, k, a, typ)} :: Mapped(rs, a, typ) <==>
      Described(ds, k, a, typ)
  }

  lemma DescribedStep(ds: seq<Descriptor>, k: nat, a: nat, typ: nat)
    requires k < |ds|
    ensures Described(ds, k + 1, a, typ) <==>
      Described(ds, k, a, typ) || (InDescriptor(ds[k], a) && KindOf(ds[k]) == typ)
  {
  }

  /** A region grown by the adjacent descriptor contains what both contained. */
  lemma GrowMapped(rs: seq<Region>, d: Descriptor, rs': seq<Region>, a: nat, typ: nat)
    requires |rs| > 0 && rs[|rs| - 1].typ == KindOf(d) && rs[|rs| - 1].base + rs[|rs| - 1].len == d.start
    requires rs' == rs[|rs| - 1 := rs[|rs| - 1].(len := rs[|rs| - 1].len + d.pages * PAGE)]
    ensures Mapped(rs', a, typ) <==> Mapped(rs, a, typ) || (InDescriptor(d, a) && KindOf(d) == typ)
  {
    var n := |rs| - 1;
    assert InRegion(rs'[n], a) <==> InRegion(rs[n], a) || InDescriptor(d, a);
    if Mapped(rs, a, typ) {
      var i :| 0 <= i < |rs| && InRegion(rs[i], a) && rs[i].typ == typ;
      assert InRegion(rs'[i], a) && rs'[i].typ == typ;
    }
    if Mapped(rs', a, typ) {
      var i :| 0 <= i < |rs'| && InRegion(rs'[i], a) && rs'[i].typ == typ;
      assert i < n ==> InRegion(rs[i], a);
    }
  }

  lemma AddMapped(rs: seq<Region>, d: Descriptor, rs': seq<Region>, a: nat, typ: nat)
    requires rs' == rs + [Region(d.start, d.pages * PAGE, KindOf(d))]
    ensures Mapped(rs', a, typ) <==> Mapped(rs, a, typ) || (InDescriptor(d, a) && KindOf(d) == typ)
  {
    var n := |rs|;
    assert InRegion(rs'[n], a) <==> InDescriptor(d, a);
    if Mapped(rs, a, typ) {
      var i :| 0 <= i < |rs| && InRegion(rs[i], a) && rs[i].typ == typ;
      assert InRegion(rs'[i], a) && rs'[i].typ == typ;
    }
  }

  /** The next descriptor is disjoint from every region made so far. */
  lemma Apart(ds: seq<Descriptor>, k: nat, rs: seq<Region>, i: nat, a: nat)
    requires Reported(ds) && k < |ds| && Faithful(ds, k, rs) && i < |rs| && InRegion(rs[i], a)
    ensures !InDescriptor(ds[k], a)
  {
    assert Mapped(rs, a, rs[i].typ);
    assert Described(ds, k, a, rs[i].typ);
  }

  lemma GrowTidy(ds: seq<Descriptor>, k: nat, rs: seq<Region>, rs': seq<Region>)
    requires Reported(ds) && k < |ds| && Faithful(ds, k, rs) && Tidy(rs)
    requires |rs| > 0 && rs[|rs| - 1].typ == KindOf(ds[k]) && rs[|rs| - 1].base + rs[|rs| - 1].len == ds[k].start
    requires rs' == rs[|rs| - 1 := rs[|rs| - 1].(len := rs[|rs| - 1].len + ds[k].pages * PAGE)]
    ensures Faithful(ds, k + 1, rs') && Tidy(rs')
  {
    var n := |rs| - 1;
    forall a, typ ensures Mapped(rs', a, typ) <==> Described(ds, k + 1, a, typ) {
      GrowMapped(rs, ds[k], rs', a, typ);
      DescribedStep(ds, k, a, typ);
    }
    forall i, j, a | 0 <= i < j < |rs'| && InRegion(rs'[i], a) ensures !InRegion(rs'[j], a) {
      assert InRegion(rs[i], a);
      Apart(ds, k, rs, i, a);
      assert !InRegion(rs[j], a);
    }
  }

  lemma AddTidy(ds: seq<Descriptor>, k: nat, rs: seq<Region>, rs': seq<Region>)
    requires Reported(ds) && k < |ds| && Faithful(ds, k, rs) && Tidy(rs)
    requires rs' == rs + [Region(ds[k].start, ds[k].pages * PAGE, KindOf(ds[k]))]
    ensures Faithful(ds, k + 1, rs') && Tidy(rs')
  {
    forall a, typ ensures Mapped(rs', a, typ) <==> Described(ds, k + 1, a, typ) {
      AddMapped(rs, ds[k], rs', a, typ);
      DescribedStep(ds, k, a, typ);
    }
    forall i, j, a | 0 <= i < j < |rs'| && InRegion(rs'[i], a) ensures !InRegion(rs'[j], a) {
      assert InRegion(rs[i], a);
      Apart(ds, k, rs, i, a);
    }
  }

  /** Convert the firmware map.  The first `k` descriptors are kept: all of them, unless
      128 regions were not enough.  Every address has the kind those descriptors give it. */
  method Merge(ds: seq<Descriptor>) returns (rs: seq<Region>, ghost k: nat)
    requires Reported(ds)
    ensures |rs| <= MAX_MEMMAP && k <= |ds| && (k == |ds| || |rs| == MAX_MEMMAP)
    ensures Faithful(ds, k, rs) && Tidy(rs)
  {
    hide Faithful, Tidy;
    rs := [];
    var i := 0;
    EmptyMap(ds);
    while i < |ds|
      invariant 0 <= i <= |ds| && |rs| <= MAX_MEMMAP && Faithful(ds, i, rs) && Tidy(rs)
    {
      var d := ds[i];
      var typ := KindOf(d);
      var len := d.pages * PAGE;
      var n := |rs|;
      ghost var before := rs;
      if n > 0 && rs[n - 1].typ == typ && rs[n - 1].base + rs[n - 1].len == d.start {
        rs := rs[n - 1 := rs[n - 1].(len := rs[n - 1].len + len)];
        GrowTidy(ds, i, before, rs);
      } else {
        if n >= MAX_MEMMAP { break; }
        rs := rs + [Region(d.start, len, typ)];
        AddTidy(ds, i, before, rs);
      }
      i := i + 1;
    }
    k := i;
  }

  lemma EmptyMap(ds: seq<Descriptor>)
    ensures Faithful(ds, 0, []) && Tidy([])
  {
  }
}
