/** How many free pages setupkvm and copyuvm take, and so when they run out. */
module VmNeed {
  import opened Common
  import opened VmCopy
  import opened VmCount
  import opened VmSpace
  import opened VmTables

  /** The page-directory slots of the kernel half: physical memory at KERNBASE, and the devices. */
  ghost function KernelSlots(): set<nat>
  {
    Range(UVPN / NENTRIES, (UVPN + PHYSTOP / PGSIZE) / NENTRIES) + Range(DEVSPACE / PGSIZE / NENTRIES, NENTRIES)
  }

  /** The directory, the page tables of the kernel half, n pages, and a page table for every 1024 of them. */
  function CopyNeed(n: nat): nat
  {
    1 + 64 + n + (n + NENTRIES - 1) / NENTRIES
  }

  ghost function SlotsUpTo(data: nat, i: nat): set<nat>
    requires i <= 4
  {
    if i == 0 then {}
    else
      var k := KernelMap(data)[i - 1];
      SlotsUpTo(data, i - 1) + if Bytes(k) >= 1 then SlotsOf(k.virt / PGSIZE, PagesIn(k.virt, Bytes(k))) else {}
  }

  lemma KernelSlotsCount()
    ensures |KernelSlots()| == 64
  {
    hide Range;
    RangeCard(512, 568);
    RangeCard(1016, 1024);
    forall i: nat
      ensures i in Range(512, 568) ==> i !in Range(1016, 1024)
    {
      RangeAt(512, 568, i);
      RangeAt(1016, 1024, i);
    }
    assert Range(512, 568) !! Range(1016, 1024);
  }

  ghost function SlotsOfRegion(data: nat, i: nat): set<nat>
    requires i < 4
  {
    match i
    case 0 => Range(512, 513)
    case 1 => Range(512, (UVPN + data / PGSIZE - 1) / NENTRIES + 1)
    case 2 => Range((UVPN + data / PGSIZE) / NENTRIES, 568)
    case _ => Range(1016, 1024)
  }

  lemma RangeSlots(data: nat, i: nat)
    requires DataOk(data) && i < 4
    ensures var k := KernelMap(data)[i];
      Bytes(k) >= 1 && PagesIn(k.virt, Bytes(k)) >= 1 && SlotsOf(k.virt / PGSIZE, PagesIn(k.virt, Bytes(k))) == SlotsOfRegion(data, i)
  {
    hide Range, Bytes, PagesIn, KernelMap;
    KmapPages(data, i);
    var k := KernelMap(data)[i];
    SlotsOfRange(k.virt / PGSIZE, PagesIn(k.virt, Bytes(k)));
  }

  lemma SlotsWithin(data: nat, i: nat)
    requires DataOk(data) && i <= 4
    ensures SlotsUpTo(data, i) <= KernelSlots() && (i == 4 ==> SlotsUpTo(data, i) == KernelSlots())
  {
    hide Range, KernelMap, Bytes, PagesIn, SlotsOf;
    var split := (UVPN + data / PGSIZE) / NENTRIES;
    assert 512 <= split < 568 && (UVPN + data / PGSIZE - 1) / NENTRIES + 1 <= split + 1 && split <= (UVPN + data / PGSIZE - 1) / NENTRIES + 1;
    RangeSlots(data, 0);
    RangeSlots(data, 1);
    RangeSlots(data, 2);
    RangeSlots(data, 3);
    forall j: nat
      ensures (j in Range(512, 513) <==> j == 512) && (j in Range(512, 568) <==> 512 <= j < 568)
      ensures j in Range(512, (UVPN + data / PGSIZE - 1) / NENTRIES + 1) <==> 512 <= j < (UVPN + data / PGSIZE - 1) / NENTRIES + 1
      ensures j in Range(split, 568) <==> split <= j < 568
    {
      RangeAt(512, 513, j);
      RangeAt(512, 568, j);
      RangeAt(512, (UVPN + data / PGSIZE - 1) / NENTRIES + 1, j);
      RangeAt(split, 568, j);
    }
    assert SlotsUpTo(data, 0) == {};
    assert i >= 1 ==> SlotsUpTo(data, 1) == Range(512, 513);
    assert i >= 2 ==> SlotsUpTo(data, 2) == Range(512, (UVPN + data / PGSIZE - 1) / NENTRIES + 1);
    assert i >= 3 ==> SlotsUpTo(data, 3) == Range(512, 568);
    assert i >= 4 ==> SlotsUpTo(data, 4) == Range(512, 568) + Range(1016, 1024);
  }

  /** The first i ranges are paid for, and the directory. */
  ghost predicate KernelPaid(free0: nat, free: nat, D: Page, data: nat, i: nat) {
    i <= 4 && Slots(D) == SlotsUpTo(data, i) && free + |Slots(D)| + 1 == free0
  }

  lemma KernelPaidStart(free0: nat, data: nat)
    requires free0 >= 1
    ensures KernelPaid(free0, free0 - 1, ZeroPage(), data, 0)
  {
    ZeroAbsent();
    assert Slots(ZeroPage()) == {};
  }

  lemma KernelPaidNext(free0: nat, free1: nat, D1: Page, free: nat, D: Page, data: nat, i: nat)
    requires KernelPaid(free0, free1, D1, data, i) && i < 4 && DataOk(data)
    requires var k := KernelMap(data)[i]; Bytes(k) >= 1 && Paid(free1, D1, free, D, k.virt / PGSIZE, PagesIn(k.virt, Bytes(k)), 0)
    ensures KernelPaid(free0, free, D, data, i + 1)
  {
    hide Slots, KernelMap, Bytes, PagesIn, SlotsOf;
  }

  lemma NextSlot(v0: nat, n: nat)
    ensures (v0 + n) / NENTRIES in SlotsOf(v0, n + 1) && SlotsOf(v0, n) <= SlotsOf(v0, n + 1)
  {
  }

  lemma RangeNext(data: nat, i: nat)
    requires i < 4
    ensures var k := KernelMap(data)[i];
      Bytes(k) >= 1 ==> SlotsUpTo(data, i + 1) == SlotsUpTo(data, i) + SlotsOf(k.virt / PGSIZE, PagesIn(k.virt, Bytes(k)))
  {
    hide KernelMap, Bytes, PagesIn, SlotsOf;
  }

  /** mappages ran out of pages at page n of range i. */
  lemma KernelShort(free0: nat, free1: nat, D1: Page, D: Page, data: nat, i: nat, n: nat)
    requires KernelPaid(free0, free1, D1, data, i) && i < 4 && DataOk(data)
    requires var k := KernelMap(data)[i];
      && Bytes(k) >= 1 && n < PagesIn(k.virt, Bytes(k)) && Paid(free1, D1, 0, D, k.virt / PGSIZE, n, 0)
      && (k.virt / PGSIZE + n) / NENTRIES !in Slots(D)
    ensures free0 < CopyNeed(0)
  {
    hide Slots, KernelMap, Bytes, PagesIn, SlotsOf, SlotsUpTo, KernelSlots;
    var k := KernelMap(data)[i];
    var v0, slot := k.virt / PGSIZE, (k.virt / PGSIZE + n) / NENTRIES;
    SlotsOfGrow(v0, n + 1, PagesIn(k.virt, Bytes(k)));
    SlotsWithin(data, i);
    SlotsWithin(data, i + 1);
    NextSlot(v0, n);
    RangeNext(data, i);
    SubsetCard(Slots(D) + {slot}, KernelSlots());
    KernelSlotsCount();
  }

  /** d has the kernel half and the page tables of v user pages; that many free pages have gone. */
  ghost predicate CopyPaid(free0: nat, free: nat, D: Page, v: nat) {
    v <= UVPN && Slots(D) == KernelSlots() + SlotsOf(0, v) && free + CopyNeed(v) == free0
  }

  lemma CopyPaidStart(free0: nat, free: nat, D: Page, data: nat)
    requires KernelPaid(free0, free, D, data, 4) && DataOk(data)
    ensures CopyPaid(free0, free, D, 0)
  {
    hide Slots, SlotsUpTo, KernelSlots;
    SlotsWithin(data, 4);
    KernelSlotsCount();
    assert SlotsOf(0, 0) == {};
    assert KernelSlots() + {} == KernelSlots();
  }

  /** The next page needs a page table exactly if it is the first of its 1024. */
  lemma CopyExtra(D: Page, v: nat)
    requires v <= UVPN && Slots(D) == KernelSlots() + SlotsOf(0, v)
    ensures v < UVPN ==> CopyNeed(v + 1) == CopyNeed(v) + 1 + Extra(D, v)
    ensures v == UVPN ==> Extra(D, v) == 0
  {
    hide Slots, Range, SlotsOf;
    var i := v / NENTRIES;
    RangeAt(512, 568, i);
    RangeAt(1016, 1024, i);
    if v == 0 {
      NoSlots();
    } else {
      SlotsOfRange(0, v);
      RangeAt(0, (v - 1) / NENTRIES + 1, i);
    }
  }

  lemma NoSlots()
    ensures SlotsOf(0, 0) == {}
  {
  }

  lemma CopyPaidNext(free0: nat, free1: nat, D1: Page, free: nat, D: Page, v: nat)
    requires CopyPaid(free0, free1, D1, v) && v < UVPN && Paid(free1, D1, free, D, v, 1, 1)
    ensures CopyPaid(free0, free, D, v + 1)
  {
    hide Slots, KernelSlots;
    CopyExtra(D1, v);
    assert SlotsOf(v, 0) == {};
    assert SlotsOf(v, 1) == {v / NENTRIES};
    assert SlotsOf(0, v + 1) == SlotsOf(0, v) + {v / NENTRIES};
    assert Slots(D) == Slots(D1) + {v / NENTRIES};
  }

  lemma PaidUp(free0: nat, free: nat, D: Page)
    requires CopyPaid(free0, free, D, 0)
    ensures free0 >= CopyNeed(0)
  {
  }

  /** What copyuvm comes to, from the parent's pages and the number of free pages alone. */
  ghost function CopyOutcome(mem: Mem, pd: nat, sz: nat, free: nat): Copy
    requires pd < |mem|
  {
    var end := if RoundUp(sz) <= UVPN then RoundUp(sz) else UVPN;
    var m := FirstAbsent(mem, pd, 0, end);
    if free < CopyNeed(m) then OutOfMemory
    else if m < end then PanicMissing
    else if RoundUp(sz) <= UVPN then Copied(0)
    else if !Present(Lookup(mem, pd, UVPN)) then PanicMissing
    else if free < CopyNeed(m) + 1 then OutOfMemory
    else PanicRemapped
  }

  ghost predicate SameOutcome(r: Copy, c: Copy) {
    r.Copied? == c.Copied? && r.OutOfMemory? == c.OutOfMemory? && r.PanicMissing? == c.PanicMissing? && r.PanicRemapped? == c.PanicRemapped?
  }

  lemma CopyNeedGrows(n: nat, m: nat)
    requires n <= m
    ensures CopyNeed(n) <= CopyNeed(m)
  {
  }

  lemma CopyShort(mem: Mem, pd: nat, sz: nat, free0: nat)
    requires pd < |mem| && free0 < CopyNeed(0)
    ensures CopyOutcome(mem, pd, sz, free0).OutOfMemory?
  {
    hide FirstAbsent;
    var end := if RoundUp(sz) <= UVPN then RoundUp(sz) else UVPN;
    CopyNeedGrows(0, FirstAbsent(mem, pd, 0, end));
  }

  /** The loop is at page v, all pages before are there. */
  lemma CopyAt(mem: Mem, pd: nat, sz: nat, v: nat, free0: nat, free: nat, D: Page)
    requires pd < |mem| && CopyPaid(free0, free, D, v) && v <= RoundUp(sz)
    requires var end := if RoundUp(sz) <= UVPN then RoundUp(sz) else UVPN; v <= end && FirstAbsent(mem, pd, 0, end) == FirstAbsent(mem, pd, v, end)
    ensures v == RoundUp(sz) ==> CopyOutcome(mem, pd, sz, free0).Copied?
    ensures v < RoundUp(sz) && !Present(Lookup(mem, pd, v)) ==> CopyOutcome(mem, pd, sz, free0).PanicMissing?
    ensures v < RoundUp(sz) && Present(Lookup(mem, pd, v)) && free < 1 + Extra(D, v) ==> CopyOutcome(mem, pd, sz, free0).OutOfMemory?
    ensures v == UVPN < RoundUp(sz) && Present(Lookup(mem, pd, v)) && free >= 1 ==> CopyOutcome(mem, pd, sz, free0).PanicRemapped?
    ensures v < RoundUp(sz) && v < UVPN && Present(Lookup(mem, pd, v)) ==>
      var end := if RoundUp(sz) <= UVPN then RoundUp(sz) else UVPN; FirstAbsent(mem, pd, 0, end) == FirstAbsent(mem, pd, v + 1, end)
  {
    hide Slots, KernelSlots, SlotsOf, Lookup, Present, RoundUp, Extra;
    CopyExtra(D, v);
    var end := if RoundUp(sz) <= UVPN then RoundUp(sz) else UVPN;
    if v < end && Present(Lookup(mem, pd, v)) {
      CopyNeedGrows(v + 1, FirstAbsent(mem, pd, v + 1, end));
    }
  }

  /** With every page below sz there, copyuvm fails exactly for want of CopyNeed free pages. */
  lemma CopyFailsExactly(mem: Mem, pd: nat, sz: nat, free: nat)
    requires pd < |mem| && sz <= KERNBASE && forall v: nat :: v < RoundUp(sz) ==> v < VPNS && Present(Lookup(mem, pd, v))
    ensures CopyOutcome(mem, pd, sz, free).OutOfMemory? <==> free < 65 + RoundUp(sz) + (RoundUp(sz) + 1023) / 1024
    ensures CopyOutcome(mem, pd, sz, free).Copied? <==> free >= 65 + RoundUp(sz) + (RoundUp(sz) + 1023) / 1024
  {
    hide FirstAbsent, Lookup, Present;
    UserEndIs(sz);
    FirstAbsentIs(mem, pd, 0, RoundUp(sz));
  }

  /** copyuvm panics only for a page that is missing, or, above KERNBASE, on the first kernel page, and succeeds only up to KERNBASE. */
  lemma OutcomeMeans(mem: Mem, pd: nat, sz: nat, free: nat)
    requires pd < |mem|
    ensures var c := CopyOutcome(mem, pd, sz, free);
      && (c.PanicMissing? ==> exists v: nat :: v < RoundUp(sz) && v <= UVPN && !Present(Lookup(mem, pd, v)))
      && (c.PanicRemapped? ==> sz > KERNBASE && forall v: nat :: v <= UVPN ==> Present(Lookup(mem, pd, v)))
      && (c.Copied? ==> sz <= KERNBASE && forall v: nat :: v < RoundUp(sz) && v < VPNS ==> Present(Lookup(mem, pd, v)))
  {
    hide FirstAbsent, Lookup, Present, CopyNeed, RoundUp;
    UserEndIs(sz);
    var end := if RoundUp(sz) <= UVPN then RoundUp(sz) else UVPN;
    FirstAbsentIs(mem, pd, 0, end);
  }

  /** With page m the first that is missing, copyuvm panics there exactly if the pages before it could be copied. */
  lemma MissingExactly(mem: Mem, pd: nat, sz: nat, free: nat, m: nat)
    requires pd < |mem| && m < RoundUp(sz) && m <= UVPN && !Present(Lookup(mem, pd, m))
    requires forall v: nat :: v < m ==> Present(Lookup(mem, pd, v))
    ensures CopyOutcome(mem, pd, sz, free).PanicMissing? <==> free >= 65 + m + (m + 1023) / 1024
    ensures CopyOutcome(mem, pd, sz, free).OutOfMemory? <==> free < 65 + m + (m + 1023) / 1024
  {
    hide FirstAbsent, Lookup, Present;
    UserEndIs(sz);
    var end := if RoundUp(sz) <= UVPN then RoundUp(sz) else UVPN;
    FirstAbsentIs(mem, pd, 0, end);
  }

  /** With a size above KERNBASE and no page missing, the child's first kernel page stops copyuvm if the memory lasts. */
  lemma RemappedExactly(mem: Mem, pd: nat, sz: nat, free: nat)
    requires pd < |mem| && sz > KERNBASE && forall v: nat :: v <= UVPN ==> Present(Lookup(mem, pd, v))
    ensures CopyOutcome(mem, pd, sz, free).PanicRemapped? <==> free >= 66 + UVPN + UVPN / 1024
    ensures CopyOutcome(mem, pd, sz, free).OutOfMemory? <==> free < 66 + UVPN + UVPN / 1024
  {
    hide FirstAbsent, Lookup, Present;
    UserEndIs(sz);
    FirstAbsentIs(mem, pd, 0, UVPN);
  }
}
