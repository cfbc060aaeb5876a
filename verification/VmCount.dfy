/**
 How many free pages a growing address space takes: one for every page, and one for every slot of
 the page directory that had no page table yet.
 */
module VmCount {
  import opened Common
  import opened VmTables

  /** The slots of a page directory that have a page table. */
  ghost function Slots(D: Page): set<nat>
  {
    set i: nat | i < NENTRIES && Present(D[i])
  }

  /** The slots of the n pages from v0 on. */
  ghost function SlotsOf(v0: nat, n: nat): set<nat>
  {
    if n == 0 then {} else SlotsOf(v0, n - 1) + {(v0 + n - 1) / NENTRIES}
  }

  /** D0 has become D by getting the page tables for n pages from v0 on; they and `pages` more pages came off the free list. */
  ghost predicate Paid(free0: nat, D0: Page, free: nat, D: Page, v0: nat, n: nat, pages: nat) {
    && Slots(D) == Slots(D0) + SlotsOf(v0, n)
    && free + |Slots(D)| + pages == free0 + |Slots(D0)|
  }

  lemma SlotAt(D: Page, i: nat)
    ensures i in Slots(D) <==> i < NENTRIES && Present(D[i])
  {
  }

  lemma PaidNothing(free: nat, D: Page, v0: nat)
    ensures Paid(free, D, free, D, v0, 0, 0)
  {
  }

  /** The page is in reach of a page table that is there. */
  lemma PaidPresent(free: nat, D: Page, v: nat)
    requires v / NENTRIES < NENTRIES && Present(D[v / NENTRIES])
    ensures Paid(free, D, free, D, v, 1, 0)
  {
    assert SlotsOf(v, 0) == {};
    assert SlotsOf(v, 1) == {v / NENTRIES};
  }

  /** A page table is hung in. */
  lemma PaidTable(free: nat, D: Page, v: nat, e: nat)
    requires v / NENTRIES < NENTRIES && !Present(D[v / NENTRIES]) && Present(e) && free > 0
    ensures Paid(free, D, free - 1, D[v / NENTRIES := e], v, 1, 0)
  {
    hide Slots;
    var i, D' := v / NENTRIES, D[v / NENTRIES := e];
    assert SlotsOf(v, 0) == {};
    assert SlotsOf(v, 1) == {i};
    forall j: nat
      ensures j in Slots(D') <==> j in Slots(D) || j == i
    {
      SlotAt(D, j);
      SlotAt(D', j);
    }
    SlotAt(D, i);
    assert Slots(D') == Slots(D) + {i};
  }

  lemma PaidOne(free0: nat, D0: Page, free1: nat, D1: Page, free: nat, D: Page, v0: nat, n: nat, pages: nat, more: nat)
    requires Paid(free0, D0, free1, D1, v0, n, pages) && Paid(free1, D1, free, D, v0 + n, 1, more)
    ensures Paid(free0, D0, free, D, v0, n + 1, pages + more)
  {
    hide Slots;
    assert SlotsOf(v0 + n, 0) == {};
    assert SlotsOf(v0 + n, 1) == {(v0 + n) / NENTRIES};
    assert Slots(D0) + SlotsOf(v0, n) + {(v0 + n) / NENTRIES} == Slots(D0) + SlotsOf(v0, n + 1);
  }

  // ---- Need ----

  /** The free pages that the first n pages from v0 on take, each with its own frame. */
  ghost function Need(D: Page, v0: nat, n: nat): int
  {
    n + |Slots(D) + SlotsOf(v0, n)| - |Slots(D)|
  }

  /** Is one more table needed for page v? */
  ghost function Extra(D: Page, v: nat): nat
  {
    if v / NENTRIES in Slots(D) then 0 else 1
  }

  lemma {:induction false} SlotsOfGrow(v0: nat, n: nat, m: nat)
    requires n <= m
    ensures SlotsOf(v0, n) <= SlotsOf(v0, m)
    decreases m
  {
    if n < m {
      SlotsOfGrow(v0, n, m - 1);
    }
  }

  /** Where n pages are paid for: what is left, and what the next one takes. */
  lemma PaidNeed(free0: nat, D0: Page, free: nat, D: Page, v0: nat, n: nat)
    requires Paid(free0, D0, free, D, v0, n, n)
    ensures free0 == free + Need(D0, v0, n) && Need(D0, v0, n + 1) == Need(D0, v0, n) + 1 + Extra(D, v0 + n)
  {
    hide Slots;
    var i := (v0 + n) / NENTRIES;
    assert Slots(D0) + SlotsOf(v0, n + 1) == Slots(D) + {i};
    assert i in Slots(D) ==> Slots(D) + {i} == Slots(D);
  }

  /** One page and its mapping, of which n are made. */
  lemma OnePaid(free0: nat, D0: Page, free: nat, D: Page, v: nat, n: nat)
    requires free0 >= 1 && Paid(free0 - 1, D0, free, D, v, n, 0) && n <= 1
    ensures n == 1 ==> Paid(free0, D0, free, D, v, 1, 1) && free0 >= 1 + Extra(D0, v)
    ensures n == 0 ==> free == free0 - 1 && Slots(D) == Slots(D0)
  {
    hide Slots;
    assert SlotsOf(v, 0) == {};
    assert n == 1 ==> SlotsOf(v, 1) == {v / NENTRIES};
    assert Slots(D0) + {} == Slots(D0);
  }

  lemma ExtraIs(D: Page, D': Page, v: nat)
    ensures Extra(D, v) <= 1 && (Slots(D') == Slots(D) && v / NENTRIES !in Slots(D') ==> Extra(D, v) == 1)
  {
  }

  lemma NeedGrows(D: Page, v0: nat, n: nat, m: nat)
    requires n <= m
    ensures 0 <= Need(D, v0, n) <= Need(D, v0, m) && (n < m ==> Need(D, v0, n) < Need(D, v0, m))
  {
    hide Slots, SlotsOf;
    SlotsOfGrow(v0, n, m);
    SubsetCard(Slots(D), Slots(D) + SlotsOf(v0, n));
    SubsetCard(Slots(D) + SlotsOf(v0, n), Slots(D) + SlotsOf(v0, m));
  }

  // ---- Ranges of slots ----

  ghost function Range(a: nat, b: nat): set<nat>
  {
    if b <= a then {} else Range(a, b - 1) + {b - 1}
  }

  lemma {:induction false} RangeAt(a: nat, b: nat, i: nat)
    ensures i in Range(a, b) <==> a <= i < b
  {
    if a < b {
      RangeAt(a, b - 1, i);
    }
  }

  lemma {:induction false} RangeCard(a: nat, b: nat)
    requires a <= b
    ensures |Range(a, b)| == b - a
    decreases b - a
  {
    if a < b {
      RangeCard(a, b - 1);
      RangeAt(a, b - 1, b - 1);
    }
  }

  lemma {:induction false} SlotsOfRange(v0: nat, n: nat)
    requires n >= 1
    ensures SlotsOf(v0, n) == Range(v0 / NENTRIES, (v0 + n - 1) / NENTRIES + 1)
    decreases n
  {
    hide Range;
    if n == 1 {
      assert SlotsOf(v0, 0) == {};
      RangeMore(v0 / NENTRIES, v0 / NENTRIES);
    } else {
      SlotsOfRange(v0, n - 1);
      var last, before := (v0 + n - 1) / NENTRIES, (v0 + n - 2) / NENTRIES;
      assert before <= last <= before + 1 && v0 / NENTRIES <= before;
      RangeMore(v0 / NENTRIES, before);
      RangeMore(v0 / NENTRIES, last);
      RangeAt(v0 / NENTRIES, before + 1, last);
    }
  }

  lemma RangeMore(a: nat, b: nat)
    requires a <= b
    ensures Range(a, b + 1) == Range(a, b) + {b} && Range(a, a) == {}
  {
  }

  // ---- The first page that is mapped already ----

  function FirstPresent(mem: Mem, d: nat, v: nat, end: nat): (u: nat)
    requires d < |mem| && v <= end <= VPNS
    ensures v <= u <= end
    decreases end - v
  {
    if v < end && !Present(Lookup(mem, d, v)) then FirstPresent(mem, d, v + 1, end) else v
  }

  /** The first page that is missing. */
  function FirstAbsent(mem: Mem, d: nat, v: nat, end: nat): (u: nat)
    requires d < |mem| && v <= end <= VPNS
    ensures v <= u <= end
    decreases end - v
  {
    if v < end && Present(Lookup(mem, d, v)) then FirstAbsent(mem, d, v + 1, end) else v
  }

  lemma {:induction false} FirstPresentIs(mem: Mem, d: nat, v: nat, end: nat)
    requires d < |mem| && v <= end <= VPNS
    ensures forall x: nat :: v <= x < FirstPresent(mem, d, v, end) ==> !Present(Lookup(mem, d, x))
    ensures FirstPresent(mem, d, v, end) < end ==> Present(Lookup(mem, d, FirstPresent(mem, d, v, end)))
    decreases end - v
  {
    if v < end && !Present(Lookup(mem, d, v)) {
      FirstPresentIs(mem, d, v + 1, end);
    }
  }

  lemma {:induction false} FirstAbsentIs(mem: Mem, d: nat, v: nat, end: nat)
    requires d < |mem| && v <= end <= VPNS
    ensures forall x: nat :: v <= x < FirstAbsent(mem, d, v, end) ==> Present(Lookup(mem, d, x))
    ensures FirstAbsent(mem, d, v, end) < end ==> !Present(Lookup(mem, d, FirstAbsent(mem, d, v, end)))
    decreases end - v
  {
    if v < end && Present(Lookup(mem, d, v)) {
      FirstAbsentIs(mem, d, v + 1, end);
    }
  }

  // ---- What becomes of a growth ----

  datatype Outcome = Fits | OutOfPages | MeetsMapped

  /** allocuvm of the pages from .. end, with that many free pages: it stops at a page that is mapped already, or when the pages run out. */
  ghost function GrowOutcome(mem: Mem, d: nat, from: nat, end: nat, free: nat): Outcome
    requires d < |mem| && from <= end <= VPNS
  {
    var m := FirstPresent(mem, d, from, end);
    var need := Need(mem[d], from, m - from);
    if m == end then (if free < need then OutOfPages else Fits)
    else if free < need + 1 then OutOfPages else MeetsMapped
  }

  lemma GrowAt(mem: Mem, d: nat, from: nat, v: nat, end: nat, free0: nat, free: nat, D: Page)
    requires d < |mem| && from <= v <= end <= VPNS && FirstPresent(mem, d, from, end) == FirstPresent(mem, d, v, end)
    requires Paid(free0, mem[d], free, D, from, v - from, v - from)
    ensures v == end ==> GrowOutcome(mem, d, from, end, free0) == Fits
    ensures v < end && Present(Lookup(mem, d, v)) ==> GrowOutcome(mem, d, from, end, free0) == if free < 1 then OutOfPages else MeetsMapped
    ensures v < end && !Present(Lookup(mem, d, v)) ==> FirstPresent(mem, d, from, end) == FirstPresent(mem, d, v + 1, end)
    ensures v < end && !Present(Lookup(mem, d, v)) && free < 1 + Extra(D, v) ==> GrowOutcome(mem, d, from, end, free0) == OutOfPages
  {
    hide Paid, Need, Extra, Lookup, Present;
    PaidNeed(free0, mem[d], free, D, from, v - from);
    if v < end && !Present(Lookup(mem, d, v)) {
      NeedGrows(mem[d], from, v + 1 - from, FirstPresent(mem, d, v + 1, end) - from);
    }
  }
}
