/**
 kalloc.c and the user half of vm.c: page tables are built and torn down out of one pool of
 pages, and on every path, out-of-memory ones included, the free list, the pages of all page
 directories and the pages that others hold stay a partition of the same pool.
 */
module Vm {
  import opened Common
  import opened VmTables
  import opened VmCopy
  import opened VmCount
  import opened VmGrow
  import opened VmNeed
  import opened VmSpace

  class Machine {
    const lo: nat
    const data: nat
    var mem: Mem
    var free: seq<nat>
    ghost var dirs: set<nat>
    ghost var owner: Owners
    ghost var held: set<nat>
    ghost var pool: set<nat>

    ghost predicate Ok()
      reads this
    {
      MachineOk(lo, mem, dirs, owner, free, held, pool)
    }

    /** kinit: every page from vstart up to vend goes to the free list. */
    constructor (memory: Mem, vstart: nat, vend: nat, dataStart: nat)
      requires 0 < vstart <= vend <= |memory|
      ensures Ok() && lo == vstart && data == dataStart && |mem| == |memory|
      ensures dirs == {} && owner == map[] && held == {} && forall b :: b in free <==> vstart <= b < vend
    {
      lo := vstart;
      data := dataStart;
      mem := memory;
      free := [];
      dirs, owner, held, pool := {}, map[], {}, {};
      new;
      var p := vstart;
      while p < vend
        invariant vstart <= p <= vend && |mem| == |memory|
        invariant Distinct(free) && (forall b :: b in free <==> vstart <= b < p) && forall b :: b in pool <==> vstart <= b < p
        invariant lo == vstart && data == dataStart && dirs == {} && owner == map[] && held == {}
      {
        assert forall j :: 0 <= j < |free| ==> free[j] in free;
        Kfree(p);
        pool := pool + {p};
        p := p + 1;
      }
    }

    method Kfree(b: nat)
      requires b < |mem|
      modifies `mem, `free
      ensures mem == old(mem)[b := Junk()] && free == [b] + old(free)
    {
      mem := mem[b := Junk()];
      free := [b] + free;
    }

    method Kalloc() returns (r: Option<nat>)
      modifies `free
      ensures r.None? <==> old(free) == []
      ensures r.None? ==> free == old(free)
      ensures r.Some? ==> r.value == old(free)[0] && free == old(free)[1..]
    {
      if free == [] {
        return None;
      }
      r := Some(free[0]);
      free := free[1..];
    }

    /** The table that holds the entry of page v, made on demand; nothing else changes. */
    method WalkPgdir(d: nat, v: nat, alloc: bool) returns (r: Option<nat>)
      requires Ok() && d in dirs && v < VPNS
      modifies `mem, `free, `owner
      ensures Ok() && SameLookups(old(mem), dirs, mem) && Kept(old(owner), held, old(mem), mem)
      ensures r.Some? ==> d < |mem| && Present(mem[d][v / NENTRIES]) && r.value == Frame(mem[d][v / NENTRIES]) < |mem|
      ensures r.None? ==> mem == old(mem) && free == old(free) && owner == old(owner)
      ensures r.None? <==> !Present(old(mem)[d][v / NENTRIES]) && (!alloc || old(free) == [])
      ensures Present(old(mem)[d][v / NENTRIES]) || !alloc ==> mem == old(mem) && free == old(free) && owner == old(owner)
      ensures r.Some? && !Present(old(mem)[d][v / NENTRIES]) ==> old(free) != [] && free == old(free)[1..] && r.value == old(free)[0]
      ensures r.Some? && !Present(old(mem)[d][v / NENTRIES]) ==>
        mem == old(mem)[r.value := ZeroPage()][d := old(mem)[d][v / NENTRIES := MkPte(r.value, PTE_W + PTE_U)]]
      ensures forall b :: b in old(owner) ==> b in owner && owner[b] == old(owner)[b]
      ensures forall b :: b in owner && b !in old(owner) ==> owner[b] == Table(d, v / NENTRIES)
      ensures r.Some? ==> d < |old(mem)| && Paid(|old(free)|, old(mem)[d], |free|, mem[d], v, 1, 0)
    {
      hide Owned, Accounted, SameLookups, Frame, Present, Paid;
      WalkFacts(lo, mem, dirs, owner, free, held, pool, d, v / NENTRIES);
      var pde := mem[d][v / NENTRIES];
      if Present(pde) {
        SameLookupsRefl(mem, dirs);
        PaidPresent(|free|, mem[d], v);
        return Some(Frame(pde));
      }
      if !alloc {
        SameLookupsRefl(mem, dirs);
        return None;
      }
      var t := Kalloc();
      if t.None? {
        SameLookupsRefl(mem, dirs);
        return None;
      }
      NewTable(lo, mem, dirs, owner, old(free), held, pool, d, v / NENTRIES);
      PaidTable(|old(free)|, mem[d], v, MkPte(t.value, PTE_W + PTE_U));
      mem := mem[t.value := ZeroPage()];
      mem := mem[d := mem[d][v / NENTRIES := MkPte(t.value, PTE_W + PTE_U)]];
      owner := owner[t.value := Table(d, v / NENTRIES)];
      r := t;
    }

    /** The body of mappages: one entry. */
    method MapOne(d: nat, v: nat, frame: nat, perm: nat) returns (r: MapResult)
      requires Ok() && d in dirs && v < VPNS && perm < PGSIZE && (v < UVPN ==> frame in held)
      modifies `mem, `free, `owner, `held
      ensures Ok() && Kept(old(owner), old(held), old(mem), mem)
      ensures d < |old(mem)| == |mem|
      ensures r.PanicRemap? <==> Present(Lookup(old(mem), d, v))
      ensures r.NoMemory? ==> free == [] && v / NENTRIES !in Slots(mem[d])
      ensures !r.Mapped? ==> mem == old(mem) && free == old(free) && owner == old(owner) && held == old(held) && SameLookups(old(mem), dirs, mem)
      ensures r.Mapped? ==> Paid(|old(free)|, old(mem)[d], |free|, mem[d], v, 1, 0)
      ensures r.Mapped? ==> LookupsSet(old(mem), dirs, mem, d, v, MkPte(frame, perm))
      ensures r.Mapped? ==> held == if v < UVPN then old(held) - {frame} else old(held)
      ensures UserOwners(old(owner), owner, if r.Mapped? && v < UVPN then map[frame := User(d, v)] else map[], d)
      ensures NewTables(old(owner), owner, d, v, v + 1)
    {
      hide Owned, Accounted, SameLookups, Frame, Present, MkPte, Lookup, LookupsSet, UserOwners, TableOf, Paid, Slots;
      TableHere(d, v);
      LookupPresent(lo, mem, dirs, owner, free, held, pool, d, v);
      SlotAt(mem[d], v / NENTRIES);
      var t := WalkPgdir(d, v, true);
      LookupSame(old(mem), dirs, mem, d, v);
      UserOwnersGrow(old(owner), owner, d);
      if t.None? {
        return NoMemory;
      }
      LookupTable(mem, d, v);
      if Present(mem[t.value][v % NENTRIES]) {
        return PanicRemap;
      }
      StorePte(lo, mem, dirs, owner, free, held, pool, d, v, frame, perm);
      SetAfterSame(old(mem), dirs, mem, mem[t.value := mem[t.value][v % NENTRIES := MkPte(frame, perm)]], d, v, MkPte(frame, perm));
      mem := mem[t.value := mem[t.value][v % NENTRIES := MkPte(frame, perm)]];
      if v < UVPN {
        UserOwnersAdd(old(owner), owner, frame, User(d, v), d);
        owner := owner[frame := User(d, v)];
        held := held - {frame};
      }
      r := Mapped;
    }

    /** The body of deallocuvm for a present entry: kfree, then clear the entry. */
    method UnmapOne(d: nat, v: nat)
      requires Ok() && d in dirs && v < UVPN && d < |mem| && Present(Lookup(mem, d, v))
      modifies `mem, `free, `owner
      ensures Ok() && |mem| == |old(mem)| && LookupsSet(old(mem), dirs, mem, d, v, 0)
      ensures free == [Frame(Lookup(old(mem), d, v))] + old(free)
      ensures owner == old(owner) - {Frame(Lookup(old(mem), d, v))} && Kept(owner, held, old(mem), mem)
      ensures Frame(Lookup(old(mem), d, v)) in old(owner) && old(owner)[Frame(Lookup(old(mem), d, v))] == User(d, v)
    {
      hide Owned, Accounted, Frame, Present, LookupsSet;
      var t := Frame(mem[d][v / NENTRIES]);
      EraseMapping(lo, mem, dirs, owner, free, held, pool, d, v);
      var b := Frame(mem[t][v % NENTRIES]);
      Kfree(b);
      mem := mem[t := mem[t][v % NENTRIES := 0]];
      owner := owner - {b};
    }

    /** Unmaps and frees the user pages from newsz up to oldsz, skipping absent tables; the first kernel page makes it panic. */
    method DeallocUvm(d: nat, oldsz: nat, newsz: nat) returns (r: Shrink)
      requires Ok() && d in dirs
      requires newsz < oldsz && oldsz > KERNBASE ==> newsz <= KERNBASE && KernelAtZero(mem, d)
      modifies `mem, `free, `owner
      ensures r == if newsz >= oldsz then Shrunk(oldsz) else if oldsz > KERNBASE then PanicKfree else Shrunk(newsz)
      ensures Ok() && |mem| == |old(mem)| && Kept(owner, held, old(mem), mem)
      ensures Cleared(old(mem), dirs, mem, d, RoundUp(newsz), UserEnd(oldsz))
      ensures OnlyLoses(old(owner), owner, d, RoundUp(newsz), UserEnd(oldsz))
      ensures newsz >= oldsz ==> mem == old(mem) && free == old(free) && owner == old(owner)
    {
      hide Owned, Accounted, Frame, Present, Lookup, LookupsSet, Cleared, SameLookups, NonePresent, RoundUp, UserEnd,
        OnlyLoses;
      ghost var from, to := RoundUp(newsz), UserEnd(oldsz);
      RoundUpMonotone(oldsz, newsz);
      UserEndIs(oldsz);
      UserEndIs(newsz);
      ClearedNone(lo, mem, dirs, owner, free, held, pool, d, from, to);
      LosesNone(owner, d, from, to);
      if newsz >= oldsz {
        return Shrunk(oldsz);
      }
      WalkFacts(lo, mem, dirs, owner, free, held, pool, d, 0);
      var a := RoundUp(newsz) * PGSIZE;
      ghost var v := from;
      while a < oldsz
        invariant a == v * PGSIZE && from <= v <= UVPN
        invariant Ok() && |mem| == |old(mem)| && Kept(owner, held, old(mem), mem)
        invariant Cleared(old(mem), dirs, mem, d, from, v) && NonePresent(old(mem), d, to, v)
        invariant OnlyLoses(old(owner), owner, d, from, to)
      {
        if v == UVPN {
          AtKernel(lo, old(mem), mem, dirs, owner, free, held, pool, d, from, a);
        } else {
          PageOf(a, v, oldsz);
        }
        WalkFacts(lo, mem, dirs, owner, free, held, pool, d, v / NENTRIES);
        var pte := WalkPgdir(d, a / PGSIZE, false);
        if pte.None? {
          ClearedSkip(old(mem), dirs, mem, d, from, v, to);
          a := (a / PGSIZE / NENTRIES + 1) * NENTRIES * PGSIZE - PGSIZE;
          v := (v / NENTRIES + 1) * NENTRIES;
        } else {
          LookupTable(mem, d, v);
          ghost var mem1, owner1 := mem, owner;
          if Present(mem[pte.value][a / PGSIZE % NENTRIES]) {
            if Frame(mem[pte.value][a / PGSIZE % NENTRIES]) == 0 {
              NotZero(lo, mem, dirs, owner, free, held, pool, d, v);
              return PanicKfree;
            }
            UnmapOne(d, a / PGSIZE);
            LosesOne(old(owner), owner1, owner, d, from, v, to, Frame(Lookup(mem1, d, v)));
          }
          ClearedNext(old(mem), dirs, mem1, mem, d, from, v, to);
          v := v + 1;
        }
        a := a + PGSIZE;
      }
      PastEnd(v, oldsz);
      ClearedEnd(old(mem), dirs, mem, d, from, v, to);
      r := Shrunk(newsz);
    }

    /** Maps the pages from va to va + size - 1 to consecutive frames from pa on; the first n are mapped. */
    method MapPages(d: nat, va: nat, size: nat, pa: nat, perm: nat) returns (r: MapResult, ghost n: nat)
      requires Ok() && d in dirs && size >= 1 && va + size <= ADDRS && pa % PGSIZE == 0 && perm < PGSIZE
      requires Brought(held, va / PGSIZE, pa / PGSIZE, PagesIn(va, size))
      modifies `mem, `free, `owner, `held
      ensures Ok() && d < |old(mem)| == |mem| && Kept(old(owner), old(held), old(mem), mem)
      ensures n <= PagesIn(va, size) && (r.Mapped? <==> n == PagesIn(va, size)) && va / PGSIZE + PagesIn(va, size) <= VPNS
      ensures LookupsMapped(old(mem), dirs, mem, d, va / PGSIZE, n, pa / PGSIZE, perm)
      ensures NonePresent(old(mem), d, va / PGSIZE, va / PGSIZE + n)
      ensures r.NoMemory? ==> free == [] && (va / PGSIZE + n) / NENTRIES !in Slots(mem[d])
      ensures Paid(|old(free)|, old(mem)[d], |free|, mem[d], va / PGSIZE, n, 0)
      ensures !r.Mapped? ==> (r.PanicRemap? <==> Present(Lookup(old(mem), d, va / PGSIZE + n)))
      ensures HandedOver(old(owner), old(held), owner, held, d, va / PGSIZE, pa / PGSIZE, n)
      ensures NewTables(old(owner), owner, d, va / PGSIZE, va / PGSIZE + PagesIn(va, size))
    {
      hide Owned, Accounted, Frame, Present, MkPte, Lookup, LookupsSet, LookupsMapped, SameLookups, NonePresent,
        UserOwners, Kept, PagesIn, NewTables, UserFrames, HandedOver, Brought, Paid, Slots;
      ghost var v0, f0, N := va / PGSIZE, pa / PGSIZE, PagesIn(va, size);
      RangeFacts(va, size);
      MapStart(lo, mem, dirs, owner, free, held, pool, d, v0, f0, perm);
      HandedNone(owner, held, d, v0, f0);
      PaidNothing(|free|, mem[d], v0);
      var a := va / PGSIZE * PGSIZE;
      var last := (va + size - 1) / PGSIZE * PGSIZE;
      var frame := pa / PGSIZE;
      n := 0;
      while true
        invariant n < N && a == (v0 + n) * PGSIZE && frame == f0 + n && d < |mem|
        invariant Paid(|old(free)|, old(mem)[d], |free|, mem[d], v0, n, 0)
        invariant Ok() && |mem| == |old(mem)| && Kept(old(owner), old(held), old(mem), mem)
        invariant LookupsMapped(old(mem), dirs, mem, d, v0, n, f0, perm) && NonePresent(old(mem), d, v0, v0 + n)
        invariant HandedOver(old(owner), old(held), owner, held, d, v0, f0, n) && NewTables(old(owner), owner, d, v0, v0 + n)
        decreases N - n
      {
        ghost var mem1, owner1, held1, free1 := mem, owner, held, free;
        MapAt(a, v0 + n, va, N);
        StillHeld(old(owner), old(held), owner, held, d, v0, f0, n, N);
        r := MapOne(d, a / PGSIZE, frame, perm);
        MapKeeps(old(mem), mem1, mem, dirs, d, v0, n, f0, perm, r);
        TablesWiden(old(owner), owner1, owner, if r.Mapped? && v0 + n < UVPN then map[frame := User(d, v0 + n)] else map[], d, v0, v0 + n, v0 + N);
        HandedOne(old(owner), old(held), owner1, held1, owner, held, d, v0, f0, n, r.Mapped?);
        HandedKept(old(owner), old(held), owner1, held1, old(mem), mem1, mem, d, v0, f0, n);
        if !r.Mapped? {
          return;
        }
        PaidOne(|old(free)|, old(mem)[d], |free1|, mem1[d], |free|, mem[d], v0, n, 0, 0);
        n := n + 1;
        if a == last {
          break;
        }
        a := a + PGSIZE;
        frame := frame + 1;
      }
    }

    /** Returns every page of d's footprint to the free list, each exactly once, and nothing else. */
    method FreeVm(d: nat)
      requires Ok() && d in dirs
      modifies this
      ensures Ok() && dirs == old(dirs) - {d} && held == old(held) && pool == old(pool)
      ensures owner == Without(old(owner), d) && |mem| == |old(mem)|
      ensures Distinct(free) && forall b :: b in free <==> b in old(free) || (b in old(owner) && old(owner)[b].d == d)
      ensures SameLookups(old(mem), dirs, mem) && Kept(owner, held, old(mem), mem)
    {
      hide Owned, Accounted, Frame, Present, Lookup, Cleared, Distinct, SameLookups, Kept, Without, Remaining, Junk,
        UserEnd, RoundUp;
      var r := DeallocUvm(d, KERNBASE, 0);
      UserEndIs(KERNBASE);
      WithoutSame(old(owner), owner, d, RoundUp(0), UserEnd(KERNBASE));
      Detach(lo, old(mem), mem, dirs, owner, free, held, pool, d);
      ghost var D, owner1 := mem[d], owner;
      dirs := dirs - {d};
      owner := Without(owner, d);
      held := held + Remaining(D, d, 0);
      ghost var mem1 := mem;
      var i := 0;
      while i < NENTRIES
        invariant i <= NENTRIES && Ok() && |mem| == |mem1| && mem[d] == D
        invariant dirs == old(dirs) - {d} && owner == Without(old(owner), d) && pool == old(pool)
        invariant held == old(held) + Remaining(D, d, i)
        invariant SameLookups(mem1, dirs, mem) && Kept(owner, old(held), mem1, mem)
      {
        RemainingNext(D, d, i);
        RemainingSubset(D, d, i);
        if Present(mem[d][i]) {
          FreeHeld(lo, mem1, mem, dirs, owner, free, held, pool, Frame(mem[d][i]), old(held));
          held := held - {Frame(mem[d][i])};
          Kfree(Frame(mem[d][i]));
        }
        i := i + 1;
      }
      RemainingLast(D, d);
      RemainingSubset(D, d, NENTRIES);
      FreeHeld(lo, mem1, mem, dirs, owner, free, held, pool, d, old(held));
      held := held - {d};
      Kfree(d);
      FreedLookups(old(mem), mem1, mem, old(dirs), d, owner1, owner, held);
      FreedExactly(old(free), old(owner), free, owner, held, pool, d);
    }

    /** One more page with the given contents: kalloc, fill, mappages. */
    method NewPage(d: nat, v: nat, contents: Page, perm: nat) returns (p: Option<nat>, r: MapResult)
      requires Ok() && d in dirs && v < VPNS && perm < PGSIZE
      modifies `mem, `free, `owner, `held
      ensures Ok() && Kept(old(owner), old(held), old(mem), mem) && d < |old(mem)| == |mem|
      ensures p.None? ==> r.NoMemory? && mem == old(mem) && free == old(free) == [] && owner == old(owner) && held == old(held)
      ensures p.Some? ==> p.value < |mem| && p.value !in old(held) && p.value !in old(owner) && p.value !in dirs
      ensures held == if p.Some? && !(r.Mapped? && v < UVPN) then old(held) + {p.value} else old(held)
      ensures r.NoMemory? <==> |old(free)| < 1 + if Present(Lookup(old(mem), d, v)) then 0 else Extra(old(mem)[d], v)
      ensures r.Mapped? ==> Paid(|old(free)|, old(mem)[d], |free|, mem[d], v, 1, 1)
      ensures !r.Mapped? ==> SameLookups(old(mem), dirs, mem)
      ensures p.Some? && !r.NoMemory? ==> (r.PanicRemap? <==> Present(Lookup(old(mem), d, v)))
      ensures Present(Lookup(old(mem), d, v)) ==> !r.Mapped?
      ensures r.Mapped? ==> p.Some? && mem[p.value] == contents && LookupsSet(old(mem), dirs, mem, d, v, MkPte(p.value, perm))
      ensures UserOwners(old(owner), owner, if p.Some? && r.Mapped? && v < UVPN then map[p.value := User(d, v)] else map[], d)
      ensures NewTables(old(owner), owner, d, v, v + 1)
    {
      hide Owned, Accounted, Frame, Present, MkPte, Lookup, LookupsSet, LookupsMapped, SameLookups, NonePresent,
        UserOwners, Kept, PagesIn, HandedOver, NewTables, Paid, Slots, Extra;
      MapStart(lo, mem, dirs, owner, free, held, pool, d, v, 0, perm);
      WalkFacts(lo, mem, dirs, owner, free, held, pool, d, 0);
      SameLookupsRefl(mem, dirs);
      NoTables(owner, d, v);
      ExtraIs(mem[d], mem[d], v);
      p := Kalloc();
      if p.None? {
        r := NoMemory;
        return;
      }
      TakePage(lo, mem, dirs, owner, old(free), held, pool, contents);
      mem := mem[p.value := contents];
      held := held + {p.value};
      OnePage(v);
      FrameOf(p.value);
      ghost var mem1, n := mem, 0;
      r, n := MapPages(d, v * PGSIZE, PGSIZE, p.value * PGSIZE, perm);
      OneMapped(old(mem), mem1, mem, dirs, d, v, p.value, perm, n);
      OnePaid(|old(free)|, old(mem)[d], |free|, mem[d], v, n);
      ExtraIs(old(mem)[d], mem[d], v);
      OneHanded(old(owner), old(held), owner, held, d, v, p.value, n);
      KeptTwice(old(owner), old(held), p.value, old(mem), mem1, mem);
    }

    /** The end of allocuvm when a page could not be had: deallocuvm, and kfree of the page that could not be mapped. */
    method BackOut(d: nat, oldsz: nat, newsz: nat, p: Option<nat>, ghost mem0: Mem, ghost owner0: Owners,
            ghost free0: seq<nat>, ghost held0: set<nat>,
                   ghost mem1: Mem, ghost owner1: Owners, ghost v: nat)
      requires Ok() && d in dirs && oldsz <= newsz < KERNBASE && RoundUp(oldsz) <= v <= RoundUp(newsz)
      requires MachineOk(lo, mem0, dirs, owner0, free0, held0, pool) && Owned(mem1, dirs, owner1, lo)
      requires held == (if p.Some? then held0 + {p.value} else held0) && (p.Some? ==> p.value !in held0)
      requires OwnersGrow(owner0, owner, d) && OwnersGrow(owner1, owner, d)
      requires NewTables(owner0, owner, d, RoundUp(oldsz), RoundUp(newsz))
      requires Kept(owner0, held0, mem0, mem) && Grown(mem0, dirs, mem1, d, RoundUp(oldsz), v) && SameLookups(mem1, dirs, mem)
      modifies `mem, `free, `owner, `held
      ensures Ok() && held == held0
      ensures Emptied(mem0, dirs, mem, d, RoundUp(oldsz), RoundUp(newsz)) && Kept(owner, held, mem0, mem)
      ensures GaveUp(owner0, free0, owner, free, mem, d, RoundUp(oldsz), RoundUp(newsz))
      ensures v > RoundUp(oldsz) ==> exists b :: b in owner && owner[b] == Table(d, RoundUp(oldsz) / NENTRIES)
    {
      hide Owned, Accounted, Frame, Present, Lookup, SameLookups, NonePresent, Kept, RoundUp, Grown, Emptied, Cleared,
        NewTables, OnlyLoses, UserEnd, GaveUp, OwnersGrow, ZeroPage;
      ghost var from, to := RoundUp(oldsz), RoundUp(newsz);
      UserEndIs(newsz);
      ghost var mem2, owner2 := mem, owner;
      var back := DeallocUvm(d, newsz, oldsz);
      if v > from {
        TableStays(lo, mem0, mem1, dirs, owner1, owner2, owner, d, from, v, to);
      }
      GrownEmptied(mem0, mem1, mem2, mem, dirs, d, from, v, to);
      SurvivorsKept(lo, mem0, mem2, mem, dirs, owner0, owner, held0, held, d, from, to);
      ghost var mem3 := mem;
      KeptRefl(lo, mem, dirs, owner, free, held, pool, held0);
      if p.Some? {
        FreeHeld(lo, mem3, mem, dirs, owner, free, held, pool, p.value, held0);
        held := held - {p.value};
        Kfree(p.value);
      }
      EmptiedSame(mem0, mem3, mem, dirs, owner, held0, d, from, to);
      assert held == held0;
      GiveUp(lo, mem0, mem, dirs, owner0, owner2, owner, free0, free, held, pool, d, from, to);
    }

    /** Grows d from oldsz to newsz bytes with zeroed pages, or leaves none of them mapped; which of it follows from the number of free pages. */
    method AllocUvm(d: nat, oldsz: nat, newsz: nat) returns (r: Growth)
      requires Ok() && d in dirs
      modifies `mem, `free, `owner, `held
      ensures r.PanicMapped? ==> oldsz <= newsz < KERNBASE && !NonePresent(old(mem), d, RoundUp(oldsz), RoundUp(newsz))
      ensures r.Returned? ==> Ok() && held == old(held)
      ensures newsz >= KERNBASE ==> r == Returned(0)
      ensures newsz < KERNBASE && newsz < oldsz ==> r == Returned(oldsz)
      ensures newsz >= KERNBASE || newsz < oldsz ==> mem == old(mem) && free == old(free) && owner == old(owner)
      ensures oldsz <= newsz < KERNBASE ==> d < |old(mem)| && RoundUp(oldsz) <= RoundUp(newsz) <= VPNS
      ensures oldsz <= newsz < KERNBASE ==> r == match GrowOutcome(old(mem), d, RoundUp(oldsz), RoundUp(newsz), |old(free)|)
        case Fits => Returned(newsz)
        case OutOfPages => Returned(0)
        case MeetsMapped => PanicMapped
      ensures oldsz <= newsz < KERNBASE && r == Returned(newsz) ==>
        Grown(old(mem), dirs, mem, d, RoundUp(oldsz), RoundUp(newsz)) && Kept(old(owner), held, old(mem), mem) && OwnersGrow(old(owner), owner, d)
      ensures oldsz <= newsz < KERNBASE && r == Returned(newsz) && newsz > 0 ==> NonePresent(old(mem), d, RoundUp(oldsz), RoundUp(newsz))
      ensures oldsz <= newsz < KERNBASE && newsz > 0 && r == Returned(0) ==>
        Emptied(old(mem), dirs, mem, d, RoundUp(oldsz), RoundUp(newsz)) && Kept(owner, held, old(mem), mem)
      ensures oldsz <= newsz < KERNBASE && newsz > 0 && r == Returned(0) ==>
        GaveUp(old(owner), old(free), owner, free, mem, d, RoundUp(oldsz), RoundUp(newsz))
      ensures oldsz <= newsz < KERNBASE && newsz > 0 && r == Returned(0) && |old(free)| >= 2 ==>
        exists b :: b in owner && owner[b] == Table(d, RoundUp(oldsz) / NENTRIES)
    {
      hide Owned, Accounted, Frame, Present, MkPte, Lookup, LookupsSet, SameLookups, NonePresent, UserOwners, Kept,
        RoundUp, Grown, Emptied, NewTables, UserEnd, GaveUp, OwnersGrow, Paid, Slots, Extra, FirstPresent, GrowOutcome;
      if newsz >= KERNBASE {
        return Returned(0);
      }
      if newsz < oldsz {
        return Returned(oldsz);
      }
      ghost var from, to := RoundUp(oldsz), RoundUp(newsz);
      RoundUpMonotone(oldsz, newsz);
      UserEndIs(newsz);
      GrownNone(lo, mem, dirs, owner, free, held, pool, d, from);
      WalkFacts(lo, mem, dirs, owner, free, held, pool, d, 0);
      PaidNothing(|free|, mem[d], from);
      var a := RoundUp(oldsz) * PGSIZE;
      ghost var v := from;
      while a < newsz
        invariant a == v * PGSIZE && from <= v <= to && d < |mem|
        invariant Ok() && held == old(held) && Kept(old(owner), held, old(mem), mem) && OwnersGrow(old(owner), owner, d)
        invariant Grown(old(mem), dirs, mem, d, from, v) && NonePresent(old(mem), d, from, v)
        invariant NewTables(old(owner), owner, d, from, v) && (v == from ==> free == old(free))
        invariant FirstPresent(old(mem), d, from, to) == FirstPresent(old(mem), d, v, to)
        invariant Paid(|old(free)|, old(mem)[d], |free|, mem[d], from, v - from, v - from)
      {
        PageOf(a, v, newsz);
        ghost var mem1, owner1, free1 := mem, owner, free;
        GrownSame(old(mem), mem, dirs, d, from, v);
        GrowAt(old(mem), d, from, v, to, |old(free)|, |free|, mem[d]);
        ExtraIs(mem[d], mem[d], v);
        var p, m := NewPage(d, a / PGSIZE, ZeroPage(), PTE_W + PTE_U);
        OwnersGrowMore(old(owner), owner1, owner, if p.Some? && m.Mapped? then map[p.value := User(d, v)] else map[],
          old(held), old(mem), mem1, mem, d);
        TablesWiden(old(owner), owner1, owner, if p.Some? && m.Mapped? then map[p.value := User(d, v)] else map[], d, from, v, to);
        if m.PanicRemap? {
          GrownPanics(old(mem), mem1, dirs, d, from, v, to);
          return PanicMapped;
        }
        if !m.Mapped? {
          BackOut(d, oldsz, newsz, p, old(mem), old(owner), old(free), old(held), mem1, owner1, v);
          return Returned(0);
        }
        GrownNext(lo, old(mem), mem1, mem, dirs, owner1, free1, held, pool, d, from, v, p.value);
        PaidOne(|old(free)|, old(mem)[d], |free1|, mem1[d], |free|, mem[d], from, v - from, v - from, 1);
        a := a + PGSIZE;
        v := v + 1;
      }
      PastEnd(v, newsz);
      GrowAt(old(mem), d, from, v, to, |old(free)|, |free|, mem[d]);
      r := Returned(newsz);
    }

    /** A new directory with exactly the kernel's half, or, out of memory, nothing at all. */
    method SetupKvm() returns (r: Option<nat>)
      requires Ok() && DataOk(data)
      modifies this
      ensures Ok() && pool == old(pool) && held == old(held)
      ensures SameLookups(old(mem), old(dirs), mem) && Kept(old(owner), held, old(mem), mem)
      ensures r.None? ==> dirs == old(dirs) && owner == old(owner) && Distinct(free) && forall b :: b in free <==> b in old(free)
      ensures r.Some? ==> r.value !in old(dirs) && dirs == old(dirs) + {r.value} && OwnersGrow(old(owner), owner, r.value)
      ensures r.Some? ==> r.value < |mem| && KernelOnly(mem, r.value, data) && CopyPaid(|old(free)|, |free|, mem[r.value], 0)
      ensures r.None? <==> |old(free)| < CopyNeed(0)
    {
      hide Owned, Accounted, SameLookups, Kept, KernelPart, KernelMap, Lookup, LookupsMapped, OwnersGrow, UserOwners,
        PagesIn, Bytes, NonePresent, Without, ZeroPage, DataOk, Distinct, KernelOnly, HandedOver, NewTables, Present, Paid, Slots, KernelPaid, CopyPaid;
      KeptRefl(lo, mem, dirs, owner, free, held, pool, held);
      var page := Kalloc();
      if page.None? {
        AllAccounted(free, owner, held, pool);
        return None;
      }
      var d := page.value;
      NewDirectory(lo, mem, dirs, owner, old(free), held, pool, data);
      KernelPaidStart(|old(free)|, data);
      mem := mem[d := ZeroPage()];
      dirs := dirs + {d};
      owner := owner[d := Dir(d)];
      var i := 0;
      while i < 4
        invariant i <= 4 && d !in old(dirs) && dirs == old(dirs) + {d} && held == old(held) && pool == old(pool)
        invariant Ok() && Kept(old(owner), held, old(mem), mem) && OwnersGrow(old(owner), owner, d)
        invariant KernelPart(old(mem), old(dirs), mem, d, data, i)
        invariant d < |mem| && KernelPaid(|old(free)|, |free|, mem[d], data, i)
      {
        KmapFacts(data, i);
        KernelRangeFree(old(mem), old(dirs), mem, d, data, i);
        var k := KernelMap(data)[i];
        ghost var mem1, owner1, free1 := mem, owner, free;
        RangeFacts(k.virt, Bytes(k));
        var m, n := MapPages(d, k.virt, Bytes(k), k.start, k.perm);
        KernelHanded(owner1, old(held), owner, held, d, k.virt / PGSIZE, k.start / PGSIZE, n);
        NoRemap(mem1, d, k.virt / PGSIZE, n, PagesIn(k.virt, Bytes(k)));
        OwnersGrowMore(old(owner), owner1, owner, map[], held, old(mem), mem1, mem, d);
        if m.NoMemory? {
          ghost var mem2, owner2 := mem, owner;
          KernelShort(|old(free)|, |free1|, mem1[d], mem[d], data, i, n);
          OthersSame(old(mem), old(dirs), mem1, mem, d, data, i);
          FreeVm(d);
          Undone(lo, old(mem), mem2, mem, old(dirs), old(owner), owner2, owner, old(free), free, held, pool, d);
          return None;
        }
        KernelPartNext(old(mem), old(dirs), mem1, mem, d, data, i);
        KernelPaidNext(|old(free)|, |free1|, mem1[d], |free|, mem[d], data, i);
        i := i + 1;
      }
      AllRanges(old(mem), old(dirs), mem, d, data);
      CopyPaidStart(|old(free)|, |free|, mem[d], data);
      PaidUp(|old(free)|, |free|, mem[d]);
      r := Some(d);
    }

    /** bad: of copyuvm. */
    method DropCopy(d: nat, p: Option<nat>, ghost mem0: Mem, ghost dirs0: set<nat>, ghost owner0: Owners,
            ghost free0: seq<nat>, ghost held0: set<nat>)
      requires Ok() && d !in dirs0 && dirs == dirs0 + {d} && MachineOk(lo, mem0, dirs0, owner0, free0, held0, pool)
      requires held == (if p.Some? then held0 + {p.value} else held0) && (p.Some? ==> p.value !in held0)
      requires SameLookups(mem0, dirs0, mem) && Kept(owner0, held0, mem0, mem) && OwnersGrow(owner0, owner, d)
      modifies this
      ensures Ok() && pool == old(pool) && held == held0 && dirs == dirs0 && owner == owner0
      ensures SameLookups(mem0, dirs0, mem) && Kept(owner0, held0, mem0, mem)
      ensures Distinct(free) && forall b :: b in free <==> b in free0
    {
      hide Owned, Accounted, SameLookups, Kept, Lookup, OwnersGrow, Without, Distinct;
      ghost var mem2 := mem;
      KeptRefl(lo, mem, dirs, owner, free, held, pool, held0);
      if p.Some? {
        FreeHeld(lo, mem2, mem, dirs, owner, free, held, pool, p.value, held0);
        held := held - {p.value};
        Kfree(p.value);
      }
      CopySame(mem0, dirs0, mem2, mem, d);
      KeptMore(owner0, owner, held0, mem0, mem2, mem, d);
      ghost var mem3, owner3 := mem, owner;
      assert held == held0;
      FreeVm(d);
      Undone(lo, mem0, mem3, mem, dirs0, owner0, owner3, owner, free0, free, held, pool, d);
    }

    /** A child with the same bytes and permissions below sz on frames of its own, or nothing at all; which of it follows from the number of free pages. */
    method CopyUvm(pd: nat, sz: nat) returns (r: Copy)
      requires Ok() && pd in dirs && DataOk(data)
      requires sz > KERNBASE ==> pd < |mem| && (Present(Lookup(mem, pd, UVPN)) ==> Frame(Lookup(mem, pd, UVPN)) < |mem|)
      modifies this
      ensures pd < |old(mem)| && SameOutcome(r, CopyOutcome(old(mem), pd, sz, |old(free)|))
      ensures r.Copied? || r.OutOfMemory? ==> Ok() && pool == old(pool) && held == old(held)
      ensures r.Copied? || r.OutOfMemory? ==> SameLookups(old(mem), old(dirs), mem) && Kept(old(owner), held, old(mem), mem)
      ensures r.OutOfMemory? ==> dirs == old(dirs) && owner == old(owner) && Distinct(free) && forall b :: b in free <==> b in old(free)
      ensures r.Copied? ==> r.dir !in old(dirs) && dirs == old(dirs) + {r.dir} && OwnersGrow(old(owner), owner, r.dir)
      ensures r.Copied? ==> CopiedPages(old(mem), old(dirs), mem, pd, r.dir, data, RoundUp(sz))
    {
      hide Owned, Accounted, SameLookups, Kept, KernelOnly, Lookup, OwnersGrow, UserOwners, Without, DataOk,
        Distinct, CopiedPages, Present, Frame, Flags, LookupsSet, RoundUp, NewTables, MkPte, KernelPte, Paid, Slots, Extra,
        CopyPaid, CopyOutcome, FirstAbsent, CopyNeed;
      WalkFacts(lo, mem, dirs, owner, free, held, pool, pd, 0);
      ghost var end := if RoundUp(sz) <= UVPN then RoundUp(sz) else UVPN;
      var dir := SetupKvm();
      if dir.None? {
        CopyShort(old(mem), pd, sz, |old(free)|);
        return OutOfMemory;
      }
      var d := dir.value;
      CopiedNone(old(mem), old(dirs), mem, pd, d, data);
      ghost var v := 0;
      var i := 0;
      while i < sz
        invariant i == v * PGSIZE && v <= RoundUp(sz) && v <= UVPN && d < |mem|
        invariant d !in old(dirs) && dirs == old(dirs) + {d} && held == old(held) && pool == old(pool)
        invariant Ok() && Kept(old(owner), held, old(mem), mem) && OwnersGrow(old(owner), owner, d)
        invariant CopiedPages(old(mem), old(dirs), mem, pd, d, data, v)
        invariant CopyPaid(|old(free)|, |free|, mem[d], v) && FirstAbsent(old(mem), pd, 0, end) == FirstAbsent(old(mem), pd, v, end)
        decreases KERNBASE + PGSIZE - i
      {
        CopyPage(i, v, sz);
        if v < UVPN {
          CopySource(lo, old(mem), mem, old(dirs), old(owner), old(free), held, pool, pd, d, data, v);
        } else {
          CopyAtKernel(old(mem), mem, old(dirs), pd, d, data);
        }
        CopyAt(old(mem), pd, sz, v, |old(free)|, |free|, mem[d]);
        WalkFacts(lo, mem, dirs, owner, free, held, pool, pd, v / NENTRIES);
        LookupPresent(lo, mem, dirs, owner, free, held, pool, pd, v);
        var t := WalkPgdir(pd, i / PGSIZE, false);
        if t.None? {
          return PanicMissing;
        }
        LookupTable(mem, pd, v);
        var pte := mem[t.value][i / PGSIZE % NENTRIES];
        if !Present(pte) {
          return PanicMissing;
        }
        FlagsOdd(pte);
        ghost var mem1, owner1, free1 := mem, owner, free;
        var p, m := NewPage(d, i / PGSIZE, mem[Frame(pte)], Flags(pte));
        if m.PanicRemap? {
          return PanicRemapped;
        }
        OwnersGrowMore(old(owner), owner1, owner, if p.Some? && m.Mapped? then map[p.value := User(d, v)] else map[],
          old(held), old(mem), mem1, mem, d);
        if !m.Mapped? {
          CopiedOthers(old(mem), old(dirs), mem1, mem, pd, d, data, v);
          DropCopy(d, p, old(mem), old(dirs), old(owner), old(free), old(held));
          return OutOfMemory;
        }
        CopiedNext(lo, old(mem), mem1, mem, old(dirs), owner1, free1, held, pool, pd, d, data, v, p.value);
        CopyPaidNext(|old(free)|, |free1|, mem1[d], |free|, mem[d], v);
        i := i + PGSIZE;
        v := v + 1;
      }
      PastEnd(v, sz);
      CopyAt(old(mem), pd, sz, v, |old(free)|, |free|, mem[d]);
      CopiedKeeps(old(mem), old(dirs), mem, pd, d, data, v);
      r := Copied(d);
    }
  }

  /** Three pages: too few for a directory, a page table and two user pages. */
  lemma TwoPagesDontFit(lo: nat, mem0: Mem, mem: Mem, dirs: set<nat>, owner: Owners, free: seq<nat>, held: set<nat>,
          pool: set<nat>, d: nat)
    requires MachineOk(lo, mem, dirs, owner, free, held, pool) && d in dirs && lo == 1 && |mem0| == 4
    ensures !Grown(mem0, dirs, mem, d, 0, 2)
  {
    hide Frame, Flags, ZeroPage, Accounted;
    if Grown(mem0, dirs, mem, d, 0, 2) {
      assert ZeroUserPage(mem, Lookup(mem, d, 0)) && ZeroUserPage(mem, Lookup(mem, d, 1));
      ThreeFrames(mem, dirs, owner, lo, d);
    }
  }

  lemma ThreeFrames(mem: Mem, dirs: set<nat>, owner: Owners, lo: nat, d: nat)
    requires Owned(mem, dirs, owner, lo) && d in dirs && Present(Lookup(mem, d, 0)) && Present(Lookup(mem, d, 1)) && lo == 1
    ensures |mem| > 4
  {
    hide Frame;
    ZeroAbsent();
    var t := Frame(mem[d][0]);
    assert Held(mem, dirs, Dir(d)) == Some(d) && Held(mem, dirs, Table(d, 0)) == Some(t);
    assert Held(mem, dirs, User(d, 0)) == Some(Frame(Lookup(mem, d, 0)));
    assert Held(mem, dirs, User(d, 1)) == Some(Frame(Lookup(mem, d, 1)));
  }

  lemma ThreeFree(free: seq<nat>)
    requires Distinct(free) && forall b :: b in free <==> 1 <= b < 4
    ensures |free| >= 3
  {
    assert 1 in free && 2 in free && 3 in free;
    var i :| 0 <= i < |free| && free[i] == 1;
    var j :| 0 <= j < |free| && free[j] == 2;
    var k :| 0 <= k < |free| && free[k] == 3;
    assert i != j && j != k && i != k;
  }

  /** allocuvm of two pages with room for one: the page goes back, its page table stays with the directory. */
  method KeepsTable() returns (m: Machine, d: nat, r: Growth)
    ensures fresh(m) && m.Ok() && r == Returned(0) && d in m.dirs && NonePresent(m.mem, d, 0, VPNS)
    ensures exists b :: b in m.owner && m.owner[b] == Table(d, 0) && b < |m.mem| && Vacant(m.mem[b])
  {
    hide Owned, Accounted, Frame, Present, Lookup, NonePresent, Kept, Grown, Emptied, GaveUp, SameLookups,
      KernelPart, ZeroPage, OwnersGrow;
    m := new Machine(seq(4, _ => ZeroPage()), 1, 4, 0);
    AllAccounted(m.free, m.owner, m.held, m.pool);
    ThreeFree(m.free);
    ghost var free, mem := m.free, m.mem;
    var p := m.Kalloc();
    d := p.value;
    NewDirectory(m.lo, m.mem, m.dirs, m.owner, free, m.held, m.pool, 0);
    m.mem := m.mem[d := ZeroPage()];
    m.dirs := m.dirs + {d};
    m.owner := m.owner[d := Dir(d)];
    assert m.Ok();
    assert m.dirs == {d} && m.owner == map[d := Dir(d)];
    BareDirectory(mem, m.mem, d);
    ghost var mem1, owner1, free1 := m.mem, m.owner, m.free;
    r := m.AllocUvm(d, 0, 2 * PGSIZE);
    assert RoundUp(0) == 0 && RoundUp(2 * PGSIZE) == 2;
    NoneWithin(mem1, d, 0, 2);
    TwoPagesDontFit(m.lo, mem1, m.mem, m.dirs, m.owner, m.free, m.held, m.pool, d);
    KeptTable(mem1, owner1, free1, m.mem, m.owner, m.free, m.dirs, d);
  }

  lemma BareDirectory(mem0: Mem, mem: Mem, d: nat)
    requires KernelPart(mem0, {}, mem, d, 0, 0)
    ensures NonePresent(mem, d, 0, VPNS)
  {
    hide Lookup;
    ZeroAbsent();
  }

  lemma NoneWithin(mem: Mem, d: nat, from: nat, to: nat)
    requires NonePresent(mem, d, 0, VPNS)
    ensures NonePresent(mem, d, from, to)
  {
  }

  lemma KeptTable(mem0: Mem, owner0: Owners, free0: seq<nat>, mem: Mem, owner: Owners, free: seq<nat>, dirs: set<nat>, d: nat)
    requires Emptied(mem0, dirs, mem, d, 0, 2) && d in dirs && NonePresent(mem0, d, 0, VPNS)
    requires GaveUp(owner0, free0, owner, free, mem, d, 0, 2)
    requires owner0 == map[d := Dir(d)] && exists b :: b in owner && owner[b] == Table(d, 0)
    ensures NonePresent(mem, d, 0, VPNS)
    ensures exists b :: b in owner && owner[b] == Table(d, 0) && b < |mem| && Vacant(mem[b])
  {
    hide Lookup, Present, Vacant;
  }
}
