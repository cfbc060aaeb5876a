/**
 New address spaces: the kernel half that setupkvm builds from kmap, and the user half that copyuvm
 copies.
 */
module VmCopy {
  import opened Common
  import opened VmTables
  import opened VmGrow
  import opened VmSpace

  const EXTMEM: nat := 0x10_0000
  const PHYSTOP: nat := 0xE00_0000
  const DEVSPACE: nat := 0xFE00_0000

  datatype Kmap = Kmap(virt: nat, start: nat, end: nat, perm: nat)

  datatype Copy = Copied(dir: nat) | OutOfMemory | PanicMissing | PanicRemapped

  // ---- The kernel half ----

  /** The linker puts the kernel's data on a page boundary above its text; data is a physical address. */
  ghost predicate DataOk(data: nat) {
    data % PGSIZE == 0 && EXTMEM < data < PHYSTOP
  }

  function KernelMap(data: nat): (maps: seq<Kmap>)
    ensures |maps| == 4 && forall i :: 0 <= i < 4 ==> maps[i].perm < PGSIZE
  {
    [Kmap(KERNBASE, 0, EXTMEM, PTE_W),
     Kmap(KERNBASE + EXTMEM, EXTMEM, data, 0),
     Kmap(KERNBASE + data, data, PHYSTOP, PTE_W),
     Kmap(DEVSPACE, DEVSPACE, 0, PTE_W)]
  }

  /** phys_end - phys_start in 32 bits. */
  function Bytes(k: Kmap): nat
  {
    (k.end - k.start) % ADDRS
  }

  /** The entry of page v once the first i ranges are mapped. */
  function KernelView(data: nat, i: nat, v: nat): nat
    requires i <= 4
  {
    if i == 0 then 0
    else
      var k := KernelMap(data)[i - 1];
      if Bytes(k) >= 1 && k.virt / PGSIZE <= v < k.virt / PGSIZE + PagesIn(k.virt, Bytes(k))
      then MkPte(k.start / PGSIZE + v - k.virt / PGSIZE, k.perm)
      else KernelView(data, i - 1, v)
  }

  /** What the memory layout promises: physical memory up to PHYSTOP at KERNBASE, with text read-only, and devices in place. */
  function KernelPte(data: nat, v: nat): nat
  {
    if UVPN <= v < UVPN + PHYSTOP / PGSIZE then
      MkPte(v - UVPN, if EXTMEM / PGSIZE <= v - UVPN < data / PGSIZE then 0 else PTE_W)
    else if v >= DEVSPACE / PGSIZE && v < VPNS then MkPte(v, PTE_W)
    else 0
  }

  lemma KmapFacts(data: nat, i: nat)
    requires DataOk(data) && i < 4
    ensures var k := KernelMap(data)[i];
      Bytes(k) >= 1 && k.virt >= KERNBASE && k.virt + Bytes(k) <= ADDRS && k.start % PGSIZE == 0
  {
  }

  lemma KmapPages(data: nat, i: nat)
    requires DataOk(data) && i < 4
    ensures var k := KernelMap(data)[i];
      && Bytes(k) >= 1 && k.virt / PGSIZE == [UVPN, UVPN + EXTMEM / PGSIZE, UVPN + data / PGSIZE, DEVSPACE / PGSIZE][i]
      && k.virt / PGSIZE + PagesIn(k.virt, Bytes(k)) == [UVPN + EXTMEM / PGSIZE, UVPN + data / PGSIZE, UVPN + PHYSTOP / PGSIZE, VPNS][i]
  {
  }

  /** The ranges do not overlap, so mappages never meets a present entry. */
  lemma KmapApart(data: nat, i: nat, v: nat)
    requires DataOk(data) && i < 4
    requires var k := KernelMap(data)[i]; Bytes(k) >= 1 && k.virt / PGSIZE <= v < k.virt / PGSIZE + PagesIn(k.virt, Bytes(k))
    ensures KernelView(data, i, v) == 0
  {
    hide Bytes, PagesIn, MkPte;
    KmapPages(data, i);
    ViewBelow(data, i, v);
  }

  lemma {:induction false} ViewBelow(data: nat, j: nat, v: nat)
    requires DataOk(data) && j <= 4
    requires v >= [UVPN, UVPN + EXTMEM / PGSIZE, UVPN + data / PGSIZE, DEVSPACE / PGSIZE, VPNS][j]
    ensures KernelView(data, j, v) == 0
  {
    hide Bytes, PagesIn, MkPte, KernelMap;
    if j > 0 {
      KmapPages(data, j - 1);
      ViewBelow(data, j - 1, v);
    }
  }

  lemma KernelViewIs(data: nat, v: nat)
    requires DataOk(data) && v < VPNS
    ensures KernelView(data, 4, v) == KernelPte(data, v)
  {
    hide Bytes, PagesIn, MkPte;
    KmapPages(data, 0);
    KmapPages(data, 1);
    KmapPages(data, 2);
    KmapPages(data, 3);
    assert KernelView(data, 0, v) == 0;
    assert KernelView(data, 1, v) == if UVPN <= v < UVPN + EXTMEM / PGSIZE then MkPte(v - UVPN, PTE_W) else 0;
    assert KernelView(data, 2, v) == if UVPN + EXTMEM / PGSIZE <= v < UVPN + data / PGSIZE then MkPte(v - UVPN, 0) else KernelView(data, 1, v);
    assert KernelView(data, 3, v) == if UVPN + data / PGSIZE <= v < UVPN + PHYSTOP / PGSIZE then MkPte(v - UVPN, PTE_W) else KernelView(data, 2, v);
  }

  /** d's entries are those of the first i kernel ranges; every other directory is as before. */
  ghost predicate KernelPart(mem0: Mem, dirs0: set<nat>, mem: Mem, d: nat, data: nat, i: nat) {
    && i <= 4 && d < |mem| && SameLookups(mem0, dirs0, mem)
    && forall v: nat :: v < VPNS ==> Lookup(mem, d, v) == KernelView(data, i, v)
  }

  /** A free page becomes an empty page directory. */
  lemma NewDirectory(lo: nat, mem: Mem, dirs: set<nat>, owner: Owners, free: seq<nat>, held: set<nat>, pool: set<nat>, data: nat)
    requires MachineOk(lo, mem, dirs, owner, free, held, pool) && free != []
    ensures free[0] < |mem| && free[0] !in dirs
    ensures var d, mem', owner' := free[0], mem[free[0] := ZeroPage()], owner[free[0] := Dir(free[0])];
      && MachineOk(lo, mem', dirs + {d}, owner', free[1..], held, pool)
      && KernelPart(mem, dirs, mem', d, data, 0) && Kept(owner, held, mem, mem') && OwnersGrow(owner, owner', d)
  {
    hide Frame, Present, Lookup, ZeroPage, Accounted;
    TakePage(lo, mem, dirs, owner, free, held, pool, ZeroPage());
    var d, mem' := free[0], mem[free[0] := ZeroPage()];
    TakeFree(free, owner, held, pool, Dir(d));
    PageWrite(mem, dirs, owner, lo, d, ZeroPage());
    DirHeld(mem', dirs, d);
    OwnerGains(mem', dirs, mem', dirs + {d}, owner, lo, Dir(d), d);
  }

  /** One more range of kmap. */
  lemma KernelPartNext(mem0: Mem, dirs0: set<nat>, mem1: Mem, mem: Mem, d: nat, data: nat, i: nat)
    requires KernelPart(mem0, dirs0, mem1, d, data, i) && i < 4 && DataOk(data) && d !in dirs0
    requires var k := KernelMap(data)[i];
      Bytes(k) >= 1 && LookupsMapped(mem1, dirs0 + {d}, mem, d, k.virt / PGSIZE, PagesIn(k.virt, Bytes(k)), k.start / PGSIZE, k.perm)
    ensures KernelPart(mem0, dirs0, mem, d, data, i + 1)
  {
    hide Lookup, MkPte, Bytes, PagesIn, KernelMap;
  }

  lemma KernelRangeFree(mem0: Mem, dirs0: set<nat>, mem: Mem, d: nat, data: nat, i: nat)
    requires KernelPart(mem0, dirs0, mem, d, data, i) && i < 4 && DataOk(data)
    ensures var k := KernelMap(data)[i];
      Bytes(k) >= 1 && NonePresent(mem, d, k.virt / PGSIZE, k.virt / PGSIZE + PagesIn(k.virt, Bytes(k)))
  {
    hide Lookup, MkPte, Bytes, PagesIn, KernelMap, KernelView, Present;
    KmapFacts(data, i);
    ZeroAbsent();
    var k := KernelMap(data)[i];
    forall v: nat | k.virt / PGSIZE <= v < k.virt / PGSIZE + PagesIn(k.virt, Bytes(k)) && v < VPNS
      ensures !Present(Lookup(mem, d, v))
    {
      KmapApart(data, i, v);
    }
  }

  /** mappages stopped early: the other directories are as before. */
  lemma OthersSame(mem0: Mem, dirs0: set<nat>, mem1: Mem, mem: Mem, d: nat, data: nat, i: nat)
    requires KernelPart(mem0, dirs0, mem1, d, data, i) && i < 4 && d !in dirs0
    requires var k := KernelMap(data)[i];
      exists n: nat :: LookupsMapped(mem1, dirs0 + {d}, mem, d, k.virt / PGSIZE, n, k.start / PGSIZE, k.perm)
    ensures SameLookups(mem0, dirs0, mem)
  {
    hide Lookup, MkPte, KernelMap;
  }

  /** d maps what every address space maps, and no user page. */
  ghost predicate KernelOnly(mem: Mem, d: nat, data: nat) {
    d < |mem| && forall v: nat :: v < VPNS ==> Lookup(mem, d, v) == KernelPte(data, v)
  }

  lemma AllRanges(mem0: Mem, dirs0: set<nat>, mem: Mem, d: nat, data: nat)
    requires KernelPart(mem0, dirs0, mem, d, data, 4) && DataOk(data)
    ensures SameLookups(mem0, dirs0, mem) && KernelOnly(mem, d, data)
  {
    hide Lookup, KernelView, KernelPte;
    forall v: nat | v < VPNS
      ensures KernelView(data, 4, v) == KernelPte(data, v)
    {
      KernelViewIs(data, v);
    }
  }

  lemma AllAccounted(free: seq<nat>, owner: Owners, held: set<nat>, pool: set<nat>)
    requires Accounted(free, owner, held, pool)
    ensures Distinct(free)
  {
  }

  /** freevm of a directory made since: everything is as it was. */
  lemma Undone(lo: nat, mem0: Mem, mem1: Mem, mem: Mem, dirs: set<nat>, owner0: Owners, owner1: Owners, owner: Owners,
               free0: seq<nat>, free: seq<nat>, held: set<nat>, pool: set<nat>, d: nat)
    requires MachineOk(lo, mem0, dirs, owner0, free0, held, pool) && d !in dirs && Accounted(free, owner, held, pool)
    requires OwnersGrow(owner0, owner1, d) && owner == Without(owner1, d)
    requires SameLookups(mem0, dirs, mem1) && SameLookups(mem1, dirs, mem)
    requires Kept(owner0, held, mem0, mem1) && Kept(owner, held, mem1, mem)
    ensures owner == owner0 && SameLookups(mem0, dirs, mem) && Kept(owner0, held, mem0, mem)
    ensures Distinct(free) && forall b :: b in free <==> b in free0
  {
    hide Lookup, Frame, Present;
    assert forall b :: b in owner0 ==> owner0[b].d in dirs by {
      forall b | b in owner0
        ensures owner0[b].d in dirs
      {
        assert Held(mem0, dirs, owner0[b]) == Some(b);
      }
    }
    assert owner == owner0;
  }

  // ---- The user half ----

  /** e is a copy of e0: same flags, same contents. */
  ghost predicate CopyOf(mem0: Mem, e0: nat, mem: Mem, e: nat) {
    && Present(e0) && Present(e) && Flags(e) == Flags(e0)
    && Frame(e0) < |mem0| && Frame(e) < |mem| && mem[Frame(e)] == mem0[Frame(e0)]
  }

  /** The first n pages of d are copies of those of pd; above, d has the kernel's half only. */
  ghost predicate CopiedPages(mem0: Mem, dirs0: set<nat>, mem: Mem, pd: nat, d: nat, data: nat, n: nat) {
    && n <= UVPN && pd in dirs0 && d < |mem| && SameLookups(mem0, dirs0, mem)
    && (forall v: nat :: v < n ==> CopyOf(mem0, Lookup(mem0, pd, v), mem, Lookup(mem, d, v)))
    && (forall v: nat :: n <= v < VPNS ==> Lookup(mem, d, v) == KernelPte(data, v))
  }

  lemma CopiedNone(mem0: Mem, dirs0: set<nat>, mem: Mem, pd: nat, d: nat, data: nat)
    requires KernelOnly(mem, d, data) && SameLookups(mem0, dirs0, mem) && pd in dirs0
    ensures CopiedPages(mem0, dirs0, mem, pd, d, data, 0)
  {
    hide Lookup, KernelPte;
  }

  /** The parent's entry as the loop reads it, and the child's still empty one. */
  lemma CopySource(lo: nat, mem0: Mem, mem: Mem, dirs0: set<nat>, owner0: Owners, free0: seq<nat>, held: set<nat>, pool: set<nat>,
                   pd: nat, d: nat, data: nat, v: nat)
    requires MachineOk(lo, mem0, dirs0, owner0, free0, held, pool) && Kept(owner0, held, mem0, mem)
    requires CopiedPages(mem0, dirs0, mem, pd, d, data, v) && v < UVPN
    ensures pd < |mem| == |mem0| && Lookup(mem, pd, v) == Lookup(mem0, pd, v) && !Present(Lookup(mem, d, v))
    ensures Present(Lookup(mem0, pd, v)) ==> Frame(Lookup(mem0, pd, v)) < |mem| && mem[Frame(Lookup(mem0, pd, v))] == mem0[Frame(Lookup(mem0, pd, v))]
  {
    hide Lookup, Frame, Present, MachineOk;
    ZeroAbsent();
    assert KernelPte(data, v) == 0;
    if Present(Lookup(mem0, pd, v)) {
      UserFrame(lo, mem0, dirs0, owner0, free0, held, pool, pd, v);
    }
  }

  /** Behind the last user page the child's entry is the kernel's. */
  lemma CopyAtKernel(mem0: Mem, mem: Mem, dirs0: set<nat>, pd: nat, d: nat, data: nat)
    requires CopiedPages(mem0, dirs0, mem, pd, d, data, UVPN)
    ensures pd < |mem| == |mem0| && Lookup(mem, pd, UVPN) == Lookup(mem0, pd, UVPN) && Present(Lookup(mem, d, UVPN))
    ensures forall v: nat :: v < UVPN ==> Present(Lookup(mem0, pd, v))
  {
    hide Lookup, Frame, Present, MkPte, Flags;
    PteFields(0, PTE_W);
    forall v: nat | v < UVPN
      ensures Present(Lookup(mem0, pd, v))
    {
      assert CopyOf(mem0, Lookup(mem0, pd, v), mem, Lookup(mem, d, v));
    }
  }

  /** The page that the loop of copyuvm is at. */
  lemma CopyPage(i: nat, v: nat, sz: nat)
    requires i == v * PGSIZE && i < sz && v <= UVPN
    ensures i / PGSIZE == v < RoundUp(sz) && v / NENTRIES < NENTRIES && v < VPNS && (v == UVPN ==> sz > KERNBASE) && i <= KERNBASE
  {
  }

  lemma CopiedNext(lo: nat, mem0: Mem, mem1: Mem, mem: Mem, dirs0: set<nat>, owner1: Owners, free1: seq<nat>,
          held: set<nat>, pool: set<nat>,
                   pd: nat, d: nat, data: nat, v: nat, p: nat)
    requires MachineOk(lo, mem1, dirs0 + {d}, owner1, free1, held, pool) && d !in dirs0
    requires CopiedPages(mem0, dirs0, mem1, pd, d, data, v) && v < UVPN && Kept(owner1, held, mem1, mem)
    requires pd < |mem0| && Present(Lookup(mem0, pd, v)) && Frame(Lookup(mem0, pd, v)) < |mem0|
    requires p < |mem| && mem[p] == mem0[Frame(Lookup(mem0, pd, v))]
    requires LookupsSet(mem1, dirs0 + {d}, mem, d, v, MkPte(p, Flags(Lookup(mem0, pd, v))))
    ensures CopiedPages(mem0, dirs0, mem, pd, d, data, v + 1)
  {
    hide Lookup, Frame, Present, Flags, MkPte, MachineOk, KernelPte;
    FlagsOdd(Lookup(mem0, pd, v));
    PteFields(p, Flags(Lookup(mem0, pd, v)));
    forall u: nat | u < v
      ensures CopyOf(mem0, Lookup(mem0, pd, u), mem, Lookup(mem, d, u))
    {
      assert CopyOf(mem0, Lookup(mem0, pd, u), mem1, Lookup(mem1, d, u));
      UserFrame(lo, mem1, dirs0 + {d}, owner1, free1, held, pool, d, u);
    }
  }

  lemma FlagsOdd(e: nat)
    ensures Present(e) <==> Flags(e) % 2 == 1
    ensures Flags(e) < PGSIZE
  {
  }

  lemma CopySame(mem0: Mem, dirs0: set<nat>, mem1: Mem, mem: Mem, d: nat)
    requires SameLookups(mem0, dirs0, mem1) && SameLookups(mem1, dirs0 + {d}, mem)
    ensures SameLookups(mem0, dirs0, mem)
  {
    hide Lookup;
  }

  lemma CopiedOthers(mem0: Mem, dirs0: set<nat>, mem1: Mem, mem: Mem, pd: nat, d: nat, data: nat, n: nat)
    requires CopiedPages(mem0, dirs0, mem1, pd, d, data, n) && SameLookups(mem1, dirs0 + {d}, mem)
    ensures SameLookups(mem0, dirs0, mem)
  {
    hide Lookup;
  }

  lemma CopiedKeeps(mem0: Mem, dirs0: set<nat>, mem: Mem, pd: nat, d: nat, data: nat, n: nat)
    requires CopiedPages(mem0, dirs0, mem, pd, d, data, n)
    ensures SameLookups(mem0, dirs0, mem)
  {
  }

  lemma KeptMore(owner0: Owners, owner: Owners, held: set<nat>, mem0: Mem, mem1: Mem, mem: Mem, d: nat)
    requires Kept(owner0, held, mem0, mem1) && Kept(owner, held, mem1, mem) && OwnersGrow(owner0, owner, d)
    ensures Kept(owner0, held, mem0, mem)
  {
  }

  /** No frame serves two address spaces. */
  lemma SpacesApart(lo: nat, mem: Mem, dirs: set<nat>, owner: Owners, d: nat, e: nat, v: nat, u: nat)
    requires Owned(mem, dirs, owner, lo) && d in dirs && e in dirs && v < UVPN && u < UVPN
    requires Present(Lookup(mem, d, v)) && Present(Lookup(mem, e, u)) && Frame(Lookup(mem, d, v)) == Frame(Lookup(mem, e, u))
    ensures d == e && v == u
  {
    hide Lookup, Frame, Present;
    HeldOnce(mem, dirs, owner, lo, User(d, v), User(e, u));
  }
}
