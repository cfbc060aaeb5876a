/**
 What the page-table operations of vm.c keep and change: the partition of the page pool, the flat
 view of every page directory, and the contents of user pages.
 */
module VmSpace {
  import opened Common
  import opened VmTables

  datatype MapResult = Mapped | NoMemory | PanicRemap

  datatype Shrink = Shrunk(size: nat) | PanicKfree

  /** kfree fills the page with bytes 1. */
  function Junk(): (p: Page)
  {
    seq(NENTRIES, _ => 0x0101_0101)
  }

  /** Every page of the pool is in exactly one of: the free list, a page directory's footprint, other hands. */
  ghost predicate Accounted(free: seq<nat>, owner: Owners, held: set<nat>, pool: set<nat>) {
    && Distinct(free)
    && (forall b :: b in pool <==> b in free || b in owner || b in held)
    && (forall b :: b in free ==> b !in owner && b !in held)
    && (forall b :: b in owner ==> b !in held)
  }

  /** Neither user pages nor pages in other hands have changed. */
  ghost predicate Kept(owner: Owners, held: set<nat>, mem: Mem, mem': Mem) {
    && |mem'| == |mem|
    && forall b :: ((b in owner && owner[b].User?) || b in held) && b < |mem| ==> mem'[b] == mem[b]
  }

  ghost predicate MachineOk(lo: nat, mem: Mem, dirs: set<nat>, owner: Owners, free: seq<nat>, held: set<nat>, pool: set<nat>) {
    && 0 < lo
    && Owned(mem, dirs, owner, lo)
    && Accounted(free, owner, held, pool)
    && (forall b :: b in pool ==> lo <= b < |mem|)
  }

  lemma TakeFree(free: seq<nat>, owner: Owners, held: set<nat>, pool: set<nat>, r: Role)
    requires Accounted(free, owner, held, pool) && free != []
    ensures free[0] in pool && free[0] !in owner && free[0] !in held
    ensures Accounted(free[1..], owner, held + {free[0]}, pool)
    ensures Accounted(free[1..], owner[free[0] := r], held, pool)
  {
    assert free == [free[0]] + free[1..];
    assert free[0] !in free[1..];
  }

  lemma GiveBack(free: seq<nat>, owner: Owners, held: set<nat>, pool: set<nat>, b: nat)
    requires Accounted(free, owner, held, pool)
    ensures b in held ==> Accounted([b] + free, owner, held - {b}, pool)
    ensures b in owner ==> Accounted([b] + free, owner - {b}, held, pool)
  {
  }

  lemma HandOver(free: seq<nat>, owner: Owners, held: set<nat>, pool: set<nat>, b: nat, r: Role)
    requires Accounted(free, owner, held, pool) && b in held
    ensures Accounted(free, owner[b := r], held - {b}, pool)
  {
  }

  ghost function Without(owner: Owners, d: nat): Owners
  {
    map b | b in owner && owner[b].d != d :: owner[b]
  }

  /** The directory page D at d and its tables from i on. */
  ghost function Remaining(D: Page, d: nat, i: nat): set<nat>
  {
    {d} + set k: nat | i <= k < NENTRIES && Present(D[k]) :: Frame(D[k])
  }

  ghost predicate TablesApart(D: Page, d: nat) {
    && (forall k: nat :: k < NENTRIES && Present(D[k]) ==> Frame(D[k]) != d)
    && (forall k: nat, l: nat :: k < l < NENTRIES && Present(D[k]) && Present(D[l]) ==> Frame(D[k]) != Frame(D[l]))
  }

  lemma WithoutSame(owner: Owners, owner': Owners, d: nat, from: nat, to: nat)
    requires OnlyLoses(owner, owner', d, from, to)
    ensures Without(owner', d) == Without(owner, d)
  {
  }

  /** With its user pages gone, d's footprint is the directory page and its tables. */
  lemma DirPages(mem: Mem, dirs: set<nat>, owner: Owners, lo: nat, d: nat, b: nat)
    requires Owned(mem, dirs, owner, lo) && d in dirs && NonePresent(mem, d, 0, UVPN)
    ensures b in owner && owner[b].d == d <==> b in Remaining(mem[d], d, 0)
  {
    hide Frame, Present, Lookup;
    assert Held(mem, dirs, Dir(d)) == Some(d);
    if b in owner && owner[b].d == d {
      assert Held(mem, dirs, owner[b]) == Some(b);
    }
    if k: nat :| k < NENTRIES && Present(mem[d][k]) && Frame(mem[d][k]) == b {
      assert Held(mem, dirs, Table(d, k)) == Some(b);
    }
  }

  lemma DirTables(mem: Mem, dirs: set<nat>, owner: Owners, lo: nat, d: nat)
    requires Owned(mem, dirs, owner, lo) && d in dirs
    ensures TablesApart(mem[d], d)
  {
    hide Frame, Present, Lookup;
    forall k: nat | k < NENTRIES && Present(mem[d][k])
      ensures Frame(mem[d][k]) in owner && owner[Frame(mem[d][k])] == Table(d, k) && Frame(mem[d][k]) != d
    {
      TableOwned(mem, dirs, owner, lo, d, k);
    }
  }

  lemma DirGone(mem: Mem, dirs: set<nat>, owner: Owners, lo: nat, d: nat)
    requires Owned(mem, dirs, owner, lo)
    ensures Owned(mem, dirs - {d}, Without(owner, d), lo)
  {
    hide Frame, Present, Lookup;
    forall r: Role
      ensures Held(mem, dirs - {d}, r) == if r.d == d then None else Held(mem, dirs, r)
    {
    }
  }

  /** d's pages change from its footprint into the hands of freevm. */
  lemma Detach(lo: nat, mem0: Mem, mem: Mem, dirs: set<nat>, owner: Owners, free: seq<nat>, held: set<nat>,
          pool: set<nat>, d: nat)
    requires MachineOk(lo, mem, dirs, owner, free, held, pool) && d in dirs
    requires Cleared(mem0, dirs, mem, d, RoundUp(0), RoundUp(KERNBASE))
    ensures d < |mem| && TablesApart(mem[d], d) && held !! Remaining(mem[d], d, 0)
    ensures MachineOk(lo, mem, dirs - {d}, Without(owner, d), free, held + Remaining(mem[d], d, 0), pool)
    ensures SameLookups(mem, dirs - {d}, mem) && Kept(Without(owner, d), held, mem, mem)
  {
    hide Owned, Remaining, Without, Lookup, Present, Frame;
    WalkFacts(lo, mem, dirs, owner, free, held, pool, d, 0);
    ZeroAbsent();
    assert NonePresent(mem, d, 0, UVPN);
    DirTables(mem, dirs, owner, lo, d);
    DirGone(mem, dirs, owner, lo, d);
    forall b: nat
      ensures b in owner && owner[b].d == d <==> b in Remaining(mem[d], d, 0)
    {
      DirPages(mem, dirs, owner, lo, d, b);
    }
    forall b: nat
      ensures b in Without(owner, d) <==> b in owner && owner[b].d != d
    {
      WithoutAt(owner, d, b);
    }
  }

  lemma WithoutAt(owner: Owners, d: nat, b: nat)
    ensures b in Without(owner, d) <==> b in owner && owner[b].d != d
  {
  }

  lemma RemainingSubset(D: Page, d: nat, i: nat)
    ensures Remaining(D, d, i) <= Remaining(D, d, 0)
  {
  }

  /** kfree of a page that is in nobody's footprint. */
  lemma FreeHeld(lo: nat, mem1: Mem, mem: Mem, dirs: set<nat>, owner: Owners, free: seq<nat>, held: set<nat>,
          pool: set<nat>, b: nat, kept: set<nat>)
    requires MachineOk(lo, mem, dirs, owner, free, held, pool) && b in held && b !in kept
    requires SameLookups(mem1, dirs, mem) && Kept(owner, kept, mem1, mem)
    ensures b < |mem|
    ensures MachineOk(lo, mem[b := Junk()], dirs, owner, [b] + free, held - {b}, pool)
    ensures SameLookups(mem1, dirs, mem[b := Junk()]) && Kept(owner, kept, mem1, mem[b := Junk()])
  {
    hide Owned, Lookup, Junk;
    GiveBack(free, owner, held, pool, b);
    PageWrite(mem, dirs, owner, lo, b, Junk());
  }

  lemma FreedLookups(mem0: Mem, mem1: Mem, mem: Mem, dirs: set<nat>, d: nat, owner1: Owners, owner: Owners, held: set<nat>)
    requires Cleared(mem0, dirs, mem1, d, RoundUp(0), RoundUp(KERNBASE)) && Kept(owner1, held, mem0, mem1)
    requires SameLookups(mem1, dirs - {d}, mem) && Kept(owner, held, mem1, mem) && owner == Without(owner1, d)
    ensures SameLookups(mem0, dirs - {d}, mem) && Kept(owner, held, mem0, mem)
  {
    hide Lookup, Present;
  }

  lemma FreedExactly(free: seq<nat>, owner: Owners, free': seq<nat>, owner': Owners, held: set<nat>, pool: set<nat>, d: nat)
    requires Accounted(free, owner, held, pool) && Accounted(free', owner', held, pool) && owner' == Without(owner, d)
    ensures Distinct(free') && forall b :: b in free' <==> b in free || (b in owner && owner[b].d == d)
  {
  }

  lemma RemainingNext(D: Page, d: nat, i: nat)
    requires TablesApart(D, d) && i < NENTRIES
    ensures !Present(D[i]) ==> Remaining(D, d, i + 1) == Remaining(D, d, i)
    ensures Present(D[i]) ==> Remaining(D, d, i + 1) == Remaining(D, d, i) - {Frame(D[i])} && Frame(D[i]) in Remaining(D, d, i) && Frame(D[i]) != d
  {
    hide Frame, Present;
  }

  lemma RemainingLast(D: Page, d: nat)
    ensures Remaining(D, d, NENTRIES) == {d}
  {
  }

  function PagesIn(va: nat, size: nat): nat
    requires size >= 1
  {
    (va + size - 1) / PGSIZE - va / PGSIZE + 1
  }

  lemma RangeFacts(va: nat, size: nat)
    requires size >= 1 && va + size <= ADDRS
    ensures PagesIn(va, size) >= 1 && va / PGSIZE + PagesIn(va, size) <= VPNS
    ensures (va + size - 1) / PGSIZE == va / PGSIZE + PagesIn(va, size) - 1
    ensures va < KERNBASE <==> va / PGSIZE < UVPN
  {
  }

  lemma MapAt(a: nat, v: nat, va: nat, N: nat)
    requires a == v * PGSIZE && va / PGSIZE <= v < va / PGSIZE + N <= VPNS
    ensures a / PGSIZE == v < VPNS
    ensures va >= KERNBASE ==> v >= UVPN
  {
  }

  /** Exactly n pages from v0 on are mapped, to consecutive frames from f0 on. */
  ghost predicate LookupsMapped(mem: Mem, dirs: set<nat>, mem': Mem, d: nat, v0: nat, n: nat, f0: nat, perm: nat) {
    && |mem'| == |mem| && perm < PGSIZE && (forall x :: x in dirs ==> x < |mem|)
    && forall d': nat, u: nat :: d' in dirs && u < VPNS ==>
         Lookup(mem', d', u) == if d' == d && v0 <= u < v0 + n then MkPte(f0 + u - v0, perm) else Lookup(mem, d', u)
  }

  lemma HandedNone(owner: Owners, held: set<nat>, d: nat, v0: nat, f0: nat)
    ensures HandedOver(owner, held, owner, held, d, v0, f0, 0)
  {
  }

  lemma MapStart(lo: nat, mem: Mem, dirs: set<nat>, owner: Owners, free: seq<nat>, held: set<nat>, pool: set<nat>,
          d: nat, v0: nat, f0: nat, perm: nat)
    requires MachineOk(lo, mem, dirs, owner, free, held, pool) && perm < PGSIZE && d in dirs
    ensures LookupsMapped(mem, dirs, mem, d, v0, 0, f0, perm) && UserOwners(owner, owner, map[], d)
    ensures Kept(owner, held, mem, mem) && d < |mem| && NonePresent(mem, d, v0, v0) && NewTables(owner, owner, d, v0, v0)
  {
  }

  /** The user pages among the n pages from v0 on, with the frames from f0 on. */
  ghost function UserFrames(d: nat, v0: nat, f0: nat, n: nat): (m: Owners)
    ensures forall b :: b in m ==> f0 <= b < f0 + n && m[b] == User(d, v0 + (b - f0))
    ensures v0 >= UVPN ==> m == map[]
  {
    if n == 0 then map[]
    else if v0 + n - 1 < UVPN then UserFrames(d, v0, f0, n - 1)[f0 + n - 1 := User(d, v0 + n - 1)]
    else UserFrames(d, v0, f0, n - 1)
  }

  /** The tables that are new are d's, for pages from .. to. */
  ghost predicate NewTables(owner: Owners, owner': Owners, d: nat, from: nat, to: nat) {
    forall b :: b in owner' && b !in owner && !owner'[b].User? ==> TableOf(owner'[b], d, from, to)
  }

  predicate TableOf(r: Role, d: nat, from: nat, to: nat) {
    r.Table? && r.d == d && from / NENTRIES <= r.i && r.i * NENTRIES < to
  }

  lemma TableHere(d: nat, v: nat)
    ensures TableOf(Table(d, v / NENTRIES), d, v, v + 1)
  {
  }

  lemma TablesWiden(owner0: Owners, owner1: Owners, owner: Owners, added: Owners, d: nat, from: nat, v: nat, to: nat)
    requires NewTables(owner0, owner1, d, from, v) && NewTables(owner1, owner, d, v, v + 1) && from <= v < to
    requires UserOwners(owner1, owner, added, d)
    ensures NewTables(owner0, owner, d, from, v + 1) && NewTables(owner0, owner, d, from, to)
  {
    assert from / NENTRIES <= v / NENTRIES;
  }

  /** One more entry, or the reason why not. */
  lemma MapKeeps(mem0: Mem, mem1: Mem, mem: Mem, dirs: set<nat>, d: nat, v0: nat, n: nat, f0: nat, perm: nat, r: MapResult)
    requires LookupsMapped(mem0, dirs, mem1, d, v0, n, f0, perm) && v0 + n < VPNS && d in dirs && NonePresent(mem0, d, v0, v0 + n)
    requires if r.Mapped? then LookupsSet(mem1, dirs, mem, d, v0 + n, MkPte(f0 + n, perm)) else SameLookups(mem1, dirs, mem)
    requires r.PanicRemap? <==> Present(Lookup(mem1, d, v0 + n))
    ensures LookupsMapped(mem0, dirs, mem, d, v0, if r.Mapped? then n + 1 else n, f0, perm)
    ensures r.PanicRemap? <==> Present(Lookup(mem0, d, v0 + n))
    ensures r.Mapped? ==> NonePresent(mem0, d, v0, v0 + n + 1)
  {
    hide Lookup, Present, MkPte;
  }

  /** The pages that have been mapped so far went from other hands to d. */
  ghost predicate HandedOver(owner0: Owners, held0: set<nat>, owner: Owners, held: set<nat>, d: nat, v0: nat, f0: nat, n: nat) {
    && held == held0 - UserFrames(d, v0, f0, n).Keys
    && UserOwners(owner0, owner, UserFrames(d, v0, f0, n), d)
  }

  lemma HandedOne(owner0: Owners, held0: set<nat>, owner1: Owners, held1: set<nat>, owner: Owners, held: set<nat>,
                  d: nat, v0: nat, f0: nat, n: nat, mapped: bool)
    requires HandedOver(owner0, held0, owner1, held1, d, v0, f0, n)
    requires held == if mapped && v0 + n < UVPN then held1 - {f0 + n} else held1
    requires UserOwners(owner1, owner, if mapped && v0 + n < UVPN then map[f0 + n := User(d, v0 + n)] else map[], d)
    ensures HandedOver(owner0, held0, owner, held, d, v0, f0, if mapped then n + 1 else n)
  {
    hide UserOwners;
    UserOwnersMore(owner0, owner1, owner, UserFrames(d, v0, f0, n), f0 + n, User(d, v0 + n), mapped && v0 + n < UVPN, d);
  }

  lemma UserOwnersMore(owner0: Owners, owner1: Owners, owner: Owners, m: Owners, b: nat, r: Role, more: bool, d: nat)
    requires UserOwners(owner0, owner1, m, d) && UserOwners(owner1, owner, if more then map[b := r] else map[], d)
    ensures UserOwners(owner0, owner, if more then m[b := r] else m, d)
  {
  }

  lemma HandedKept(owner0: Owners, held0: set<nat>, owner1: Owners, held1: set<nat>, mem0: Mem, mem1: Mem, mem: Mem,
                   d: nat, v0: nat, f0: nat, n: nat)
    requires HandedOver(owner0, held0, owner1, held1, d, v0, f0, n)
    requires Kept(owner0, held0, mem0, mem1) && Kept(owner1, held1, mem1, mem)
    ensures Kept(owner0, held0, mem0, mem)
  {
    var m := UserFrames(d, v0, f0, n);
    assert forall b :: b in held0 ==> b in held1 || b in m;
  }

  /** The frames for user pages are in the caller's hands. */
  ghost predicate Brought(held: set<nat>, v0: nat, f0: nat, n: nat) {
    forall f: nat :: f0 <= f < f0 + n && v0 + (f - f0) < UVPN ==> f in held
  }

  /** No page of a range of the kernel half changes hands. */
  lemma KernelHanded(owner0: Owners, held0: set<nat>, owner: Owners, held: set<nat>, d: nat, v0: nat, f0: nat, n: nat)
    requires HandedOver(owner0, held0, owner, held, d, v0, f0, n) && v0 >= UVPN
    ensures held == held0 && UserOwners(owner0, owner, map[], d)
  {
  }

  lemma NoRemap(mem: Mem, d: nat, v0: nat, n: nat, N: nat)
    requires NonePresent(mem, d, v0, v0 + N) && v0 + N <= VPNS
    ensures n < N ==> !Present(Lookup(mem, d, v0 + n))
  {
  }

  lemma StillHeld(owner0: Owners, held0: set<nat>, owner: Owners, held: set<nat>, d: nat, v0: nat, f0: nat, n: nat, N: nat)
    requires HandedOver(owner0, held0, owner, held, d, v0, f0, n) && Brought(held0, v0, f0, N) && n < N
    ensures v0 + n < UVPN ==> f0 + n in held
  {
  }

  lemma RoundUpMonotone(x: nat, y: nat)
    ensures y >= x ==> RoundUp(y) >= RoundUp(x)
    ensures y < x ==> RoundUp(y) <= RoundUp(x)
    ensures y >= x ==> RoundUp(y) >= UserEnd(x)
  {
  }

  lemma PageOf(a: nat, v: nat, size: nat)
    requires a == v * PGSIZE && a < size && v < UVPN
    ensures a / PGSIZE == v < RoundUp(size) && v < UserEnd(size) && v / NENTRIES < NENTRIES
    ensures (a / PGSIZE / NENTRIES + 1) * NENTRIES * PGSIZE >= PGSIZE
    ensures (v / NENTRIES + 1) * NENTRIES <= UVPN
  {
  }

  /** The end of the user pages of a process of that size. */
  function UserEnd(size: nat): nat
  {
    if size > KERNBASE then UVPN else RoundUp(size)
  }

  lemma UserEndIs(size: nat)
    ensures size <= KERNBASE ==> UserEnd(size) == RoundUp(size) <= UVPN
    ensures size > KERNBASE ==> UserEnd(size) == UVPN < RoundUp(size)
  {
  }

  lemma PastEnd(v: nat, oldsz: nat)
    requires v * PGSIZE >= oldsz
    ensures v >= RoundUp(oldsz)
  {
  }

  ghost predicate NonePresent(mem: Mem, d: nat, from: nat, to: nat) {
    d < |mem| && forall u: nat :: from <= u < to && u < VPNS ==> !Present(Lookup(mem, d, u))
  }

  /** Only user pages of d, from .. to, have left. */
  ghost predicate OnlyLoses(owner: Owners, owner': Owners, d: nat, from: nat, to: nat) {
    && (forall b :: b in owner' ==> b in owner && owner'[b] == owner[b])
    && (forall b :: b in owner && b !in owner' ==> owner[b].User? && owner[b].d == d && from <= owner[b].v < to)
  }

  lemma LosesNone(owner: Owners, d: nat, from: nat, to: nat)
    ensures OnlyLoses(owner, owner, d, from, to)
  {
  }

  lemma NoTables(owner: Owners, d: nat, v: nat)
    ensures NewTables(owner, owner, d, v, v + 1)
  {
  }

  /** setupkvm maps physical address 0 at KERNBASE. */
  ghost predicate KernelAtZero(mem: Mem, d: nat) {
    d < |mem| && Present(Lookup(mem, d, UVPN)) && Frame(Lookup(mem, d, UVPN)) == 0
  }

  lemma AtKernel(lo: nat, mem0: Mem, mem: Mem, dirs: set<nat>, owner: Owners, free: seq<nat>, held: set<nat>, pool: set<nat>,
                 d: nat, from: nat, a: nat)
    requires MachineOk(lo, mem, dirs, owner, free, held, pool) && d in dirs && a == UVPN * PGSIZE
    requires Cleared(mem0, dirs, mem, d, from, UVPN) && KernelAtZero(mem0, d)
    ensures a / PGSIZE == UVPN && UVPN / NENTRIES < NENTRIES && KernelAtZero(mem, d) && Present(mem[d][UVPN / NENTRIES])
  {
    LookupPresent(lo, mem, dirs, owner, free, held, pool, d, UVPN);
    hide Lookup, Frame, Present;
    assert Lookup(mem, d, UVPN) == Lookup(mem0, d, UVPN);
  }

  /** A user page is never physical page 0. */
  lemma NotZero(lo: nat, mem: Mem, dirs: set<nat>, owner: Owners, free: seq<nat>, held: set<nat>, pool: set<nat>, d: nat, v: nat)
    requires MachineOk(lo, mem, dirs, owner, free, held, pool) && d in dirs && d < |mem| && v < VPNS && Present(Lookup(mem, d, v))
    ensures v < UVPN ==> Frame(Lookup(mem, d, v)) != 0
  {
    hide Lookup, Frame, Present;
    if v < UVPN {
      assert Held(mem, dirs, User(d, v)) == Some(Frame(Lookup(mem, d, v)));
    }
  }

  lemma LosesOne(owner0: Owners, owner1: Owners, owner: Owners, d: nat, from: nat, v: nat, to: nat, b: nat)
    requires OnlyLoses(owner0, owner1, d, from, to) && from <= v < to
    requires b in owner1 && owner1[b] == User(d, v) && owner == owner1 - {b}
    ensures OnlyLoses(owner0, owner, d, from, to)
  {
  }

  /** PGROUNDUP as a page number. */
  function RoundUp(x: nat): nat
  {
    (x + PGSIZE - 1) / PGSIZE
  }

  /** Exactly the present entries of pages from .. to under d have gone. */
  ghost predicate Cleared(mem: Mem, dirs: set<nat>, mem': Mem, d: nat, from: nat, to: nat) {
    && |mem'| == |mem| && (forall x :: x in dirs ==> x < |mem|)
    && forall d': nat, u: nat :: d' in dirs && u < VPNS ==>
         Lookup(mem', d', u) == if d' == d && from <= u < to && Present(Lookup(mem, d', u)) then 0 else Lookup(mem, d', u)
  }

  lemma ClearedNone(lo: nat, mem: Mem, dirs: set<nat>, owner: Owners, free: seq<nat>, held: set<nat>, pool: set<nat>,
          d: nat, from: nat, to: nat)
    requires MachineOk(lo, mem, dirs, owner, free, held, pool)
    ensures Cleared(mem, dirs, mem, d, from, from) && (from >= to ==> Cleared(mem, dirs, mem, d, from, to))
    ensures d in dirs && from <= to ==> NonePresent(mem, d, to, from)
  {
  }

  lemma ClearedNext(mem: Mem, dirs: set<nat>, mem1: Mem, mem': Mem, d: nat, from: nat, v: nat, to: nat)
    requires Cleared(mem, dirs, mem1, d, from, v) && d in dirs && from <= v < VPNS && v < to
    requires if Present(Lookup(mem1, d, v)) then LookupsSet(mem1, dirs, mem', d, v, 0) else mem' == mem1
    ensures Cleared(mem, dirs, mem', d, from, v + 1) && NonePresent(mem, d, to, v + 1)
  {
    hide Lookup, Present;
  }

  /** No table, so no page of the whole 4 MB is present. */
  lemma ClearedSkip(mem: Mem, dirs: set<nat>, mem': Mem, d: nat, from: nat, v: nat, to: nat)
    requires Cleared(mem, dirs, mem', d, from, v) && d in dirs && from <= v < VPNS && v < to && !Present(mem'[d][v / NENTRIES])
    ensures Cleared(mem, dirs, mem', d, from, (v / NENTRIES + 1) * NENTRIES)
    ensures NonePresent(mem, d, to, (v / NENTRIES + 1) * NENTRIES)
  {
    hide Frame;
    forall u: nat | v <= u < (v / NENTRIES + 1) * NENTRIES && u < VPNS
      ensures !Present(Lookup(mem, d, u))
    {
      assert u / NENTRIES == v / NENTRIES;
      assert Lookup(mem', d, u) == Lookup(mem, d, u);
    }
  }

  lemma ClearedEnd(mem: Mem, dirs: set<nat>, mem': Mem, d: nat, from: nat, to: nat, end: nat)
    requires Cleared(mem, dirs, mem', d, from, to) && d in dirs && end <= to && NonePresent(mem, d, end, to)
    ensures Cleared(mem, dirs, mem', d, from, end)
  {
  }

  /** Exactly the entry of page v under d becomes e. */
  ghost predicate LookupsSet(mem: Mem, dirs: set<nat>, mem': Mem, d: nat, v: nat, e: nat) {
    && |mem'| == |mem| && (forall x :: x in dirs ==> x < |mem|)
    && forall d': nat, u: nat :: d' in dirs && u < VPNS ==> Lookup(mem', d', u) == if d' == d && u == v then e else Lookup(mem, d', u)
  }

  /** The user pages afterwards are those before and the added ones; everything new is d's. */
  ghost predicate UserOwners(owner: Owners, owner': Owners, added: Owners, d: nat) {
    && (forall b :: b in owner ==> b in owner' && owner'[b] == owner[b])
    && (forall b :: b in added ==> b in owner' && owner'[b] == added[b])
    && (forall b :: b in owner' && owner'[b].User? ==> b in owner || b in added)
    && (forall b :: b in owner' ==> b in owner || owner'[b].d == d)
  }

  lemma UserOwnersGrow(owner: Owners, owner': Owners, d: nat)
    requires forall b :: b in owner ==> b in owner' && owner'[b] == owner[b]
    requires forall b :: b in owner' && b !in owner ==> !owner'[b].User? && owner'[b].d == d
    ensures UserOwners(owner, owner', map[], d)
  {
  }

  lemma UserOwnersAdd(owner: Owners, owner': Owners, b: nat, r: Role, d: nat)
    requires UserOwners(owner, owner', map[], d) && b !in owner' && r.d == d
    ensures UserOwners(owner, owner'[b := r], map[b := r], d)
  {
  }

  lemma LookupPresent(lo: nat, mem: Mem, dirs: set<nat>, owner: Owners, free: seq<nat>, held: set<nat>,
          pool: set<nat>, d: nat, v: nat)
    requires MachineOk(lo, mem, dirs, owner, free, held, pool) && d in dirs && v < VPNS
    ensures d < |mem| && (!Present(mem[d][v / NENTRIES]) ==> !Present(Lookup(mem, d, v)))
  {
  }

  lemma LookupSame(mem: Mem, dirs: set<nat>, mem': Mem, d: nat, v: nat)
    requires SameLookups(mem, dirs, mem') && d in dirs && v < VPNS
    ensures d < |mem| == |mem'| && Lookup(mem', d, v) == Lookup(mem, d, v)
  {
  }

  lemma LookupTable(mem: Mem, d: nat, v: nat)
    requires d < |mem| && v < VPNS && Present(mem[d][v / NENTRIES]) && Frame(mem[d][v / NENTRIES]) < |mem|
    ensures Lookup(mem, d, v) == mem[Frame(mem[d][v / NENTRIES])][v % NENTRIES]
  {
  }

  lemma SetAfterSame(mem: Mem, dirs: set<nat>, mem1: Mem, mem': Mem, d: nat, v: nat, e: nat)
    requires SameLookups(mem, dirs, mem1) && LookupsSet(mem1, dirs, mem', d, v, e)
    ensures LookupsSet(mem, dirs, mem', d, v, e)
  {
  }

  /** Storing a fresh entry: in the user half it takes over a page that was held outside. */
  lemma StorePte(lo: nat, mem: Mem, dirs: set<nat>, owner: Owners, free: seq<nat>, held: set<nat>, pool: set<nat>,
                 d: nat, v: nat, frame: nat, perm: nat)
    requires MachineOk(lo, mem, dirs, owner, free, held, pool) && d in dirs && d < |mem| && v < VPNS && perm < PGSIZE
    requires Present(mem[d][v / NENTRIES]) && !Present(Lookup(mem, d, v)) && (v < UVPN ==> frame in held)
    ensures var t := Frame(mem[d][v / NENTRIES]);
      && t < |mem| && t != d
      && var mem' := mem[t := mem[t][v % NENTRIES := MkPte(frame, perm)]];
      && LookupsSet(mem, dirs, mem', d, v, MkPte(frame, perm)) && Kept(owner, held, mem, mem')
      && (v >= UVPN ==> MachineOk(lo, mem', dirs, owner, free, held, pool))
      && (v < UVPN ==> frame !in owner && MachineOk(lo, mem', dirs, owner[frame := User(d, v)], free, held - {frame}, pool))
  {
    hide Frame, Present, Lookup, MkPte;
    var t, e := Frame(mem[d][v / NENTRIES]), MkPte(frame, perm);
    TableOwned(mem, dirs, owner, lo, d, v / NENTRIES);
    var mem' := mem[t := mem[t][v % NENTRIES := e]];
    PteWrite(mem, dirs, owner, lo, d, v, e);
    PteFields(frame, perm);
    PteHeld(mem, dirs, mem', d, v, e);
    if v < UVPN {
      OwnerGains(mem, dirs, mem', dirs, owner, lo, User(d, v), frame);
      HandOver(free, owner, held, pool, frame, User(d, v));
    }
  }

  lemma EraseMapping(lo: nat, mem: Mem, dirs: set<nat>, owner: Owners, free: seq<nat>, held: set<nat>,
          pool: set<nat>, d: nat, v: nat)
    requires MachineOk(lo, mem, dirs, owner, free, held, pool) && d in dirs && d < |mem| && v < UVPN && Present(Lookup(mem, d, v))
    ensures var t := Frame(mem[d][v / NENTRIES]);
      && t < |mem| && Lookup(mem, d, v) == mem[t][v % NENTRIES]
      && var b := Frame(mem[t][v % NENTRIES]);
      && b < |mem| && b != t && b in owner && owner[b] == User(d, v)
      && var mem' := mem[b := Junk()][t := mem[t][v % NENTRIES := 0]];
      && LookupsSet(mem, dirs, mem', d, v, 0) && Kept(owner - {b}, held, mem, mem')
      && MachineOk(lo, mem', dirs, owner - {b}, [b] + free, held, pool)
  {
    hide Frame, Present, Junk;
    var t := Frame(mem[d][v / NENTRIES]);
    LookupPresent(lo, mem, dirs, owner, free, held, pool, d, v);
    TableOwned(mem, dirs, owner, lo, d, v / NENTRIES);
    var b := Frame(Lookup(mem, d, v));
    assert Held(mem, dirs, User(d, v)) == Some(b);
    hide Lookup;
    PageWrite(mem, dirs, owner, lo, b, Junk());
    var mem1 := mem[b := Junk()];
    assert mem1[d] == mem[d] by { assert Held(mem, dirs, Dir(d)) == Some(d); }
    PteWrite(mem1, dirs, owner, lo, d, v, 0);
    var mem' := mem1[t := mem1[t][v % NENTRIES := 0]];
    PteHeld(mem1, dirs, mem', d, v, 0);
    ZeroAbsent();
    assert Held(mem1, dirs, User(d, v)) == Some(b);
    OwnerLoses(mem1, dirs, mem', owner, lo, User(d, v), b);
    GiveBack(free, owner, held, pool, b);
  }

  lemma ZeroAbsent()
    ensures !Present(0)
  {
  }

  lemma SameLookupsRefl(mem: Mem, dirs: set<nat>)
    requires forall d :: d in dirs ==> d < |mem|
    ensures SameLookups(mem, dirs, mem)
  {
  }

  lemma WalkFacts(lo: nat, mem: Mem, dirs: set<nat>, owner: Owners, free: seq<nat>, held: set<nat>, pool: set<nat>,
          d: nat, i: nat)
    requires MachineOk(lo, mem, dirs, owner, free, held, pool) && d in dirs && i < NENTRIES
    ensures d < |mem| && (forall x :: x in dirs ==> x < |mem|)
    ensures Present(mem[d][i]) ==> Frame(mem[d][i]) < |mem|
  {
    hide Frame, Present, Lookup, Accounted;
    if Present(mem[d][i]) {
      TableOwned(mem, dirs, owner, lo, d, i);
    }
  }

  /** A free page becomes an empty table: the flat view stays, the partition too. */
  lemma NewTable(lo: nat, mem: Mem, dirs: set<nat>, owner: Owners, free: seq<nat>, held: set<nat>, pool: set<nat>, d: nat, i: nat)
    requires MachineOk(lo, mem, dirs, owner, free, held, pool) && d in dirs && d < |mem| && i < NENTRIES
    requires !Present(mem[d][i]) && free != []
    ensures var t := free[0];
      && t < |mem| && t != d && t !in owner
      && var mem' := mem[t := ZeroPage()][d := mem[d][i := MkPte(t, PTE_W + PTE_U)]];
      && MachineOk(lo, mem', dirs, owner[t := Table(d, i)], free[1..], held, pool)
      && SameLookups(mem, dirs, mem') && Kept(owner, held, mem, mem')
      && Present(mem'[d][i]) && Frame(mem'[d][i]) == t
  {
    hide Frame, Present, Lookup, ZeroPage, MkPte;
    var t := free[0];
    TakeFree(free, owner, held, pool, Table(d, i));
    hide Accounted;
    assert Held(mem, dirs, Dir(d)) == Some(d);
    PageWrite(mem, dirs, owner, lo, t, ZeroPage());
    var mem1 := mem[t := ZeroPage()];
    var mem' := mem1[d := mem1[d][i := MkPte(t, PTE_W + PTE_U)]];
    assert Held(mem, dirs, Table(d, i)) == None;
    PdeWrite(mem1, dirs, owner, lo, d, i, t);
    PdeHeld(mem1, dirs, mem', d, i, t);
    assert Held(mem1, dirs, Table(d, i)) == None;
    OwnerGains(mem1, dirs, mem', dirs, owner, lo, Table(d, i), t);
    PteFields(t, PTE_W + PTE_U);
  }
}
