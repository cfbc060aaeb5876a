/**
 Growing an address space page by page: what one more page does, what allocuvm's loop has built so
 far, and what is left when it gives up.
 */
module VmGrow {
  import opened Common
  import opened VmTables
  import opened VmSpace

  datatype Growth = Returned(size: nat) | PanicMapped

  /** kalloc for a page that is handed to the caller, and a write to it. */
  lemma TakePage(lo: nat, mem: Mem, dirs: set<nat>, owner: Owners, free: seq<nat>, held: set<nat>, pool: set<nat>, p: Page)
    requires MachineOk(lo, mem, dirs, owner, free, held, pool) && free != []
    ensures free[0] < |mem| && free[0] !in owner && free[0] !in held && free[0] !in dirs
    ensures MachineOk(lo, mem[free[0] := p], dirs, owner, free[1..], held + {free[0]}, pool)
    ensures SameLookups(mem, dirs, mem[free[0] := p]) && Kept(owner, held, mem, mem[free[0] := p])
  {
    hide Lookup, Frame, Present;
    TakeFree(free, owner, held, pool, Dir(free[0]));
    PageWrite(mem, dirs, owner, lo, free[0], p);
    assert free[0] in dirs ==> Held(mem, dirs, Dir(free[0])) == Some(free[0]);
  }

  lemma OnePage(v: nat)
    requires v < VPNS
    ensures v * PGSIZE / PGSIZE == v && PagesIn(v * PGSIZE, PGSIZE) == 1 && v * PGSIZE + PGSIZE <= ADDRS
  {
  }

  lemma FrameOf(p: nat)
    ensures p * PGSIZE / PGSIZE == p && p * PGSIZE % PGSIZE == 0
  {
  }

  /** What mappages of a single page says, seen from before the page was filled. */
  lemma OneMapped(mem0: Mem, mem1: Mem, mem: Mem, dirs: set<nat>, d: nat, v: nat, p: nat, perm: nat, n: nat)
    requires SameLookups(mem0, dirs, mem1) && d in dirs && v < VPNS && |mem| == |mem1| && n <= 1
    requires LookupsMapped(mem1, dirs, mem, d, v, n, p, perm) && NonePresent(mem1, d, v, v + n)
    ensures perm < PGSIZE && d < |mem0| == |mem1| && Lookup(mem1, d, v) == Lookup(mem0, d, v)
    ensures n == 1 ==> LookupsSet(mem0, dirs, mem, d, v, MkPte(p, perm)) && !Present(Lookup(mem0, d, v))
    ensures n == 0 ==> SameLookups(mem0, dirs, mem)
  {
    hide Lookup, Present, MkPte;
  }

  lemma OneHanded(owner0: Owners, held: set<nat>, owner: Owners, held': set<nat>, d: nat, v: nat, p: nat, n: nat)
    requires HandedOver(owner0, held + {p}, owner, held', d, v, p, n) && n <= 1 && p !in held
    ensures held' == if n == 1 && v < UVPN then held else held + {p}
    ensures UserOwners(owner0, owner, if n == 1 && v < UVPN then map[p := User(d, v)] else map[], d)
  {
    var m := UserFrames(d, v, p, n);
    assert n == 1 ==> UserFrames(d, v, p, 0) == map[];
    assert m == if n == 1 && v < UVPN then map[p := User(d, v)] else map[];
  }

  lemma KeptTwice(owner: Owners, held: set<nat>, p: nat, mem0: Mem, mem1: Mem, mem: Mem)
    requires Kept(owner, held, mem0, mem1) && Kept(owner, held + {p}, mem1, mem) && p < |mem|
    ensures Kept(owner, held, mem0, mem) && mem[p] == mem1[p]
  {
  }

  /** From page `from` up to v, d has fresh zeroed writable user pages; every other entry is as before. */
  ghost predicate Grown(mem0: Mem, dirs: set<nat>, mem: Mem, d: nat, from: nat, v: nat) {
    && |mem| == |mem0| && (forall x :: x in dirs ==> x < |mem|)
    && (forall d': nat, u: nat :: d' in dirs && u < VPNS && !(d' == d && from <= u < v) ==> Lookup(mem, d', u) == Lookup(mem0, d', u))
    && (forall u: nat :: d in dirs && u < VPNS && from <= u < v ==> ZeroUserPage(mem, Lookup(mem, d, u)))
  }

  ghost predicate ZeroUserPage(mem: Mem, e: nat) {
    Present(e) && Flags(e) == PTE_P + PTE_W + PTE_U && Frame(e) < |mem| && mem[Frame(e)] == ZeroPage()
  }

  /** d's pages from .. to are gone; every other entry is as before. */
  ghost predicate Emptied(mem0: Mem, dirs: set<nat>, mem: Mem, d: nat, from: nat, to: nat) {
    && |mem| == |mem0| && (forall x :: x in dirs ==> x < |mem|)
    && (forall d': nat, u: nat :: d' in dirs && u < VPNS && !(d' == d && from <= u < to) ==> Lookup(mem, d', u) == Lookup(mem0, d', u))
    && (d in dirs ==> NonePresent(mem, d, from, to))
  }

  ghost predicate SameMappings(mem0: Mem, dirs: set<nat>, mem: Mem) {
    && |mem| == |mem0| && (forall x :: x in dirs ==> x < |mem|)
    && forall d: nat, u: nat :: d in dirs && u < VPNS && (Present(Lookup(mem, d, u)) || Present(Lookup(mem0, d, u))) ==>
         Lookup(mem, d, u) == Lookup(mem0, d, u)
  }

  /** Giving up restores every mapping exactly if nothing was mapped above the old size. */
  lemma FailureRestores(mem0: Mem, dirs: set<nat>, mem: Mem, d: nat, from: nat, to: nat)
    requires Emptied(mem0, dirs, mem, d, from, to) && d in dirs && d < |mem0|
    ensures SameMappings(mem0, dirs, mem) <==> NonePresent(mem0, d, from, to)
  {
    hide Lookup, Present;
    if u: nat :| from <= u < to && u < VPNS && Present(Lookup(mem0, d, u)) {
      assert !Present(Lookup(mem, d, u));
    }
  }

  lemma GrownNone(lo: nat, mem: Mem, dirs: set<nat>, owner: Owners, free: seq<nat>, held: set<nat>, pool: set<nat>,
          d: nat, from: nat)
    requires MachineOk(lo, mem, dirs, owner, free, held, pool)
    ensures Grown(mem, dirs, mem, d, from, from) && Kept(owner, held, mem, mem) && UserOwners(owner, owner, map[], d)
    ensures OwnersGrow(owner, owner, d) && NewTables(owner, owner, d, from, from) && (d in dirs ==> NonePresent(mem, d, from, from))
  {
  }

  /** The pages behind d's user entries are user pages. */
  lemma UserFrame(lo: nat, mem: Mem, dirs: set<nat>, owner: Owners, free: seq<nat>, held: set<nat>, pool: set<nat>,
          d: nat, u: nat)
    requires MachineOk(lo, mem, dirs, owner, free, held, pool) && d in dirs && u < UVPN && d < |mem| && Present(Lookup(mem, d, u))
    ensures Frame(Lookup(mem, d, u)) < |mem| && Frame(Lookup(mem, d, u)) in owner
    ensures owner[Frame(Lookup(mem, d, u))] == User(d, u)
  {
    hide Frame, Present, Lookup, Accounted;
    assert Held(mem, dirs, User(d, u)) == Some(Frame(Lookup(mem, d, u)));
  }

  lemma GrownNext(lo: nat, mem0: Mem, mem1: Mem, mem: Mem, dirs: set<nat>, owner: Owners, free: seq<nat>,
          held: set<nat>, pool: set<nat>,
                  d: nat, from: nat, v: nat, p: nat)
    requires MachineOk(lo, mem1, dirs, owner, free, held, pool) && d in dirs && from <= v < UVPN
    requires Grown(mem0, dirs, mem1, d, from, v) && Kept(owner, held, mem1, mem)
    requires LookupsSet(mem1, dirs, mem, d, v, MkPte(p, PTE_W + PTE_U)) && p < |mem| && mem[p] == ZeroPage()
    requires NonePresent(mem0, d, from, v) && !Present(Lookup(mem1, d, v))
    ensures Grown(mem0, dirs, mem, d, from, v + 1) && NonePresent(mem0, d, from, v + 1)
  {
    hide Frame, Present, Lookup, MkPte, Flags, ZeroPage, MachineOk;
    PteFields(p, PTE_W + PTE_U);
    forall u: nat | from <= u < v
      ensures ZeroUserPage(mem, Lookup(mem, d, u))
    {
      UserFrame(lo, mem1, dirs, owner, free, held, pool, d, u);
      assert ZeroUserPage(mem1, Lookup(mem1, d, u));
    }
  }

  lemma GrownSame(mem0: Mem, mem: Mem, dirs: set<nat>, d: nat, from: nat, v: nat)
    requires Grown(mem0, dirs, mem, d, from, v) && d in dirs && v < VPNS
    ensures d < |mem0| == |mem| && Lookup(mem, d, v) == Lookup(mem0, d, v)
  {
  }

  lemma GrownPanics(mem0: Mem, mem: Mem, dirs: set<nat>, d: nat, from: nat, v: nat, to: nat)
    requires Grown(mem0, dirs, mem, d, from, v) && d in dirs && from <= v < to && v < VPNS && Present(Lookup(mem, d, v))
    ensures !NonePresent(mem0, d, from, to)
  {
    hide Lookup, Present;
  }

  /** deallocuvm after a partial growth and perhaps one more page table. */
  lemma GrownEmptied(mem0: Mem, mem1: Mem, mem2: Mem, mem: Mem, dirs: set<nat>, d: nat, from: nat, v: nat, to: nat)
    requires Grown(mem0, dirs, mem1, d, from, v) && SameLookups(mem1, dirs, mem2) && d in dirs && v <= to
    requires Cleared(mem2, dirs, mem, d, from, to)
    ensures Emptied(mem0, dirs, mem, d, from, to)
  {
    ZeroAbsent();
    hide Lookup, Present;
  }

  /** Owners before stay; whatever is new belongs to d. */
  ghost predicate OwnersGrow(owner: Owners, owner': Owners, d: nat) {
    && (forall b :: b in owner ==> b in owner' && owner'[b] == owner[b])
    && (forall b :: b in owner' ==> b in owner || owner'[b].d == d)
  }

  lemma OwnersGrowMore(owner0: Owners, owner1: Owners, owner: Owners, added: Owners, held: set<nat>, mem0: Mem,
          mem1: Mem, mem: Mem, d: nat)
    requires OwnersGrow(owner0, owner1, d) && UserOwners(owner1, owner, added, d)
    requires Kept(owner0, held, mem0, mem1) && Kept(owner1, held, mem1, mem)
    ensures OwnersGrow(owner0, owner, d) && OwnersGrow(owner1, owner, d) && Kept(owner0, held, mem0, mem)
  {
  }

  /** The user pages that survive a failed growth are pages from before, untouched. */
  lemma SurvivorsKept(lo: nat, mem0: Mem, mem1: Mem, mem: Mem, dirs: set<nat>, owner0: Owners, owner: Owners,
                      held: set<nat>, held1: set<nat>, d: nat, from: nat, to: nat)
    requires Owned(mem0, dirs, owner0, lo) && Owned(mem, dirs, owner, lo) && Emptied(mem0, dirs, mem, d, from, to) && d in dirs
    requires Kept(owner0, held, mem0, mem1) && Kept(owner, held1, mem1, mem) && held <= held1
    ensures Kept(owner, held, mem0, mem)
    ensures forall b :: b in owner && owner[b].User? ==> b in owner0 && owner0[b] == owner[b]
  {
    hide Frame, Present, Lookup;
    forall b | b in owner && owner[b].User?
      ensures b in owner0 && owner0[b] == owner[b]
    {
      var r := owner[b];
      assert Held(mem, dirs, r) == Some(b);
      assert Lookup(mem, r.d, r.v) == Lookup(mem0, r.d, r.v);
      assert Held(mem0, dirs, r) == Some(b);
    }
  }

  /** No entry of a page table is in use. */
  ghost predicate Vacant(p: Page) {
    forall k: nat :: k < NENTRIES ==> !Present(p[k])
  }

  /**
   What a failed growth leaves: new in d's footprint are only empty page tables of the range, gone
   from it are only pages that were mapped in the range before, and the free list makes up the difference.
   */
  ghost predicate GaveUp(owner0: Owners, free0: seq<nat>, owner: Owners, free: seq<nat>, mem: Mem, d: nat, from: nat, to: nat) {
    && (forall b :: b in owner && b in owner0 ==> owner[b] == owner0[b])
    && (forall b :: b in owner && b !in owner0 ==> TableOf(owner[b], d, from, to) && b < |mem| && Vacant(mem[b]))
    && (forall b :: b in owner0 && b !in owner ==> owner0[b].User? && owner0[b].d == d && from <= owner0[b].v < to)
    && Distinct(free)
    && (forall b :: b in free || (b in owner && b !in owner0) <==> b in free0 || (b in owner0 && b !in owner))
  }

  lemma NewTableVacant(lo: nat, mem0: Mem, mem: Mem, dirs: set<nat>, owner0: Owners, owner: Owners, d: nat,
          from: nat, to: nat, b: nat)
    requires Owned(mem0, dirs, owner0, lo) && Owned(mem, dirs, owner, lo) && Emptied(mem0, dirs, mem, d, from, to) && d in dirs
    requires b in owner && b !in owner0 && owner[b].Table? && owner[b].d == d
    requires forall x :: x in owner0 && !owner0[x].User? ==> x in owner && owner[x] == owner0[x]
    ensures b < |mem| && Vacant(mem[b])
  {
    hide Frame, Present, Lookup, NonePresent;
    var i := owner[b].i;
    assert Held(mem, dirs, Table(d, i)) == Some(b);
    assert Present(mem0[d][i]) ==> Held(mem0, dirs, Table(d, i)) == Some(Frame(mem0[d][i]));
    assert !Present(mem0[d][i]);
    forall k: nat | k < NENTRIES
      ensures !Present(mem[b][k])
    {
      NewTableEntry(mem0, mem, dirs, d, from, to, i, k);
    }
  }

  lemma NewTableEntry(mem0: Mem, mem: Mem, dirs: set<nat>, d: nat, from: nat, to: nat, i: nat, k: nat)
    requires Emptied(mem0, dirs, mem, d, from, to) && d in dirs && i < NENTRIES && k < NENTRIES
    requires !Present(mem0[d][i]) && Present(mem[d][i]) && Frame(mem[d][i]) < |mem|
    ensures !Present(mem[Frame(mem[d][i])][k])
  {
    hide Frame;
    var u := i * NENTRIES + k;
    assert u / NENTRIES == i && u % NENTRIES == k && u < VPNS;
    assert Lookup(mem, d, u) == mem[Frame(mem[d][i])][k] && Lookup(mem0, d, u) == 0;
    ZeroAbsent();
  }

  /** The owners before, at the failure, and after deallocuvm. */
  lemma GiveUp(lo: nat, mem0: Mem, mem: Mem, dirs: set<nat>, owner0: Owners, owner1: Owners, owner: Owners,
               free0: seq<nat>, free: seq<nat>, held: set<nat>, pool: set<nat>, d: nat, from: nat, to: nat)
    requires MachineOk(lo, mem0, dirs, owner0, free0, held, pool) && MachineOk(lo, mem, dirs, owner, free, held, pool)
    requires Emptied(mem0, dirs, mem, d, from, to) && d in dirs
    requires OwnersGrow(owner0, owner1, d) && NewTables(owner0, owner1, d, from, to) && OnlyLoses(owner1, owner, d, from, to)
    requires forall b :: b in owner && owner[b].User? ==> b in owner0 && owner0[b] == owner[b]
    ensures GaveUp(owner0, free0, owner, free, mem, d, from, to)
  {
    hide Owned, Emptied, Vacant, TableOf;
    forall b | b in owner && b !in owner0
      ensures TableOf(owner[b], d, from, to) && b < |mem| && Vacant(mem[b])
    {
      IsTable(owner[b], d, from, to);
      NewTableVacant(lo, mem0, mem, dirs, owner0, owner, d, from, to, b);
    }
  }

  lemma IsTable(r: Role, d: nat, from: nat, to: nat)
    requires TableOf(r, d, from, to)
    ensures r.Table? && r.d == d
  {
  }

  /** A page that has been mapped has a page table, which deallocuvm leaves. */
  lemma TableStays(lo: nat, mem0: Mem, mem1: Mem, dirs: set<nat>, owner1: Owners, owner2: Owners, owner: Owners,
                   d: nat, from: nat, v: nat, to: nat)
    requires Owned(mem1, dirs, owner1, lo) && Grown(mem0, dirs, mem1, d, from, v) && d in dirs && from < v <= UVPN
    requires OwnersGrow(owner1, owner2, d) && OnlyLoses(owner2, owner, d, from, to)
    ensures exists b :: b in owner && owner[b] == Table(d, from / NENTRIES)
  {
    hide Frame, Flags, ZeroPage;
    assert ZeroUserPage(mem1, Lookup(mem1, d, from));
    ZeroAbsent();
    assert Present(mem1[d][from / NENTRIES]);
    assert Held(mem1, dirs, Table(d, from / NENTRIES)) == Some(Frame(mem1[d][from / NENTRIES]));
  }

  lemma EmptiedSame(mem0: Mem, mem1: Mem, mem: Mem, dirs: set<nat>, owner: Owners, held: set<nat>, d: nat, from: nat, to: nat)
    requires Emptied(mem0, dirs, mem1, d, from, to) && SameLookups(mem1, dirs, mem)
    requires Kept(owner, held, mem0, mem1) && Kept(owner, held, mem1, mem)
    ensures Emptied(mem0, dirs, mem, d, from, to) && Kept(owner, held, mem0, mem)
  {
    hide Lookup, Present;
  }

  lemma KeptRefl(lo: nat, mem: Mem, dirs: set<nat>, owner: Owners, free: seq<nat>, held: set<nat>, pool: set<nat>, kept: set<nat>)
    requires MachineOk(lo, mem, dirs, owner, free, held, pool)
    ensures Kept(owner, kept, mem, mem) && SameLookups(mem, dirs, mem)
  {
  }
}
