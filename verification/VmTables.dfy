/**
 Two-level page tables of vm.c in physical memory, and who owns which page.  Pages are numbered
 by physical frame; a page is an array of 1024 words, which is what a page directory or a page
 table is.  A role is a place that can hold a page.
 */
module VmTables {
  import opened Common

  const PGSIZE: nat := 4096
  const NENTRIES: nat := 1024            // NPDENTRIES == NPTENTRIES
  const VPNS: nat := NENTRIES * NENTRIES
  const KERNBASE: nat := 0x8000_0000
  const UVPN: nat := KERNBASE / PGSIZE   // first kernel page number
  const ADDRS: nat := 0x1_0000_0000

  const PTE_P: nat := 1
  const PTE_W: nat := 2
  const PTE_U: nat := 4

  type Page = p: seq<nat> | |p| == NENTRIES witness seq(NENTRIES, _ => 0)

  type Mem = seq<Page>

  function ZeroPage(): (p: Page)
    ensures forall k :: 0 <= k < NENTRIES ==> p[k] == 0
  {
    seq(NENTRIES, _ => 0)
  }

  // ---- Entries ----

  predicate Present(e: nat) {
    e % 2 == 1
  }

  /** PTE_ADDR as a frame number. */
  function Frame(e: nat): nat
  {
    e / PGSIZE
  }

  function Flags(e: nat): nat
  {
    e % PGSIZE
  }

  /** pa | perm | PTE_P for a page-aligned pa. */
  function MkPte(frame: nat, perm: nat): nat
    requires perm < PGSIZE
  {
    frame * PGSIZE + perm + (if perm % 2 == 0 then PTE_P else 0)
  }

  lemma PteFields(frame: nat, perm: nat)
    requires perm < PGSIZE
    ensures Present(MkPte(frame, perm)) && Frame(MkPte(frame, perm)) == frame
    ensures Flags(MkPte(frame, perm)) == perm + (if perm % 2 == 0 then PTE_P else 0)
  {
  }

  // ---- The walk ----

  /** The entry for virtual page v under directory d, 0 where there is no table: the flat view. */
  function Lookup(mem: Mem, d: nat, v: nat): nat
    requires d < |mem| && v < VPNS
  {
    var pde := mem[d][v / NENTRIES];
    if Present(pde) && Frame(pde) < |mem| then mem[Frame(pde)][v % NENTRIES] else 0
  }

  datatype Role = Dir(d: nat) | Table(d: nat, i: nat) | User(d: nat, v: nat)

  /** The page that a role holds, if any. */
  function Held(mem: Mem, dirs: set<nat>, r: Role): Option<nat>
  {
    if r.d !in dirs || r.d >= |mem| then None
    else
      match r
      case Dir(d) => Some(d)
      case Table(d, i) => if i < NENTRIES && Present(mem[d][i]) then Some(Frame(mem[d][i])) else None
      case User(d, v) => if v < UVPN && Present(Lookup(mem, d, v)) then Some(Frame(Lookup(mem, d, v))) else None
  }

  type Owners = map<nat, Role>

  /** Every page that a directory, a table or a user mapping occupies has exactly that role as its owner. */
  ghost predicate Owned(mem: Mem, dirs: set<nat>, owner: Owners, lo: nat) {
    && (forall r :: Held(mem, dirs, r).Some? ==> Held(mem, dirs, r).value in owner && owner[Held(mem, dirs, r).value] == r)
    && (forall b :: b in owner ==> lo <= b < |mem| && Held(mem, dirs, owner[b]) == Some(b))
    && (forall d :: d in dirs ==> d < |mem|)
  }

  lemma HeldOnce(mem: Mem, dirs: set<nat>, owner: Owners, lo: nat, r: Role, s: Role)
    requires Owned(mem, dirs, owner, lo) && Held(mem, dirs, r).Some? && Held(mem, dirs, r) == Held(mem, dirs, s)
    ensures r == s
  {
  }

  /** Exactly role r changes what it holds, to x. */
  ghost predicate Changes(mem: Mem, dirs: set<nat>, mem': Mem, dirs': set<nat>, r: Role, x: Option<nat>) {
    && |mem'| == |mem|
    && forall s :: Held(mem', dirs', s) == if s == r then x else Held(mem, dirs, s)
  }

  lemma OwnerGains(mem: Mem, dirs: set<nat>, mem': Mem, dirs': set<nat>, owner: Owners, lo: nat, r: Role, b: nat)
    requires Owned(mem, dirs, owner, lo) && Changes(mem, dirs, mem', dirs', r, Some(b))
    requires Held(mem, dirs, r).None? && b !in owner && lo <= b < |mem| && forall d :: d in dirs' ==> d < |mem|
    ensures Owned(mem', dirs', owner[b := r], lo)
  {
    hide Held;
  }

  lemma OwnerLoses(mem: Mem, dirs: set<nat>, mem': Mem, owner: Owners, lo: nat, r: Role, b: nat)
    requires Owned(mem, dirs, owner, lo) && Changes(mem, dirs, mem', dirs, r, None) && Held(mem, dirs, r) == Some(b)
    ensures Owned(mem', dirs, owner - {b}, lo)
  {
    hide Held;
  }

  ghost predicate SameLookups(mem: Mem, dirs: set<nat>, mem': Mem) {
    && |mem'| == |mem| && (forall d :: d in dirs ==> d < |mem|)
    && forall d: nat, v: nat :: d in dirs && v < VPNS ==> Lookup(mem', d, v) == Lookup(mem, d, v)
  }

  ghost predicate SamePdes(mem: Mem, dirs: set<nat>, mem': Mem) {
    && |mem'| == |mem| && (forall d :: d in dirs ==> d < |mem|)
    && forall d: nat, i: nat :: d in dirs && i < NENTRIES ==> mem'[d][i] == mem[d][i]
  }

  /** Writing a page that is no directory and no table changes no mapping. */
  lemma PageWrite(mem: Mem, dirs: set<nat>, owner: Owners, lo: nat, b: nat, p: Page)
    requires Owned(mem, dirs, owner, lo) && b < |mem| && (b in owner ==> owner[b].User?)
    ensures SameLookups(mem, dirs, mem[b := p])
    ensures Owned(mem[b := p], dirs, owner, lo)
  {
    hide Frame, Present;
    var mem' := mem[b := p];
    forall d: nat | d in dirs
      ensures d != b
    {
      assert Held(mem, dirs, Dir(d)) == Some(d);
    }
    forall d: nat, v: nat | d in dirs && v < VPNS
      ensures Lookup(mem', d, v) == Lookup(mem, d, v)
    {
      assert Held(mem, dirs, Table(d, v / NENTRIES)) != Some(b);
    }
    HeldFrame(mem, dirs, mem');
  }

  /** What roles hold depends on the directories and the flat view only. */
  lemma HeldFrame(mem: Mem, dirs: set<nat>, mem': Mem)
    requires SameLookups(mem, dirs, mem') && SamePdes(mem, dirs, mem')
    ensures forall r :: Held(mem', dirs, r) == Held(mem, dirs, r)
  {
    hide Lookup, Frame, Present;
  }

  /** Where the entry of virtual page v lives. */
  lemma TableOwned(mem: Mem, dirs: set<nat>, owner: Owners, lo: nat, d: nat, i: nat)
    requires Owned(mem, dirs, owner, lo) && d in dirs && i < NENTRIES && Present(mem[d][i])
    ensures lo <= Frame(mem[d][i]) < |mem| && Frame(mem[d][i]) in owner && owner[Frame(mem[d][i])] == Table(d, i)
    ensures Frame(mem[d][i]) !in dirs
  {
    hide Frame, Present, Lookup;
    var t := Frame(mem[d][i]);
    assert Held(mem, dirs, Table(d, i)) == Some(t);
    assert t in dirs ==> Held(mem, dirs, Dir(t)) == Some(t);
  }

  /** Storing e through the pointer that walkpgdir returns changes exactly the entry of v. */
  lemma PteWrite(mem: Mem, dirs: set<nat>, owner: Owners, lo: nat, d: nat, v: nat, e: nat)
    requires Owned(mem, dirs, owner, lo) && d in dirs && v < VPNS && Present(mem[d][v / NENTRIES])
    ensures var t := Frame(mem[d][v / NENTRIES]);
      && t < |mem|
      && var mem' := mem[t := mem[t][v % NENTRIES := e]];
      && SamePdes(mem, dirs, mem')
      && forall d': nat, u: nat :: d' in dirs && u < VPNS ==> Lookup(mem', d', u) == if d' == d && u == v then e else Lookup(mem, d', u)
  {
    hide Frame, Present;
    TableOwned(mem, dirs, owner, lo, d, v / NENTRIES);
    var t := Frame(mem[d][v / NENTRIES]);
    var mem' := mem[t := mem[t][v % NENTRIES := e]];
    forall d': nat, u: nat | d' in dirs && u < VPNS
      ensures Lookup(mem', d', u) == if d' == d && u == v then e else Lookup(mem, d', u)
    {
      var i := u / NENTRIES;
      if Present(mem[d'][i]) && Frame(mem[d'][i]) == t {
        assert Held(mem, dirs, Table(d', i)) == Some(t);
        assert d' == d && i == v / NENTRIES;
      }
    }
  }

  /** Hanging a zeroed page t into directory d as table i changes no lookup. */
  lemma PdeWrite(mem: Mem, dirs: set<nat>, owner: Owners, lo: nat, d: nat, i: nat, t: nat)
    requires Owned(mem, dirs, owner, lo) && d in dirs && i < NENTRIES && !Present(mem[d][i])
    requires t !in owner && t < |mem| && mem[t] == ZeroPage()
    ensures var mem' := mem[d := mem[d][i := MkPte(t, PTE_W + PTE_U)]];
      && SameLookups(mem, dirs, mem')
      && (forall d': nat, k: nat :: d' in dirs && k < NENTRIES ==> mem'[d'][k] == if d' == d && k == i then MkPte(t, PTE_W + PTE_U) else mem[d'][k])
  {
    PteFields(t, PTE_W + PTE_U);
    hide Frame, Present, MkPte, ZeroPage;
    var mem' := mem[d := mem[d][i := MkPte(t, PTE_W + PTE_U)]];
    assert Held(mem, dirs, Dir(d)) == Some(d);
    forall d': nat, v: nat | d' in dirs && v < VPNS
      ensures Lookup(mem', d', v) == Lookup(mem, d', v)
    {
      var k := v / NENTRIES;
      if Present(mem[d'][k]) {
        TableOwned(mem, dirs, owner, lo, d', k);
      }
    }
  }

  /** An entry of the user half is a place for a page; one of the kernel half is not. */
  lemma PteHeld(mem: Mem, dirs: set<nat>, mem': Mem, d: nat, v: nat, e: nat)
    requires d in dirs && v < VPNS && SamePdes(mem, dirs, mem')
    requires forall d': nat, u: nat :: d' in dirs && u < VPNS ==> Lookup(mem', d', u) == if d' == d && u == v then e else Lookup(mem, d', u)
    ensures v < UVPN ==> Changes(mem, dirs, mem', dirs, User(d, v), if Present(e) then Some(Frame(e)) else None)
    ensures v >= UVPN ==> forall r :: Held(mem', dirs, r) == Held(mem, dirs, r)
  {
    hide Lookup, Frame, Present;
  }

  lemma PdeHeld(mem: Mem, dirs: set<nat>, mem': Mem, d: nat, i: nat, t: nat)
    requires d in dirs && i < NENTRIES && SameLookups(mem, dirs, mem')
    requires forall d': nat, k: nat :: d' in dirs && k < NENTRIES ==> mem'[d'][k] == if d' == d && k == i then MkPte(t, PTE_W + PTE_U) else mem[d'][k]
    ensures Changes(mem, dirs, mem', dirs, Table(d, i), Some(t))
  {
    hide Lookup, Frame, Present, MkPte;
    PteFields(t, PTE_W + PTE_U);
  }

  lemma DirHeld(mem: Mem, dirs: set<nat>, d: nat)
    requires d < |mem| && d !in dirs && mem[d] == ZeroPage()
    ensures Changes(mem, dirs, mem, dirs + {d}, Dir(d), Some(d))
    ensures forall v: nat :: v < VPNS ==> Lookup(mem, d, v) == 0
  {
    hide ZeroPage;
    assert forall i: nat :: i < NENTRIES ==> !Present(mem[d][i]);
  }
}
