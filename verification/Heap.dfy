/**
 malloc, morecore and free of umalloc.c.  Addresses count units of one 8-byte header; a block is
 named by the address of its header, and malloc returns the unit behind it.
 */
module Heap {
  import opened Common
  import opened HeapList

  const HEADER: nat := 8  // sizeof(Header)
  const UINT: nat := 0x1_0000_0000
  const INT: nat := 0x8000_0000
  const MORE: nat := 4096

  /** (nbytes + sizeof(Header) - 1)/sizeof(Header) + 1 in 32-bit arithmetic. */
  function NUnits(nbytes: nat): nat
  {
    (nbytes + HEADER - 1) % UINT / HEADER + 1
  }

  /** A block of NUnits(nbytes) units holds its header and nbytes bytes exactly when the sum does
      not wrap: the last seven sizes get one unit. */
  lemma UnitsSuffice(nbytes: nat)
    requires nbytes < UINT
    ensures NUnits(nbytes) * HEADER >= HEADER + nbytes <==> nbytes <= UINT - HEADER
    ensures nbytes > UINT - HEADER ==> NUnits(nbytes) == 1
  {
  }

  function CoreUnits(nu: nat): nat
  {
    if nu < MORE then MORE else nu
  }

  /** The argument that sbrk, which takes an int, receives for nu units. */
  function SbrkArgument(nu: nat): int
  {
    var u := nu * HEADER % UINT;
    if u < INT then u else u - UINT
  }

  /** The units that sbrk adds to the process for morecore of nu units. */
  function GrantedUnits(nu: nat): nat
  {
    if SbrkArgument(nu) > 0 then SbrkArgument(nu) / HEADER else 0
  }

  lemma GrantedAtMost(nu: nat)
    ensures GrantedUnits(nu) <= nu
    ensures nu >= 1 ==> (GrantedUnits(nu) == nu <==> SbrkArgument(nu) == nu * HEADER)
  {
  }

  /** sbrk is asked for the units that morecore then claims, except for requests from 2^31 - 15 to 2^32 - 8 bytes. */
  lemma SbrkAsksForThem(nbytes: nat)
    requires nbytes < UINT
    ensures SbrkArgument(CoreUnits(NUnits(nbytes))) == CoreUnits(NUnits(nbytes)) * HEADER
            <==> nbytes <= INT - 2 * HEADER || nbytes > UINT - HEADER
    ensures INT - 2 * HEADER < nbytes <= UINT - 2 * HEADER ==> SbrkArgument(CoreUnits(NUnits(nbytes))) < 0
    ensures UINT - 2 * HEADER < nbytes <= UINT - HEADER ==> SbrkArgument(CoreUnits(NUnits(nbytes))) == 0
  {
  }

  /** Unit x belongs to an allocated block. */
  ghost predicate AllocAt(alloc: Mem, x: nat) {
    exists a :: a in alloc && Inside(a, alloc[a], x)
  }

  ghost predicate AllocOk(sz: Mem, base: nat, alloc: Mem) {
    && (forall a :: a in alloc ==> base < a && alloc[a] >= 1 && a in sz && sz[a] == alloc[a])
    && (forall a, b, x :: a in alloc && b in alloc && Inside(a, alloc[a], x) && Inside(b, alloc[b], x) ==> a == b)
  }

  /** Every unit obtained from sbrk is in exactly one block, free or allocated. */
  ghost predicate Partition(sz: Mem, fl: seq<nat>, alloc: Mem, obtained: set<nat>) {
    && (forall x :: !(FreeAt(sz, fl, x) && AllocAt(alloc, x)))
    && (forall x :: x in obtained <==> FreeAt(sz, fl, x) || AllocAt(alloc, x))
  }

  ghost predicate HeapOk(ptr: Mem, sz: Mem, fl: seq<nat>, base: nat, alloc: Mem, obtained: set<nat>, top: nat) {
    && FreeList(ptr, sz, fl, base)
    && AllocOk(sz, base, alloc)
    && Partition(sz, fl, alloc, obtained)
    && (forall x :: x in obtained ==> base < x < top)
    && base < top
  }

  lemma AllocGone(alloc: Mem, sz: Mem, base: nat, a: nat, x: nat)
    requires AllocOk(sz, base, alloc) && a in alloc
    ensures AllocAt(alloc - {a}, x) <==> AllocAt(alloc, x) && !Inside(a, alloc[a], x)
  {
    if b :| b in alloc && Inside(b, alloc[b], x) && b != a {
      assert b in alloc - {a};
    }
  }

  lemma AllocNew(alloc: Mem, a: nat, n: nat, x: nat)
    requires a !in alloc
    ensures AllocAt(alloc[a := n], x) <==> AllocAt(alloc, x) || Inside(a, n, x)
  {
    if Inside(a, n, x) {
      assert a in alloc[a := n];
    }
    if b :| b in alloc && Inside(b, alloc[b], x) {
      assert b in alloc[a := n];
    }
  }

  /** The place of an allocated block among the free ones. */
  lemma FindPlace(ptr: Mem, sz: Mem, fl: seq<nat>, base: nat, alloc: Mem, obtained: set<nat>, top: nat, bp: nat) returns (t: nat)
    requires HeapOk(ptr, sz, fl, base, alloc, obtained, top) && bp in alloc
    ensures t < |fl| && Between(sz, fl, t, bp, alloc[bp]) && fl[t] < bp
    ensures forall k :: 0 <= k < |fl| ==> (fl[k] < bp <==> k <= t)
  {
    hide Linked, Touch;
    forall k: nat | k < |fl|
      ensures fl[k] + sz[fl[k]] <= bp || bp + alloc[bp] <= fl[k]
      ensures fl[k] != bp
    {
      Apart(sz, fl, base, alloc, obtained, bp, k);
    }
    hide Partition, AllocOk;
    t := 0;
    while t + 1 < |fl| && fl[t + 1] < bp
      invariant t < |fl| && fl[t] < bp
    {
      t := t + 1;
    }
  }

  lemma Apart(sz: Mem, fl: seq<nat>, base: nat, alloc: Mem, obtained: set<nat>, bp: nat, k: nat)
    requires Ordered(sz, fl) && fl != [] && fl[0] == base && sz[base] == 0
    requires AllocOk(sz, base, alloc) && Partition(sz, fl, alloc, obtained) && bp in alloc && k < |fl|
    ensures fl[k] + sz[fl[k]] <= bp || bp + alloc[bp] <= fl[k]
    ensures fl[k] != bp
  {
    var x := if fl[k] < bp then bp else fl[k];
    assert Inside(bp, alloc[bp], x) ==> AllocAt(alloc, x);
    assert Inside(fl[k], sz[fl[k]], x) ==> FreeAt(sz, fl, x);
  }

  /** Handing block bp back. */
  lemma FreeKeeps(ptr: Mem, sz: Mem, fl: seq<nat>, base: nat, alloc: Mem, obtained: set<nat>, top: nat,
                  t: nat, bp: nat, up: bool, low: bool) returns (fl': seq<nat>)
    requires HeapOk(ptr, sz, fl, base, alloc, obtained, top) && bp in alloc && bp in sz && Between(sz, fl, t, bp, alloc[bp])
    requires t < |fl| && Succ(fl, t) in ptr && Succ(fl, t) in sz && fl[t] in sz
    requires up <==> bp + sz[bp] == Succ(fl, t)
    requires low <==> fl[t] + sz[fl[t]] == bp
    ensures HeapOk(PtrAfter(ptr, fl[t], Succ(fl, t), bp, up, low), SizeAfter(sz, fl[t], Succ(fl, t), bp, up, low),
                   fl', base, alloc - {bp}, obtained, top)
    ensures fl[t] in fl'
  {
    hide FreeList, Between, FreeAt, PtrAfter, AllocAt, Succ;
    fl' := PutBack(ptr, sz, fl, base, t, bp, up, low);
    forall x: nat
      ensures AllocAt(alloc - {bp}, x) <==> AllocAt(alloc, x) && !Inside(bp, alloc[bp], x)
    {
      AllocGone(alloc, sz, base, bp, x);
    }
    InsideAlloc(alloc, bp);
    NotAllocated(ptr, sz, fl, base, alloc, obtained, top, t);
  }

  lemma InsideAlloc(alloc: Mem, a: nat)
    requires a in alloc
    ensures forall x :: Inside(a, alloc[a], x) ==> AllocAt(alloc, x)
  {
  }

  lemma NotAllocated(ptr: Mem, sz: Mem, fl: seq<nat>, base: nat, alloc: Mem, obtained: set<nat>, top: nat, k: nat)
    requires HeapOk(ptr, sz, fl, base, alloc, obtained, top) && k < |fl|
    ensures fl[k] !in alloc && fl[k] in sz && fl[k] in ptr
    ensures forall x :: Inside(fl[k], sz[fl[k]], x) ==> FreeAt(sz, fl, x) && x !in alloc
  {
    hide Touch;
    if fl[k] in alloc {
      Apart(sz, fl, base, alloc, obtained, fl[k], k);
    }
    forall x | Inside(fl[k], sz[fl[k]], x)
      ensures x !in alloc
    {
      assert FreeAt(sz, fl, x);
      assert x in alloc ==> Inside(x, alloc[x], x);
      assert x in alloc ==> AllocAt(alloc, x);
    }
  }

  /** Handing out n units at h that were free. */
  lemma MallocKeeps(ptr: Mem, sz: Mem, fl: seq<nat>, base: nat, alloc: Mem, obtained: set<nat>, top: nat,
                    ptr': Mem, sz': Mem, fl': seq<nat>, h: nat, n: nat)
    requires HeapOk(ptr, sz, fl, base, alloc, obtained, top) && n >= 1 && h !in alloc && base < h
    requires FreeList(ptr', sz', fl', base) && h in sz' && sz'[h] == n
    requires forall a :: a in alloc ==> a in sz' && sz'[a] == sz[a]
    requires forall x :: Inside(h, n, x) ==> FreeAt(sz, fl, x)
    requires forall x :: FreeAt(sz', fl', x) <==> FreeAt(sz, fl, x) && !Inside(h, n, x)
    ensures HeapOk(ptr', sz', fl', base, alloc[h := n], obtained, top)
  {
    hide FreeList, FreeAt, AllocAt;
    forall x: nat
      ensures AllocAt(alloc[h := n], x) <==> AllocAt(alloc, x) || Inside(h, n, x)
    {
      AllocNew(alloc, h, n, x);
    }
    forall a, x | a in alloc && Inside(a, alloc[a], x)
      ensures AllocAt(alloc, x)
    {
      InsideAlloc(alloc, a);
    }
  }

  /** A fresh region above everything is, for a moment, an allocated block. */
  lemma GrantKeeps(ptr: Mem, sz: Mem, fl: seq<nat>, base: nat, alloc: Mem, obtained: set<nat>, top: nat, h: nat, n: nat)
    requires HeapOk(ptr, sz, fl, base, alloc, obtained, top) && h >= top && n >= 1
    ensures HeapOk(ptr, sz[h := n], fl, base, alloc[h := n], obtained + Region(h, n), h + n)
    ensures h !in alloc
  {
    hide Linked;
    var sz' := sz[h := n];
    forall k: nat | k < |fl|
      ensures fl[k] < top
    {
      assert k > 0 ==> Inside(fl[k], sz[fl[k]], fl[k]);
      assert k > 0 ==> FreeAt(sz, fl, fl[k]);
    }
    assert h in alloc ==> Inside(h, alloc[h], h);
    assert h in alloc ==> AllocAt(alloc, h);
    GrantUnits(sz, fl, alloc, h, n);
    forall k: nat
      ensures !Touch(sz', fl, k)
    {
      assert !Touch(sz, fl, k);
    }
    forall a: nat, x: nat | a in alloc && Inside(a, alloc[a], x)
      ensures x < top
    {
      assert AllocAt(alloc, x);
    }
    forall x: nat | Inside(h, n, x)
      ensures x in Region(h, n) && x !in obtained
    {
    }
    assert Ordered(sz', fl);
    assert FreeList(ptr, sz', fl, base);
    assert AllocOk(sz', base, alloc[h := n]);
    assert Partition(sz', fl, alloc[h := n], obtained + Region(h, n));
  }

  lemma GrantUnits(sz: Mem, fl: seq<nat>, alloc: Mem, h: nat, n: nat)
    requires h !in fl
    ensures forall x :: FreeAt(sz[h := n], fl, x) <==> FreeAt(sz, fl, x)
    ensures h !in alloc ==> forall x :: AllocAt(alloc[h := n], x) <==> AllocAt(alloc, x) || Inside(h, n, x)
  {
    if h !in alloc {
      forall x: nat
        ensures AllocAt(alloc[h := n], x) <==> AllocAt(alloc, x) || Inside(h, n, x)
      {
        AllocNew(alloc, h, n, x);
      }
    }
  }

  ghost function Region(a: nat, n: nat): set<nat>
  {
    set x: nat | a <= x < a + n && Inside(a, n, x)
  }

  ghost predicate Big(sz: Mem, fl: seq<nat>, n: nat) {
    exists k :: 0 <= k < |fl| && fl[k] in sz && sz[fl[k]] >= n
  }

  /** Free blocks that do not touch are maximal: n free units in a row lie in one block. */
  lemma RunIsOneBlock(ptr: Mem, sz: Mem, fl: seq<nat>, base: nat, a: nat, n: nat)
    requires FreeList(ptr, sz, fl, base) && n >= 1 && forall x :: Inside(a, n, x) ==> FreeAt(sz, fl, x)
    ensures Big(sz, fl, n)
  {
    hide Linked;
    assert Inside(a, n, a);
    var k: nat :| k < |fl| && Inside(fl[k], sz[fl[k]], a);
    var end := fl[k] + sz[fl[k]];
    assert !Touch(sz, fl, k);
    assert forall j :: k + 1 < j < |fl| ==> fl[k + 1] < fl[j];
    assert !FreeAt(sz, fl, end);
    assert Inside(a, n, end) ==> FreeAt(sz, fl, end);
  }

  /** Whatever has n units ends where the heap ends. */
  ghost predicate OnlyAtTop(sz: Mem, fl: seq<nat>, n: nat, top: nat) {
    forall k: nat :: k < |fl| && fl[k] in sz && sz[fl[k]] >= n ==> fl[k] + sz[fl[k]] == top
  }

  /** If no free block had nu units before a region came on top, the only one that has them is the block with that region. */
  lemma OnlyCoreBig(ptr0: Mem, sz0: Mem, fl0: seq<nat>, base: nat, alloc: Mem, obtained0: set<nat>, top0: nat,
                    ptr: Mem, sz: Mem, fl: seq<nat>, obtained: set<nat>, top: nat, hp: nat, n: nat, nu: nat)
    requires HeapOk(ptr0, sz0, fl0, base, alloc, obtained0, top0) && hp >= top0 && 1 <= nu && !Big(sz0, fl0, nu)
    requires HeapOk(ptr, sz, fl, base, alloc, obtained, top) && obtained == obtained0 + Region(hp, n) && top == hp + n
    ensures OnlyAtTop(sz, fl, nu, top)
  {
    hide AllocAt, Big, AllocOk;
    forall k: nat | k < |fl| && fl[k] in sz && sz[fl[k]] >= nu
      ensures fl[k] + sz[fl[k]] == top
    {
      var end := fl[k] + sz[fl[k]];
      BlockObtained(ptr, sz, fl, base, alloc, obtained, top, k);
      if end < top {
        if end > hp {
          assert end in Region(hp, n) && end !in obtained0;
          NotAllocAbove(ptr0, sz0, fl0, base, alloc, obtained0, top0, end);
          assert FreeAt(sz, fl, end);
          BlockEnds(ptr, sz, fl, base, k);
        } else {
          OldRun(ptr0, sz0, fl0, base, alloc, obtained0, top0, ptr, sz, fl, obtained, top, hp, n, k);
          RunIsOneBlock(ptr0, sz0, fl0, base, fl[k], sz[fl[k]]);
          BigEnough(sz0, fl0, sz[fl[k]], nu);
        }
      }
    }
  }

  lemma BlockObtained(ptr: Mem, sz: Mem, fl: seq<nat>, base: nat, alloc: Mem, obtained: set<nat>, top: nat, k: nat)
    requires HeapOk(ptr, sz, fl, base, alloc, obtained, top) && k < |fl|
    ensures fl[k] in sz && forall x: nat :: Inside(fl[k], sz[fl[k]], x) ==> FreeAt(sz, fl, x) && x in obtained && x < top
    ensures sz[fl[k]] >= 1 ==> fl[k] + sz[fl[k]] <= top
  {
    hide Touch, AllocAt;
    forall x | Inside(fl[k], sz[fl[k]], x)
      ensures FreeAt(sz, fl, x)
    {
    }
    assert sz[fl[k]] >= 1 ==> Inside(fl[k], sz[fl[k]], fl[k] + sz[fl[k]] - 1);
  }

  lemma NotAllocAbove(ptr: Mem, sz: Mem, fl: seq<nat>, base: nat, alloc: Mem, obtained: set<nat>, top: nat, x: nat)
    requires HeapOk(ptr, sz, fl, base, alloc, obtained, top) && x >= top
    ensures !AllocAt(alloc, x)
  {
  }

  /** The unit behind a free block is not free. */
  lemma BlockEnds(ptr: Mem, sz: Mem, fl: seq<nat>, base: nat, k: nat)
    requires FreeList(ptr, sz, fl, base) && k < |fl| && fl[k] in sz && sz[fl[k]] >= 1
    ensures !FreeAt(sz, fl, fl[k] + sz[fl[k]])
  {
    hide Linked;
    assert !Touch(sz, fl, k);
    assert forall j :: k + 1 < j < |fl| ==> fl[k + 1] < fl[j];
  }

  /** A block below the new region was free before. */
  lemma OldRun(ptr0: Mem, sz0: Mem, fl0: seq<nat>, base: nat, alloc: Mem, obtained0: set<nat>, top0: nat,
               ptr: Mem, sz: Mem, fl: seq<nat>, obtained: set<nat>, top: nat, hp: nat, n: nat, k: nat)
    requires HeapOk(ptr0, sz0, fl0, base, alloc, obtained0, top0)
    requires HeapOk(ptr, sz, fl, base, alloc, obtained, top) && obtained == obtained0 + Region(hp, n)
    requires k < |fl| && fl[k] in sz && fl[k] + sz[fl[k]] <= hp
    ensures forall x: nat :: Inside(fl[k], sz[fl[k]], x) ==> FreeAt(sz0, fl0, x)
  {
    hide FreeList, FreeAt, AllocAt, AllocOk;
    BlockObtained(ptr, sz, fl, base, alloc, obtained, top, k);
    forall x | Inside(fl[k], sz[fl[k]], x)
      ensures FreeAt(sz0, fl0, x)
    {
      assert x !in Region(hp, n);
    }
  }

  /** malloc's block h: n units off the end of the first block with room, looking from the one behind `from`;
      the next search looks from `prev`. */
  ghost predicate NextFit(sz: Mem, fl: seq<nat>, from: nat, n: nat, h: nat, prev: nat) {
    exists f: nat, j: nat :: Fit(sz, fl, from, n, h, prev, f, j)
  }

  ghost predicate Fit(sz: Mem, fl: seq<nat>, from: nat, n: nat, h: nat, prev: nat, f: nat, j: nat) {
    && f < |fl| && fl[f] == from && 1 <= j <= |fl| && Seen(sz, fl, f, j, n)
    && var q := fl[Around(|fl|, f, j)];
    && q in sz && sz[q] >= n && h + n == q + sz[q] && prev == fl[Around(|fl|, f, j - 1)]
  }

  lemma FitIsBig(sz: Mem, fl: seq<nat>, from: nat, n: nat, h: nat, prev: nat, f: nat, j: nat)
    requires Fit(sz, fl, from, n, h, prev, f, j)
    ensures NextFit(sz, fl, from, n, h, prev) && Big(sz, fl, n)
  {
  }

  /** j steps around a list of n entries from entry f. */
  function Around(n: nat, f: nat, j: nat): (k: nat)
    requires f < n && j <= n
    ensures k < n
  {
    if f + j < n then f + j else f + j - n
  }

  /** A full turn in which every block is too small has seen every block. */
  lemma FullTurn(sz: Mem, fl: seq<nat>, f: nat, n: nat)
    requires f < |fl| && forall j :: 1 <= j <= |fl| ==> fl[Around(|fl|, f, j)] in sz && sz[fl[Around(|fl|, f, j)]] < n
    ensures !Big(sz, fl, n)
  {
    forall k: nat | k < |fl|
      ensures fl[k] in sz && sz[fl[k]] < n
    {
      var j := if k > f then k - f else k - f + |fl|;
      assert Around(|fl|, f, j) == k;
    }
  }

  lemma ListFacts(ptr: Mem, sz: Mem, fl: seq<nat>, base: nat, k: nat)
    requires FreeList(ptr, sz, fl, base) && k < |fl|
    ensures fl[k] in ptr && fl[k] in sz && ptr[fl[k]] == Succ(fl, k) && base <= fl[k]
    ensures sz[fl[k]] >= 1 ==> k >= 1 && base < fl[k]
    ensures forall j :: 0 <= j < |fl| && fl[j] == fl[k] ==> j == k
  {
    hide Touch;
  }

  /** The sizes after malloc has cut n units off the end of block p. */
  function Split(sz: Mem, p: nat, n: nat): Mem
    requires p in sz && n <= sz[p]
  {
    sz[p := sz[p] - n][p + sz[p] - n := n]
  }

  /** malloc's two ways to take n units of block k. */
  lemma TakeKeeps(ptr: Mem, sz: Mem, fl: seq<nat>, base: nat, alloc: Mem, obtained: set<nat>, top: nat, k: nat, n: nat)
    requires HeapOk(ptr, sz, fl, base, alloc, obtained, top) && 1 <= k < |fl| && fl[k] in sz && fl[k] in ptr
    requires 1 <= n <= sz[fl[k]]
    ensures sz[fl[k]] == n ==> fl[k] !in alloc
    ensures sz[fl[k]] == n ==> HeapOk(ptr[fl[k - 1] := ptr[fl[k]]], sz, WithoutAt(fl, k), base, alloc[fl[k] := n], obtained, top)
    ensures sz[fl[k]] > n ==> fl[k] + sz[fl[k]] - n !in alloc
    ensures sz[fl[k]] > n ==> HeapOk(ptr, Split(sz, fl[k], n), fl, base, alloc[fl[k] + sz[fl[k]] - n := n], obtained, top)
  {
    hide FreeList, FreeAt, AllocAt, Partition;
    ListFacts(ptr, sz, fl, base, k);
    NotAllocated(ptr, sz, fl, base, alloc, obtained, top, k);
    if sz[fl[k]] == n {
      TakeWhole(ptr, sz, fl, base, k);
      MallocKeeps(ptr, sz, fl, base, alloc, obtained, top, ptr[fl[k - 1] := ptr[fl[k]]], sz, WithoutAt(fl, k), fl[k], n);
    } else {
      var h := fl[k] + sz[fl[k]] - n;
      assert Inside(fl[k], sz[fl[k]], h);
      assert forall x :: Inside(h, n, x) ==> Inside(fl[k], sz[fl[k]], x);
      TakeTail(ptr, sz, fl, base, k, n);
      MallocKeeps(ptr, sz, fl, base, alloc, obtained, top, ptr, Split(sz, fl[k], n), fl, h, n);
    }
  }

  lemma FirstList(base: nat, ptr: Mem, sz: Mem)
    ensures HeapOk(ptr[base := base], sz[base := 0], [base], base, map[], {}, base + 1)
  {
  }

  /** The loop condition of free and its break, together. */
  predicate Stops(bp: nat, p: nat, q: nat) {
    (bp > p && bp < q) || (p >= q && (bp > p || bp < q))
  }

  /** They hold at exactly one entry. */
  lemma SearchStep(ptr: Mem, sz: Mem, fl: seq<nat>, base: nat, bp: nat, t: nat, k: nat)
    requires FreeList(ptr, sz, fl, base) && t < |fl| && base < bp && k < |fl|
    requires forall i :: 0 <= i < |fl| ==> fl[i] != bp && (fl[i] < bp <==> i <= t)
    ensures fl[k] in ptr && ptr[fl[k]] == Succ(fl, k) && (Stops(bp, fl[k], Succ(fl, k)) <==> k == t)
  {
    hide Touch;
  }

  lemma LastBelow(ptr: Mem, sz: Mem, fl: seq<nat>, base: nat, bp: nat, t: nat)
    requires FreeList(ptr, sz, fl, base) && t < |fl| && forall k :: 0 <= k < |fl| ==> (fl[k] < bp <==> k <= t)
    ensures fl[t] in fl && forall q :: q in fl && q < bp ==> q <= fl[t]
  {
    hide Linked, Touch;
  }

  lemma NextEntry(fl: seq<nat>, k: nat)
    requires k < |fl|
    ensures Succ(fl, k) == fl[if k + 1 < |fl| then k + 1 else 0]
  {
  }

  class Allocator {
    const base: nat
    /** s.ptr and s.size of the header at each address. */
    var ptr: Mem
    var sz: Mem
    var freep: nat
    ghost var fl: seq<nat>
    ghost var alloc: Mem
    /** The units that morecore has put on the list, and those that sbrk has really added. */
    ghost var obtained: set<nat>
    ghost var granted: set<nat>
    ghost var top: nat

    /** freep is null until the first malloc. */
    ghost predicate Valid()
      reads this
    {
      && 0 < base < top
      && granted <= obtained && (freep == 0 ==> alloc == map[] && obtained == {})
      && (freep != 0 ==> HeapOk(ptr, sz, fl, base, alloc, obtained, top) && freep in fl)
    }

    constructor (base: nat)
      requires base > 0
      ensures Valid() && this.base == base && freep == 0 && alloc == map[] && obtained == granted == {} && top == base + 1
    {
      this.base, ptr, sz, freep := base, map[], map[], 0;
      fl, alloc, obtained, granted, top := [], map[], {}, {}, base + 1;
    }

    /** The search loop of free: the list entry behind which bp belongs. */
    method FindPrevious(bp: nat, ghost t: nat) returns (p: nat)
      requires FreeList(ptr, sz, fl, base) && freep in fl && t < |fl| && base < bp
      requires forall k :: 0 <= k < |fl| ==> fl[k] != bp && (fl[k] < bp <==> k <= t)
      ensures p == fl[t] && p in ptr
    {
      hide FreeList, Succ;
      p := freep;
      ghost var k: nat :| k < |fl| && fl[k] == p;
      SearchStep(ptr, sz, fl, base, bp, t, k);
      while !(bp > p && bp < ptr[p])
        invariant k < |fl| && p == fl[k] && p in ptr && ptr[p] == Succ(fl, k)
        invariant Stops(bp, p, ptr[p]) <==> k == t
        decreases if k <= t then t - k else |fl| - k + t
      {
        if p >= ptr[p] && (bp > p || bp < ptr[p]) {
          break;
        }
        ghost var k' := if k + 1 < |fl| then k + 1 else 0;
        SearchStep(ptr, sz, fl, base, bp, t, k');
        NextEntry(fl, k);
        p := ptr[p];
        k := k';
      }
    }

    /** A valid free returns exactly its block to the list. */
    method Free(ap: nat)
      requires Valid() && ap >= 1 && ap - 1 in alloc
      modifies this
      ensures Valid() && freep != 0 && obtained == old(obtained) && granted == old(granted) && top == old(top)
      ensures alloc == old(alloc) - {ap - 1}
      ensures freep in old(fl) && freep < ap - 1 && forall q :: q in old(fl) && q < ap - 1 ==> q <= freep
    {
      hide HeapOk, FreeList, PtrAfter, SizeAfter, Between, Succ;
      var bp := ap - 1;
      ghost var t := FindPlace(ptr, sz, fl, base, alloc, obtained, top, bp);
      PlaceFacts(ptr, sz, fl, base, alloc, obtained, top, bp, t);
      var p := FindPrevious(bp, t);
      LastBelow(ptr, sz, fl, base, bp, t);
      var q := ptr[p];
      ghost var up, low := bp + sz[bp] == q, p + sz[p] == bp;
      ghost var fl' := FreeKeeps(ptr, sz, fl, base, alloc, obtained, top, t, bp, up, low);
      if bp + sz[bp] == ptr[p] {
        sz := sz[bp := sz[bp] + sz[ptr[p]]];
        ptr := ptr[bp := ptr[ptr[p]]];
      } else {
        ptr := ptr[bp := ptr[p]];
      }
      if p + sz[p] == bp {
        sz := sz[p := sz[p] + sz[bp]];
        ptr := ptr[p := ptr[bp]];
      } else {
        ptr := ptr[p := bp];
      }
      FieldsAfter(old(ptr), old(sz), p, q, bp, up, low, ptr, sz);
      freep := p;
      fl := fl';
      alloc := alloc - {bp};
    }

    /** Fresh memory goes onto the list by way of free. */
    method Morecore(nu: nat, grant: Option<nat>) returns (p: nat)
      requires Valid() && freep != 0 && nu >= 1 && (grant.Some? ==> grant.value >= top)
      modifies this
      ensures Valid() && freep != 0 && alloc == old(alloc) && p == (if grant.Some? then freep else 0)
      ensures grant.None? ==> ptr == old(ptr) && sz == old(sz) && fl == old(fl) && freep == old(freep)
      ensures grant.None? ==> obtained == old(obtained) && granted == old(granted) && top == old(top)
      ensures grant.Some? ==> obtained == old(obtained) + Region(grant.value, CoreUnits(nu)) && top == grant.value + CoreUnits(nu)
      ensures grant.Some? ==> granted == old(granted) + Region(grant.value, GrantedUnits(CoreUnits(nu)))
      ensures grant.Some? ==> Big(sz, fl, nu) && (!Big(old(sz), old(fl), nu) ==> OnlyAtTop(sz, fl, nu, top))
    {
      hide HeapOk, Region, Big, GrantedUnits, OnlyAtTop;
      var n := if nu < MORE then MORE else nu;
      if grant.None? {
        return 0;
      }
      var hp := grant.value;
      GrantKeeps(ptr, sz, fl, base, alloc, obtained, top, hp, n);
      sz := sz[hp := n];
      alloc := alloc[hp := n];
      GrantedAtMost(n);
      RegionWithin(hp, GrantedUnits(n), n);
      obtained, granted := obtained + Region(hp, n), granted + Region(hp, GrantedUnits(n));
      top := hp + n;
      Free(hp + 1);
      assert alloc == old(alloc);
      CoreIsBig(ptr, sz, fl, base, old(alloc), old(obtained), old(top), obtained, top, hp, n, nu, old(sz), old(fl), old(ptr));
      if !Big(old(sz), old(fl), nu) {
        OnlyCoreBig(old(ptr), old(sz), old(fl), base, old(alloc), old(obtained), old(top), ptr, sz, fl, obtained, top, hp, n, nu);
      }
      p := freep;
    }

    /** Unlinks or splits block p, behind prevp. */
    method Take(prevp: nat, p: nat, nunits: nat, ghost k: nat) returns (r: nat)
      requires Valid() && freep != 0 && 1 <= k < |fl| && p == fl[k] && prevp == fl[k - 1]
      requires p in sz && p in ptr && 1 <= nunits <= sz[p]
      modifies this
      ensures Valid() && freep != 0 && obtained == old(obtained) && granted == old(granted) && top == old(top)
      ensures r > 0 && r - 1 !in old(alloc) && alloc == old(alloc)[r - 1 := nunits]
      ensures r - 1 + nunits == p + old(sz)[p] && freep == prevp
    {
      hide HeapOk;
      TakeKeeps(ptr, sz, fl, base, alloc, obtained, top, k, nunits);
      var q := p;
      if sz[p] == nunits {
        ptr := ptr[prevp := ptr[p]];
        fl := WithoutAt(fl, k);
        assert fl[k - 1] == prevp;
      } else {
        sz := sz[p := sz[p] - nunits];
        q := p + sz[p];
        sz := sz[q := nunits];
        assert sz == Split(old(sz), p, nunits);
      }
      alloc := alloc[q := nunits];
      EntriesNonNull(ptr, sz, fl, base, alloc, obtained, top, k - 1);
      freep := prevp;
      r := q + 1;
    }

    /** First fit, growing the heap at most once.  `grant` is what sbrk answers, should it be called. */
    method Malloc(nbytes: nat, grant: Option<nat>) returns (r: nat, ghost calls: nat)
      requires Valid() && nbytes < UINT
      requires grant.Some? ==> grant.value >= top
      modifies this
      ensures Valid() && freep != 0 && calls <= 1
      ensures calls == 1 <==> old(freep) == 0 || !Big(old(sz), old(fl), NUnits(nbytes))
      ensures r == 0 <==> calls == 1 && grant.None?
      ensures r == 0 ==> alloc == old(alloc) && obtained == old(obtained)
      ensures r != 0 ==> r - 1 !in old(alloc) && alloc == old(alloc)[r - 1 := NUnits(nbytes)]
      ensures calls == 0 ==> r > 0 && NextFit(old(sz), old(fl), old(freep), NUnits(nbytes), r - 1, freep)
      ensures calls == 1 && grant.Some? ==> r - 1 + NUnits(nbytes) == grant.value + CoreUnits(NUnits(nbytes))
      ensures obtained == old(obtained) + (if calls == 1 && grant.Some? then Region(grant.value, CoreUnits(NUnits(nbytes))) else {})
      ensures old(obtained) == old(granted) ==>
        (obtained == granted <==> calls == 0 || grant.None? || nbytes <= INT - 2 * HEADER || nbytes > UINT - HEADER)
    {
      hide HeapOk, Region, Big, NUnits, CoreUnits, SbrkArgument, GrantedUnits, NextFit;
      var nunits := NUnits(nbytes);
      UnitsPositive(nbytes);
      if freep == 0 {
        FirstUse();
      }
      ghost var top0 := top;
      BelowTop(ptr, sz, fl, base, alloc, obtained, top);
      r, calls := FirstFit(nunits, grant);
      if calls == 1 && grant.Some? && old(obtained) == old(granted) {
        SbrkAsksForThem(nbytes);
        CorePositive(nunits);
        HonestGrant(old(obtained), top0, grant.value, CoreUnits(nunits), old(granted));
      }
    }

    method FirstUse()
      requires Valid() && freep == 0
      modifies this
      ensures Valid() && freep == base && alloc == old(alloc) && obtained == old(obtained)
      ensures granted == old(granted) && top == old(top) && forall n :: n >= 1 ==> !Big(sz, fl, n)
    {
      hide HeapOk;
      FirstList(base, ptr, sz);
      ptr, sz := ptr[base := base], sz[base := 0];
      freep := base;
      fl := [base];
      TopGrows(ptr, sz, fl, base, alloc, obtained, base + 1, top);
    }

    /** The search loop of malloc. */
    method FirstFit(nunits: nat, grant: Option<nat>) returns (r: nat, ghost calls: nat)
      requires Valid() && freep != 0 && nunits >= 1 && (grant.Some? ==> grant.value >= top)
      modifies this
      ensures Valid() && freep != 0 && calls <= 1
      ensures r == 0 <==> calls == 1 && grant.None?
      ensures r == 0 ==> alloc == old(alloc) && obtained == old(obtained)
      ensures r != 0 ==> r - 1 !in old(alloc) && alloc == old(alloc)[r - 1 := nunits]
      ensures calls == 0 ==> r > 0 && NextFit(old(sz), old(fl), old(freep), nunits, r - 1, freep)
      ensures calls == 1 && grant.Some? ==> r - 1 + nunits == grant.value + CoreUnits(nunits)
      ensures obtained == old(obtained) + (if calls == 1 && grant.Some? then Region(grant.value, CoreUnits(nunits)) else {})
      ensures granted == old(granted) + (if calls == 1 && grant.Some? then Region(grant.value, GrantedUnits(CoreUnits(nunits))) else {})
      ensures calls == 1 <==> !Big(old(sz), old(fl), nunits)
    {
      hide HeapOk, Region, Big, CoreUnits, GrantedUnits, Around, Seen, Succ, NextFit;
      calls := 0;
      ghost var f: nat :| f < |fl| && fl[f] == freep;
      ghost var s := 1;
      HeapEntry(ptr, sz, fl, base, alloc, obtained, top, f);
      Start(sz, fl, f, nunits);
      var prevp := freep;
      var p := ptr[prevp];
      while true
        invariant Valid() && freep != 0 && alloc == old(alloc) && calls <= 1
        invariant f < |fl| && fl[f] == freep && 1 <= s <= |fl|
        invariant prevp == fl[Around(|fl|, f, s - 1)] && p == fl[Around(|fl|, f, s)]
        invariant Seen(sz, fl, f, s, nunits)
        invariant calls == 0 ==> freep == old(freep) && sz == old(sz) && fl == old(fl) && obtained == old(obtained) && granted == old(granted) && top == old(top)
        invariant calls == 1 ==> grant.Some? && Big(sz, fl, nunits) && !Big(old(sz), old(fl), nunits)
        invariant calls == 1 ==> OnlyAtTop(sz, fl, nunits, top) && top == grant.value + CoreUnits(nunits)
        invariant calls == 1 ==> obtained == old(obtained) + Region(grant.value, CoreUnits(nunits))
        invariant calls == 1 ==> granted == old(granted) + Region(grant.value, GrantedUnits(CoreUnits(nunits)))
        decreases 1 - calls, |fl| - s
      {
        ghost var k := Around(|fl|, f, s);
        Turn(sz, fl, f, s, nunits);
        HeapEntry(ptr, sz, fl, base, alloc, obtained, top, k);
        if sz[p] >= nunits {
          r := Take(prevp, p, nunits, k);
          if calls == 0 {
            FitIsBig(old(sz), old(fl), old(freep), nunits, r - 1, prevp, f, s);
          }
          return;
        }
        if p == freep {
          p := Morecore(nunits, grant);
          calls := calls + 1;
          if p == 0 {
            return 0, calls;
          }
          f :| f < |fl| && fl[f] == freep;
          s := 0;
          HeapEntry(ptr, sz, fl, base, alloc, obtained, top, f);
          Start(sz, fl, f, nunits);
        }
        s := s + 1;
        prevp := p;
        p := ptr[p];
      }
    }
  }

  lemma RegionWithin(h: nat, g: nat, n: nat)
    requires g <= n
    ensures Region(h, g) <= Region(h, n)
  {
  }

  lemma BelowTop(ptr: Mem, sz: Mem, fl: seq<nat>, base: nat, alloc: Mem, obtained: set<nat>, top: nat)
    requires HeapOk(ptr, sz, fl, base, alloc, obtained, top)
    ensures forall x :: x in obtained ==> x < top
  {
  }

  lemma CorePositive(nu: nat)
    ensures CoreUnits(nu) >= 1
  {
  }

  /** What morecore claims is what sbrk gave exactly if sbrk was asked for it. */
  lemma HonestGrant(obtained: set<nat>, top: nat, h: nat, n: nat, granted: set<nat>)
    requires h >= top && n >= 1 && granted == obtained && forall x :: x in obtained ==> x < top
    ensures obtained + Region(h, n) == granted + Region(h, GrantedUnits(n)) <==> SbrkArgument(n) == n * HEADER
  {
    hide SbrkArgument, GrantedUnits;
    GrantedAtMost(n);
    var g := GrantedUnits(n);
    if g < n {
      assert h + g in Region(h, n) && h + g !in Region(h, g) && h + g !in granted;
    }
  }

  lemma UnitsPositive(nbytes: nat)
    ensures NUnits(nbytes) >= 1
  {
  }

  /** The blocks passed so far were too small. */
  ghost predicate Seen(sz: Mem, fl: seq<nat>, f: nat, s: nat, n: nat) {
    f < |fl| && s <= |fl| + 1 &&
    forall j :: 1 <= j < s ==> fl[Around(|fl|, f, j)] in sz && sz[fl[Around(|fl|, f, j)]] < n
  }

  lemma Start(sz: Mem, fl: seq<nat>, f: nat, n: nat)
    requires f < |fl|
    ensures fl[Around(|fl|, f, 0)] == fl[f] && fl[Around(|fl|, f, 1)] == Succ(fl, f) && Seen(sz, fl, f, 1, n)
  {
  }

  lemma Turn(sz: Mem, fl: seq<nat>, f: nat, s: nat, n: nat)
    requires f < |fl| && 1 <= s <= |fl| && Seen(sz, fl, f, s, n)
    ensures var k := Around(|fl|, f, s);
      && k < |fl| && (k >= 1 ==> Around(|fl|, f, s - 1) == k - 1) && (k == f <==> s == |fl|)
      && (fl[k] in sz && sz[fl[k]] < n ==> Seen(sz, fl, f, s + 1, n))
      && (s < |fl| ==> fl[Around(|fl|, f, s + 1)] == Succ(fl, k))
      && (s == |fl| && fl[k] in sz && sz[fl[k]] < n ==> !Big(sz, fl, n))
  {
    var k := Around(|fl|, f, s);
    if s == |fl| && fl[k] in sz && sz[fl[k]] < n {
      FullTurn(sz, fl, f, n);
    }
  }

  lemma HeapEntry(ptr: Mem, sz: Mem, fl: seq<nat>, base: nat, alloc: Mem, obtained: set<nat>, top: nat, k: nat)
    requires HeapOk(ptr, sz, fl, base, alloc, obtained, top) && k < |fl|
    ensures fl[k] in ptr && fl[k] in sz && ptr[fl[k]] == Succ(fl, k)
    ensures sz[fl[k]] >= 1 ==> k >= 1
    ensures forall j :: 0 <= j < |fl| && fl[j] == fl[k] ==> j == k
  {
    hide FreeList, AllocOk, Partition;
    ListFacts(ptr, sz, fl, base, k);
  }

  lemma TopGrows(ptr: Mem, sz: Mem, fl: seq<nat>, base: nat, alloc: Mem, obtained: set<nat>, top: nat, top': nat)
    requires HeapOk(ptr, sz, fl, base, alloc, obtained, top) && top <= top'
    ensures HeapOk(ptr, sz, fl, base, alloc, obtained, top')
  {
  }

  lemma EntriesNonNull(ptr: Mem, sz: Mem, fl: seq<nat>, base: nat, alloc: Mem, obtained: set<nat>, top: nat, k: nat)
    requires HeapOk(ptr, sz, fl, base, alloc, obtained, top) && k < |fl| && 0 < base
    ensures fl[k] != 0
  {
    hide Touch, FreeAt, AllocAt;
  }

  /** The units that came from sbrk are free afterwards, so they lie in one block. */
  lemma CoreIsBig(ptr: Mem, sz: Mem, fl: seq<nat>, base: nat, alloc: Mem, obtained0: set<nat>, top0: nat,
                  obtained: set<nat>, top: nat, hp: nat, n: nat, nu: nat, sz0: Mem, fl0: seq<nat>, ptr0: Mem)
    requires HeapOk(ptr0, sz0, fl0, base, alloc, obtained0, top0) && hp >= top0 && 1 <= nu <= n
    requires HeapOk(ptr, sz, fl, base, alloc, obtained, top) && obtained == obtained0 + Region(hp, n)
    ensures Big(sz, fl, nu)
  {
    hide FreeList, FreeAt, AllocAt, Big;
    forall x: nat | Inside(hp, n, x)
      ensures FreeAt(sz, fl, x)
    {
      assert x in Region(hp, n) && x !in obtained0;
    }
    RunIsOneBlock(ptr, sz, fl, base, hp, n);
    BigEnough(sz, fl, n, nu);
  }

  lemma BigEnough(sz: Mem, fl: seq<nat>, n: nat, nu: nat)
    requires Big(sz, fl, n) && nu <= n
    ensures Big(sz, fl, nu)
  {
  }

  lemma PlaceFacts(ptr: Mem, sz: Mem, fl: seq<nat>, base: nat, alloc: Mem, obtained: set<nat>, top: nat, bp: nat, t: nat)
    requires HeapOk(ptr, sz, fl, base, alloc, obtained, top) && bp in alloc && t < |fl|
    ensures FreeList(ptr, sz, fl, base) && base < bp && bp in sz && sz[bp] == alloc[bp]
    ensures fl[t] in ptr && fl[t] in sz && ptr[fl[t]] == Succ(fl, t) && Succ(fl, t) in ptr && Succ(fl, t) in sz
    ensures forall k :: 0 <= k < |fl| ==> fl[k] != bp
    ensures 0 < base ==> fl[t] != 0 && Succ(fl, t) != bp
  {
    hide Touch, FreeAt, AllocAt;
    forall k: nat | k < |fl|
      ensures fl[k] != bp
    {
      Apart(sz, fl, base, alloc, obtained, bp, k);
    }
  }

  lemma FieldsAfter(ptr: Mem, sz: Mem, p: nat, q: nat, bp: nat, up: bool, low: bool, ptr': Mem, sz': Mem)
    requires p in ptr && q in ptr && p in sz && q in sz && bp in sz && bp != p && bp != q
    requires var ptr1 := if up then ptr[bp := ptr[q]] else ptr[bp := q];
      ptr' == if low then ptr1[p := ptr1[bp]] else ptr1[p := bp]
    requires var sz1 := if up then sz[bp := sz[bp] + sz[q]] else sz;
      sz' == if low then sz1[p := sz1[p] + sz1[bp]] else sz1
    ensures ptr' == PtrAfter(ptr, p, q, bp, up, low) && sz' == SizeAfter(sz, p, q, bp, up, low)
  {
  }
}
