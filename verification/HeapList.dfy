/**
 The free list of umalloc.c as a value: header fields `ptr` and `size` per address, addresses
 counted in units of one header, and the list of free blocks in address order with the
 zero-sized `base` header first.
 */
module HeapList {

  type Mem = map<nat, nat>

  /** Unit x belongs to the block of n units at a. */
  predicate Inside(a: nat, n: nat, x: nat) {
    a <= x < a + n
  }

  function Succ(fl: seq<nat>, k: nat): nat
    requires k < |fl|
  {
    if k + 1 < |fl| then fl[k + 1] else fl[0]
  }

  /** Following ptr goes once around the list: one cycle, one wrap. */
  ghost predicate Linked(ptr: Mem, fl: seq<nat>) {
    forall k :: 0 <= k < |fl| ==> fl[k] in ptr && ptr[fl[k]] == Succ(fl, k)
  }

  /** Increasing addresses, no overlap. */
  ghost predicate Ordered(sz: Mem, fl: seq<nat>) {
    && (forall k :: 0 <= k < |fl| ==> fl[k] in sz)
    && (forall k :: 1 <= k < |fl| ==> sz[fl[k]] >= 1)
    && (forall j, k :: 0 <= j < k < |fl| ==> fl[j] + sz[fl[j]] <= fl[k] && fl[j] < fl[k])
  }

  ghost predicate Cycle(ptr: Mem, sz: Mem, fl: seq<nat>, base: nat) {
    && fl != [] && fl[0] == base
    && Linked(ptr, fl)
    && Ordered(sz, fl)
    && sz[base] == 0
  }

  ghost predicate Touch(sz: Mem, fl: seq<nat>, k: nat)
  {
    k + 1 < |fl| && fl[k] in sz && fl[k] + sz[fl[k]] == fl[k + 1]
  }

  /** One address-ordered cycle with one wrap, in which no two free blocks touch. */
  ghost predicate FreeList(ptr: Mem, sz: Mem, fl: seq<nat>, base: nat) {
    && Cycle(ptr, sz, fl, base)
    && forall k: nat :: !Touch(sz, fl, k)
  }

  /** Unit x is on the free list. */
  ghost predicate FreeAt(sz: Mem, fl: seq<nat>, x: nat)
  {
    exists k :: 0 <= k < |fl| && fl[k] in sz && Inside(fl[k], sz[fl[k]], x)
  }

  /** Block bp of n units lies between list entries t and t + 1. */
  ghost predicate Between(sz: Mem, fl: seq<nat>, t: nat, bp: nat, n: nat) {
    && t < |fl| && n >= 1
    && (forall k :: 0 <= k < |fl| ==> fl[k] in sz)
    && (forall k :: 0 <= k <= t ==> fl[k] + sz[fl[k]] <= bp)
    && (forall k :: t < k < |fl| ==> bp + n <= fl[k])
  }

  // ---- Putting a block back: link it in, then merge with the upper and the lower neighbour ----

  function WithBlock(fl: seq<nat>, t: nat, bp: nat): seq<nat>
    requires t < |fl|
  {
    fl[..t + 1] + [bp] + fl[t + 1..]
  }

  function WithoutAt(fl: seq<nat>, k: nat): seq<nat>
    requires k < |fl|
  {
    fl[..k] + fl[k + 1..]
  }

  lemma LinkInLinked(ptr: Mem, fl: seq<nat>, t: nat, bp: nat)
    requires Linked(ptr, fl) && t < |fl| && bp !in fl && forall j, k :: 0 <= j < k < |fl| ==> fl[j] != fl[k]
    ensures Linked(ptr[bp := Succ(fl, t)][fl[t] := bp], WithBlock(fl, t, bp))
  {
    var r, ptr' := WithBlock(fl, t, bp), ptr[bp := Succ(fl, t)][fl[t] := bp];
    forall k: nat | k < |r|
      ensures r[k] in ptr' && ptr'[r[k]] == Succ(r, k)
    {
      if k < t {
        assert r[k] == fl[k] && r[k + 1] == fl[k + 1];
      } else if k == t {
        assert r[k] == fl[t] && r[k + 1] == bp;
      } else if k == t + 1 {
        assert r[k] == bp && Succ(r, k) == Succ(fl, t);
      } else {
        assert r[k] == fl[k - 1] && Succ(r, k) == Succ(fl, k - 1);
      }
    }
  }

  lemma LinkInOrdered(sz: Mem, fl: seq<nat>, t: nat, bp: nat)
    requires Ordered(sz, fl) && bp in sz && Between(sz, fl, t, bp, sz[bp]) && fl[t] < bp
    ensures Ordered(sz, WithBlock(fl, t, bp)) && bp !in fl
  {
    var r := WithBlock(fl, t, bp);
    forall k: nat | k < |r|
      ensures r[k] in sz && (k <= t ==> r[k] == fl[k]) && (k > t + 1 ==> r[k] == fl[k - 1]) && (k == t + 1 ==> r[k] == bp)
    {
    }
  }

  lemma LinkIn(ptr: Mem, sz: Mem, fl: seq<nat>, base: nat, t: nat, bp: nat)
    requires Cycle(ptr, sz, fl, base) && bp in sz && Between(sz, fl, t, bp, sz[bp]) && fl[t] < bp
    ensures Cycle(ptr[bp := Succ(fl, t)][fl[t] := bp], sz, WithBlock(fl, t, bp), base)
  {
    hide Linked;
    LinkInOrdered(sz, fl, t, bp);
    LinkInLinked(ptr, fl, t, bp);
  }

  lemma LinkInTouch(sz: Mem, fl: seq<nat>, t: nat, bp: nat, k: nat)
    requires Ordered(sz, fl) && bp in sz && t < |fl|
    ensures var r := WithBlock(fl, t, bp);
      && (forall i :: 0 <= i < |r| ==> r[i] in sz)
      && (k < t ==> (Touch(sz, r, k) <==> Touch(sz, fl, k)))
      && (k == t ==> (Touch(sz, r, k) <==> fl[t] + sz[fl[t]] == bp))
      && (k == t + 1 ==> (Touch(sz, r, k) <==> t + 1 < |fl| && bp + sz[bp] == fl[t + 1]))
      && (k > t + 1 ==> (Touch(sz, r, k) <==> Touch(sz, fl, k - 1)))
  {
  }

  lemma LinkInUnits(sz: Mem, fl: seq<nat>, t: nat, bp: nat, x: nat)
    requires Ordered(sz, fl) && bp in sz && t < |fl|
    ensures var r := WithBlock(fl, t, bp);
      && (forall i :: 0 <= i < |r| ==> r[i] in sz)
      && (FreeAt(sz, r, x) <==> FreeAt(sz, fl, x) || Inside(bp, sz[bp], x))
  {
    var r := WithBlock(fl, t, bp);
    if FreeAt(sz, fl, x) {
      var k :| 0 <= k < |fl| && Inside(fl[k], sz[fl[k]], x);
      assert r[if k <= t then k else k + 1] == fl[k];
    }
    if Inside(bp, sz[bp], x) {
      assert r[t + 1] == bp;
    }
  }

  lemma MergeLinked(ptr: Mem, fl: seq<nat>, k: nat)
    requires Linked(ptr, fl) && k + 1 < |fl| && forall i, j :: 0 <= i < j < |fl| ==> fl[i] != fl[j]
    ensures Linked(ptr[fl[k] := ptr[fl[k + 1]]], WithoutAt(fl, k + 1))
  {
    var r, ptr' := WithoutAt(fl, k + 1), ptr[fl[k] := ptr[fl[k + 1]]];
    forall i: nat | i < |r|
      ensures r[i] in ptr' && ptr'[r[i]] == Succ(r, i)
    {
      if i < k {
        assert r[i] == fl[i] && r[i + 1] == fl[i + 1];
      } else if i == k {
        assert r[i] == fl[k] && Succ(r, i) == Succ(fl, k + 1);
      } else {
        assert r[i] == fl[i + 1] && Succ(r, i) == Succ(fl, i + 1);
      }
    }
  }

  lemma MergeOrdered(sz: Mem, fl: seq<nat>, k: nat)
    requires Ordered(sz, fl) && Touch(sz, fl, k)
    ensures Ordered(sz[fl[k] := sz[fl[k]] + sz[fl[k + 1]]], WithoutAt(fl, k + 1))
  {
    var r, sz' := WithoutAt(fl, k + 1), sz[fl[k] := sz[fl[k]] + sz[fl[k + 1]]];
    forall i: nat | i < |r|
      ensures r[i] in sz' && (i <= k ==> r[i] == fl[i]) && (i > k ==> r[i] == fl[i + 1])
      ensures i != k ==> sz'[r[i]] == sz[r[i]]
    {
    }
  }

  /** Entry k swallows its upper neighbour. */
  lemma Merge(ptr: Mem, sz: Mem, fl: seq<nat>, base: nat, k: nat)
    requires Cycle(ptr, sz, fl, base) && Touch(sz, fl, k) && k > 0
    ensures Cycle(ptr[fl[k] := ptr[fl[k + 1]]], sz[fl[k] := sz[fl[k]] + sz[fl[k + 1]]], WithoutAt(fl, k + 1), base)
  {
    hide Linked;
    MergeOrdered(sz, fl, k);
    MergeLinked(ptr, fl, k);
  }

  lemma MergeTouch(sz: Mem, fl: seq<nat>, k: nat, j: nat)
    requires Ordered(sz, fl) && Touch(sz, fl, k)
    ensures var r, sz' := WithoutAt(fl, k + 1), sz[fl[k] := sz[fl[k]] + sz[fl[k + 1]]];
      && (forall i :: 0 <= i < |r| ==> r[i] in sz')
      && (j < k ==> (Touch(sz', r, j) <==> Touch(sz, fl, j)))
      && (j >= k ==> (Touch(sz', r, j) <==> Touch(sz, fl, j + 1)))
  {
  }

  /** Entry i of the list, other than the merged two, is entry i' afterwards. */
  lemma MergeAt(sz: Mem, fl: seq<nat>, k: nat, i: nat, i': nat)
    requires Ordered(sz, fl) && Touch(sz, fl, k) && i < |fl| && i != k && i != k + 1 && i' == if i < k then i else i - 1
    ensures i' != k && WithoutAt(fl, k + 1)[i'] == fl[i] != fl[k]
  {
  }

  lemma MergeUnits(sz: Mem, fl: seq<nat>, k: nat, x: nat)
    requires Ordered(sz, fl) && Touch(sz, fl, k)
    ensures var r, sz' := WithoutAt(fl, k + 1), sz[fl[k] := sz[fl[k]] + sz[fl[k + 1]]];
      && (forall i :: 0 <= i < |r| ==> r[i] in sz')
      && (FreeAt(sz', r, x) <==> FreeAt(sz, fl, x))
  {
    MergeOrdered(sz, fl, k);
    var r, sz' := WithoutAt(fl, k + 1), sz[fl[k] := sz[fl[k]] + sz[fl[k + 1]]];
    assert r[k] == fl[k] && Touch(sz, fl, k);
    hide Ordered, WithoutAt, Touch;
    if i: nat :| i < |fl| && Inside(fl[i], sz[fl[i]], x) {
      if i == k || i == k + 1 {
        assert Inside(r[k], sz'[r[k]], x);
      } else {
        MergeAt(sz, fl, k, i, if i < k then i else i - 1);
      }
    }
    if i: nat :| i < |r| && Inside(r[i], sz'[r[i]], x) {
      if i == k {
        assert Inside(fl[k], sz[fl[k]], x) || Inside(fl[k + 1], sz[fl[k + 1]], x);
      } else {
        MergeAt(sz, fl, k, if i < k then i else i + 1, i);
      }
    }
  }

  /** The header fields after free, as its two if-statements leave them. */
  function PtrAfter(ptr: Mem, p: nat, q: nat, bp: nat, up: bool, low: bool): Mem
    requires q in ptr
  {
    var next := if up then ptr[q] else q;
    if low then ptr[bp := next][p := next] else ptr[bp := next][p := bp]
  }

  function SizeAfter(sz: Mem, p: nat, q: nat, bp: nat, up: bool, low: bool): Mem
    requires p in sz && q in sz && bp in sz
  {
    var n := if up then sz[bp] + sz[q] else sz[bp];
    if low then sz[bp := n][p := sz[p] + n] else sz[bp := n]
  }

  /** One optional merge: the list, the touching pairs below k, and the units. */
  lemma MergeIf(ptr: Mem, sz: Mem, fl: seq<nat>, base: nat, k: nat, c: bool)
    returns (ptr': Mem, sz': Mem, fl': seq<nat>)
    requires Cycle(ptr, sz, fl, base) && 0 < k < |fl| && (c <==> Touch(sz, fl, k))
    requires forall j: nat :: j > k ==> !Touch(sz, fl, j)
    ensures Cycle(ptr', sz', fl', base) && k < |fl'| && fl'[..k + 1] == fl[..k + 1]
    ensures ptr' == if c then ptr[fl[k] := ptr[Succ(fl, k)]] else ptr
    ensures sz' == if c then sz[fl[k] := sz[fl[k]] + sz[Succ(fl, k)]] else sz
    ensures forall j: nat :: j >= k ==> !Touch(sz', fl', j)
    ensures forall j: nat :: j < k ==> (Touch(sz', fl', j) <==> Touch(sz, fl, j))
    ensures forall x :: FreeAt(sz', fl', x) <==> FreeAt(sz, fl, x)
  {
    hide Linked, Ordered, Touch, FreeAt;
    InCycle(ptr, sz, fl, base, k);
    if c {
      TouchNext(sz, fl, k);
      InCycle(ptr, sz, fl, base, k + 1);
      ptr', sz', fl' := ptr[fl[k] := ptr[fl[k + 1]]], sz[fl[k] := sz[fl[k]] + sz[fl[k + 1]]], WithoutAt(fl, k + 1);
      Merge(ptr, sz, fl, base, k);
      forall j: nat
        ensures if j < k then Touch(sz', fl', j) <==> Touch(sz, fl, j) else !Touch(sz', fl', j)
      {
        MergeTouch(sz, fl, k, j);
        assert j >= k ==> !Touch(sz, fl, j + 1);
      }
      forall x: nat
        ensures FreeAt(sz', fl', x) <==> FreeAt(sz, fl, x)
      {
        MergeUnits(sz, fl, k, x);
      }
    } else {
      ptr', sz', fl' := ptr, sz, fl;
    }
  }

  lemma InCycle(ptr: Mem, sz: Mem, fl: seq<nat>, base: nat, k: nat)
    requires Cycle(ptr, sz, fl, base) && k < |fl|
    ensures fl[k] in ptr && fl[k] in sz && ptr[fl[k]] == Succ(fl, k) && base <= fl[k]
    ensures Succ(fl, k) in ptr && Succ(fl, k) in sz
  {
  }

  lemma TouchNext(sz: Mem, fl: seq<nat>, k: nat)
    requires Touch(sz, fl, k)
    ensures k + 1 < |fl| && Succ(fl, k) == fl[k + 1]
  {
  }

  /** free: the result is again one address-ordered cycle in which nothing touches, and exactly
      the units of bp have joined it. */
  lemma PutBack(ptr: Mem, sz: Mem, fl: seq<nat>, base: nat, t: nat, bp: nat, up: bool, low: bool) returns (fl': seq<nat>)
    requires FreeList(ptr, sz, fl, base) && bp in sz && base < bp && Between(sz, fl, t, bp, sz[bp])
    requires Succ(fl, t) in ptr && Succ(fl, t) in sz && fl[t] in sz
    requires up <==> bp + sz[bp] == Succ(fl, t)
    requires low <==> fl[t] + sz[fl[t]] == bp
    ensures FreeList(PtrAfter(ptr, fl[t], Succ(fl, t), bp, up, low), SizeAfter(sz, fl[t], Succ(fl, t), bp, up, low), fl', base)
    ensures fl[t] in fl'
    ensures forall x :: FreeAt(SizeAfter(sz, fl[t], Succ(fl, t), bp, up, low), fl', x) <==> FreeAt(sz, fl, x) || Inside(bp, sz[bp], x)
  {
    hide Linked, Ordered, Touch, FreeAt;
    BetweenFacts(sz, fl, base, t, bp);
    InCycle(ptr, sz, fl, base, t);
    LinkIn(ptr, sz, fl, base, t, bp);
    var ptr1, fl1 := ptr[bp := Succ(fl, t)][fl[t] := bp], WithBlock(fl, t, bp);
    forall k: nat
      ensures Touch(sz, fl1, k) <==> (k == t && low) || (k == t + 1 && up)
    {
      LinkInTouch(sz, fl, t, bp, k);
    }
    forall x: nat
      ensures FreeAt(sz, fl1, x) <==> FreeAt(sz, fl, x) || Inside(bp, sz[bp], x)
    {
      LinkInUnits(sz, fl, t, bp, x);
    }
    var ptr2, sz2, fl2 := MergeIf(ptr1, sz, fl1, base, t + 1, up);
    assert fl1[..t + 2][t] == fl[t] && fl1[..t + 2][t + 1] == bp;
    assert fl2[t] == fl[t] && fl2[t + 1] == bp;
    var ptr', sz' := PtrAfter(ptr, fl[t], Succ(fl, t), bp, up, low), SizeAfter(sz, fl[t], Succ(fl, t), bp, up, low);
    if t == 0 {
      fl' := fl2;
      assert ptr2 == ptr' && sz2 == sz';
    } else {
      var ptr3, sz3, fl3 := MergeIf(ptr2, sz2, fl2, base, t, low);
      assert fl2[..t + 1][t] == fl[t] == fl3[..t + 1][t] == fl3[t];
      fl' := fl3;
      assert Succ(fl2, t) == bp;
      assert ptr3 == ptr';
      assert sz3 == sz';
    }
  }

  lemma BetweenFacts(sz: Mem, fl: seq<nat>, base: nat, t: nat, bp: nat)
    requires Ordered(sz, fl) && bp in sz && Between(sz, fl, t, bp, sz[bp]) && fl[0] == base < bp && sz[base] == 0
    ensures fl[t] < bp && Succ(fl, t) != bp && (Succ(fl, t) == bp + sz[bp] ==> t + 1 < |fl|)
    ensures fl[t] != Succ(fl, t) || t == 0
    ensures fl[t] + sz[fl[t]] == bp ==> t > 0
  {
  }

  // ---- Taking a block off the list ----

  lemma WithoutAtUnits(sz: Mem, fl: seq<nat>, k: nat, x: nat)
    requires Ordered(sz, fl) && k < |fl|
    ensures FreeAt(sz, WithoutAt(fl, k), x) <==> FreeAt(sz, fl, x) && !Inside(fl[k], sz[fl[k]], x)
  {
    var r := WithoutAt(fl, k);
    if i: nat :| i < |fl| && Inside(fl[i], sz[fl[i]], x) {
      if i != k {
        assert r[if i < k then i else i - 1] == fl[i];
      }
    }
    if i: nat :| i < |r| && Inside(r[i], sz[r[i]], x) {
      assert r[i] == fl[if i < k then i else i + 1];
    }
  }

  lemma WithoutAtOrdered(sz: Mem, fl: seq<nat>, k: nat)
    requires Ordered(sz, fl) && 1 <= k < |fl| && forall j: nat :: !Touch(sz, fl, j)
    ensures Ordered(sz, WithoutAt(fl, k)) && forall j: nat :: !Touch(sz, WithoutAt(fl, k), j)
  {
    var r := WithoutAt(fl, k);
    forall j: nat
      ensures !Touch(sz, r, j)
    {
      if j < k - 1 {
        assert !Touch(sz, fl, j);
      } else if j > k - 1 {
        assert !Touch(sz, fl, j + 1);
      }
    }
  }

  /** malloc of a whole block: its predecessor skips it. */
  lemma TakeWhole(ptr: Mem, sz: Mem, fl: seq<nat>, base: nat, k: nat)
    requires FreeList(ptr, sz, fl, base) && 1 <= k < |fl| && fl[k] in ptr
    ensures FreeList(ptr[fl[k - 1] := ptr[fl[k]]], sz, WithoutAt(fl, k), base)
    ensures forall x :: FreeAt(sz, WithoutAt(fl, k), x) <==> FreeAt(sz, fl, x) && !Inside(fl[k], sz[fl[k]], x)
  {
    hide Linked, Touch;
    WithoutAtOrdered(sz, fl, k);
    MergeLinked(ptr, fl, k - 1);
    forall x: nat
      ensures FreeAt(sz, WithoutAt(fl, k), x) <==> FreeAt(sz, fl, x) && !Inside(fl[k], sz[fl[k]], x)
    {
      WithoutAtUnits(sz, fl, k, x);
    }
  }

  /** malloc of the tail of a block: n units from its end, with a header of their own. */
  lemma TakeTail(ptr: Mem, sz: Mem, fl: seq<nat>, base: nat, k: nat, n: nat)
    requires FreeList(ptr, sz, fl, base) && 1 <= k < |fl| && 1 <= n < sz[fl[k]]
    ensures var a := fl[k] + sz[fl[k]] - n;
      var sz' := sz[fl[k] := sz[fl[k]] - n][a := n];
      && FreeList(ptr, sz', fl, base)
      && forall x :: FreeAt(sz', fl, x) <==> FreeAt(sz, fl, x) && !Inside(a, n, x)
  {
    hide Linked;
    var a := fl[k] + sz[fl[k]] - n;
    var sz' := sz[fl[k] := sz[fl[k]] - n][a := n];
    forall i: nat | i < |fl|
      ensures fl[i] != a && sz'[fl[i]] == if i == k then sz[fl[k]] - n else sz[fl[i]]
    {
    }
    forall i: nat
      ensures !Touch(sz', fl, i)
    {
      assert !Touch(sz, fl, i);
    }
    forall x: nat
      ensures FreeAt(sz', fl, x) <==> FreeAt(sz, fl, x) && !Inside(a, n, x)
    {
      if i: nat :| i < |fl| && Inside(fl[i], sz[fl[i]], x) {
        if i != k || !Inside(a, n, x) {
          assert Inside(fl[i], sz'[fl[i]], x);
        }
      }
    }
  }
}
