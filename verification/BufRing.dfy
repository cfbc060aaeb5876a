/**
 The list through prev and next that bio.c keeps its buffers on.  The ring is the head followed by
 the buffers from most to least recently used.
 */
module BufRing {
  import opened Common

  function After(ring: seq<nat>, k: nat): nat
    requires k < |ring|
  {
    if k + 1 < |ring| then ring[k + 1] else ring[0]
  }

  /** Following next goes once round the ring, following prev goes back. */
  ghost predicate Chain(next: seq<nat>, prev: seq<nat>, ring: seq<nat>) {
    && |ring| >= 1 && |next| == |prev| && Distinct(ring)
    && (forall k: nat :: k < |ring| ==> ring[k] < |next|)
    && (forall k: nat :: k < |ring| ==> next[ring[k]] == After(ring, k) && prev[After(ring, k)] == ring[k])
  }

  /** b goes in right after the head. */
  lemma PushFront(next: seq<nat>, prev: seq<nat>, ring: seq<nat>, b: nat)
    requires Chain(next, prev, ring) && b < |next| && b !in ring
    ensures var h := ring[0];
      && next[h] < |prev|
      && Chain(next[b := next[h]][h := b], prev[b := h][next[h] := b], [h, b] + ring[1..])
  {
    var h := ring[0];
    assert next[ring[0]] == After(ring, 0);
    var next', prev', ring' := next[b := next[h]][h := b], prev[b := h][next[h] := b], [h, b] + ring[1..];
    assert forall k: nat :: 2 <= k < |ring'| ==> ring'[k] == ring[k - 1];
    forall k: nat | k < |ring'|
      ensures ring'[k] < |next| && next'[ring'[k]] == After(ring', k) && prev'[After(ring', k)] == ring'[k]
    {
      if k >= 2 {
        assert next[ring[k - 1]] == After(ring, k - 1) && prev[After(ring, k - 1)] == ring[k - 1];
      }
    }
  }

  function Without(s: seq<nat>, k: nat): seq<nat>
    requires k < |s|
  {
    s[..k] + s[k + 1..]
  }

  lemma WithoutAt(s: seq<nat>, k: nat, j: nat)
    requires k < |s|
    ensures |Without(s, k)| == |s| - 1
    ensures j < |s| - 1 ==> Without(s, k)[j] == if j < k then s[j] else s[j + 1]
  {
  }

  lemma WithoutDistinct(s: seq<nat>, k: nat)
    requires k < |s| && Distinct(s)
    ensures Distinct(Without(s, k)) && s[k] !in Without(s, k)
  {
    var w := Without(s, k);
    forall i, j | 0 <= i < j < |w|
      ensures w[i] != w[j]
    {
      WithoutAt(s, k, i);
      WithoutAt(s, k, j);
    }
    forall j | 0 <= j < |w|
      ensures w[j] != s[k]
    {
      WithoutAt(s, k, j);
    }
  }

  /** What follows ring[j] once ring[k] has gone. */
  lemma WithoutAfter(ring: seq<nat>, k: nat, j: nat)
    requires 1 <= k < |ring| && j < |ring| - 1
    ensures |Without(ring, k)| == |ring| - 1
    ensures After(Without(ring, k), j) == if j == k - 1 then After(ring, k) else After(ring, if j < k then j else j + 1)
  {
    hide Without;
    WithoutAt(ring, k, 0);
    WithoutAt(ring, k, j + 1);
  }

  lemma TakeOutAt(next: seq<nat>, prev: seq<nat>, ring: seq<nat>, k: nat, j: nat)
    requires Chain(next, prev, ring) && 1 <= k < |ring| && j < |ring| - 1
    ensures var b, ring' := ring[k], Without(ring, k);
      && prev[b] < |next| && next[b] < |prev| && |ring'| == |ring| - 1 && ring'[j] < |next| && After(ring', j) < |prev|
      && next[prev[b] := next[b]][ring'[j]] == After(ring', j) && prev[next[b] := prev[b]][After(ring', j)] == ring'[j]
  {
    hide Without;
    var i := if j < k then j else j + 1;
    WithoutAt(ring, k, j);
    WithoutAfter(ring, k, j);
    assert next[ring[k - 1]] == After(ring, k - 1) && prev[After(ring, k - 1)] == ring[k - 1];
    assert next[ring[k]] == After(ring, k) && prev[After(ring, k)] == ring[k];
    assert next[ring[i]] == After(ring, i) && prev[After(ring, i)] == ring[i];
  }

  /** b == ring[k] is taken out. */
  lemma TakeOut(next: seq<nat>, prev: seq<nat>, ring: seq<nat>, k: nat)
    requires Chain(next, prev, ring) && 1 <= k < |ring|
    ensures var b := ring[k];
      && prev[b] == ring[k - 1] < |next| && next[b] < |prev|
      && Chain(next[prev[b] := next[b]], prev[next[b] := prev[b]], Without(ring, k)) && b !in Without(ring, k)
  {
    hide Without, After;
    var b, ring' := ring[k], Without(ring, k);
    WithoutDistinct(ring, k);
    BehindOne(next, prev, ring, k);
    var next', prev' := next[prev[b] := next[b]], prev[next[b] := prev[b]];
    forall j: nat | j < |ring| - 1
      ensures |ring'| == |ring| - 1 && ring'[j] < |next| && After(ring', j) < |prev|
      ensures next'[ring'[j]] == After(ring', j) && prev'[After(ring', j)] == ring'[j]
    {
      TakeOutAt(next, prev, ring, k, j);
    }
    WithoutAt(ring, k, 0);
  }

  lemma BehindOne(next: seq<nat>, prev: seq<nat>, ring: seq<nat>, k: nat)
    requires Chain(next, prev, ring) && 1 <= k < |ring|
    ensures prev[ring[k]] == ring[k - 1] < |next| && next[ring[k]] < |prev|
  {
    assert prev[After(ring, k - 1)] == ring[k - 1] && next[ring[k]] == After(ring, k);
  }
}
