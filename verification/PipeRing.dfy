/**
 The ring buffer of pipe.c.  nread and nwrite are 32-bit counters that wrap; the bytes put and the
 number of bytes got are what they stand for.
 */
module PipeRing {

  const PIPESIZE: nat := 512
  const UINT: nat := 0x1_0000_0000

  type Buffer = b: seq<nat> | |b| == PIPESIZE witness seq(PIPESIZE, _ => 0)

  datatype Ring = Ring(data: Buffer, nread: nat, nwrite: nat)

  /** Unsigned addition. */
  function Add32(a: nat, b: nat): nat
  {
    (a + b) % UINT
  }

  function Slot(k: nat): (i: nat)
    ensures i < PIPESIZE
  {
    k % PIPESIZE
  }

  predicate Full(r: Ring) {
    r.nwrite == Add32(r.nread, PIPESIZE)
  }

  predicate Empty(r: Ring) {
    r.nread == r.nwrite
  }

  function Put(r: Ring, b: nat): Ring
  {
    Ring(r.data[Slot(r.nwrite) := b], r.nread, Add32(r.nwrite, 1))
  }

  function Front(r: Ring): nat
  {
    r.data[Slot(r.nread)]
  }

  function Get(r: Ring): Ring
  {
    r.(nread := Add32(r.nread, 1))
  }

  /** The ring holds the bytes of put from got on. */
  ghost predicate Holds(r: Ring, put: seq<nat>, got: nat) {
    && got <= |put| <= got + PIPESIZE
    && r.nwrite == |put| % UINT && r.nread == got % UINT
    && forall k: nat :: got <= k < |put| ==> r.data[Slot(k)] == put[k]
  }

  /** The wrapped counters still tell a full ring from an empty one. */
  lemma Counters(r: Ring, put: seq<nat>, got: nat)
    requires Holds(r, put, got)
    ensures Full(r) <==> |put| == got + PIPESIZE
    ensures Empty(r) <==> |put| == got
  {
    ModApart(got, |put|);
  }

  lemma ModApart(g: nat, p: nat)
    requires g <= p <= g + PIPESIZE
    ensures p % UINT == (g % UINT + PIPESIZE) % UINT <==> p == g + PIPESIZE
    ensures g % UINT == p % UINT <==> p == g
  {
  }

  lemma WrapSlot(k: nat)
    ensures Slot(k % UINT) == Slot(k) && Add32(k % UINT, 1) == (k + 1) % UINT
  {
    var q := k / UINT;
    assert k == q * UINT + k % UINT;
    assert UINT == 8388608 * PIPESIZE;
  }

  /** Fewer than PIPESIZE apart, different slots. */
  lemma SlotsApart(j: nat, k: nat)
    requires j < k < j + PIPESIZE
    ensures Slot(j) != Slot(k)
  {
  }

  lemma PutHolds(r: Ring, put: seq<nat>, got: nat, b: nat)
    requires Holds(r, put, got) && |put| < got + PIPESIZE
    ensures Holds(Put(r, b), put + [b], got)
  {
    hide Slot;
    var r', put' := Put(r, b), put + [b];
    WrapSlot(|put|);
    forall k: nat | got <= k < |put'|
      ensures r'.data[Slot(k)] == put'[k]
    {
      if k < |put| {
        SlotsApart(k, |put|);
      }
    }
  }

  lemma GetHolds(r: Ring, put: seq<nat>, got: nat)
    requires Holds(r, put, got) && got < |put|
    ensures Front(r) == put[got] && Holds(Get(r), put, got + 1)
  {
    WrapSlot(got);
  }
}
