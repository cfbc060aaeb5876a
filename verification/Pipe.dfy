/** The copy loops of pipewrite and piperead, which run with the pipe's lock held. */
module Pipe {
  import opened PipeRing

  class PipeBuffer {
    const data: array<nat>
    var nread: nat
    var nwrite: nat
    ghost var put: seq<nat>
    ghost var got: nat

    ghost predicate Ok()
      reads this, data
    {
      data.Length == PIPESIZE && Holds(Ring(data[..], nread, nwrite), put, got)
    }

    constructor ()
      ensures Ok() && put == [] && got == 0 && fresh(data)
    {
      data := new nat[PIPESIZE](_ => 0);
      nread, nwrite := 0, 0;
      put, got := [], 0;
    }

    /** pipewrite from byte i on, up to the next sleep or the end: all that fits goes in, in order. */
    method WriteSome(addr: seq<nat>, i: nat) returns (j: nat)
      requires Ok() && i <= |addr|
      modifies data, `nwrite, `put
      ensures Ok() && i <= j <= |addr| && put == old(put) + addr[i..j]
      ensures j < |addr| ==> |put| == got + PIPESIZE
    {
      hide Holds, Slot, Add32;
      j := i;
      while j < |addr| && nwrite != Add32(nread, PIPESIZE)
        invariant Ok() && i <= j <= |addr| && put == old(put) + addr[i..j]
      {
        ghost var ring := Ring(data[..], nread, nwrite);
        Counters(ring, put, got);
        Room(ring, put, got);
        PutHolds(ring, put, got, addr[j]);
        data[Slot(nwrite)] := addr[j];
        nwrite := Add32(nwrite, 1);
        assert Ring(data[..], nread, nwrite) == Put(ring, addr[j]);
        put := put + [addr[j]];
        assert addr[i..j + 1] == addr[i..j] + [addr[j]];
        j := j + 1;
      }
      Counters(Ring(data[..], nread, nwrite), put, got);
    }

    /** piperead's loop: up to n bytes, fewer only if the ring runs empty. */
    method ReadSome(n: nat) returns (out: seq<nat>)
      requires Ok()
      modifies `nread, `got
      ensures Ok() && got == old(got) + |out| <= |put| && out == put[old(got)..got] && |out| <= n
      ensures |out| < n ==> got == |put|
    {
      hide Holds, Slot, Add32;
      out := [];
      Counters(Ring(data[..], nread, nwrite), put, got);
      Room(Ring(data[..], nread, nwrite), put, got);
      while |out| < n && nread != nwrite
        invariant Ok() && old(got) <= got == old(got) + |out| <= |put| && out == put[old(got)..got] && |out| <= n
      {
        ghost var ring := Ring(data[..], nread, nwrite);
        Counters(ring, put, got);
        Room(ring, put, got);
        GetHolds(ring, put, got);
        out := out + [data[Slot(nread)]];
        nread := Add32(nread, 1);
        assert put[old(got)..got + 1] == put[old(got)..got] + [put[got]];
        got := got + 1;
      }
      Counters(Ring(data[..], nread, nwrite), put, got);
    }
  }

  lemma Room(r: Ring, put: seq<nat>, got: nat)
    requires Holds(r, put, got)
    ensures got <= |put| <= got + PIPESIZE
  {
  }
}
