/**
 What the clients of the buffer cache can rely on, read off the steps of a run: a block reads as what
 was stored into it last, the disk changes by bwrite alone, and nobody is stuck but behind a lock.
 */
module BufRuns {
  import opened Common
  import opened BufCache
  import opened BufMachine

  /** Step e stores into the block. */
  predicate StoresTo(s: State, e: Event, key: Key) {
    e.Store? && e.c < |s.clients| && s.clients[e.c].Holding? && s.clients[e.c].key == key
  }

  predicate WritesTo(s: State, e: Event, key: Key) {
    e.BWrite? && e.c < |s.clients| && s.clients[e.c].Holding? && s.clients[e.c].key == key
  }

  lemma LatestStep(s: State, e: Event, key: Key)
    requires Inv(s) && Enabled(s, e)
    ensures At(Next(s, e).latest, key) == if StoresTo(s, e, key) then e.data else At(s.latest, key)
  {
    hide Sound, Counted, LocksOk, CanGet, Gotten;
  }

  /** bwrite puts what was stored last on the disk; no other step changes the disk. */
  lemma DiskStep(s: State, e: Event, key: Key)
    requires Inv(s) && Enabled(s, e) && key.dev >= 1
    ensures At(Next(s, e).disk, key) == if WritesTo(s, e, key) then At(s.latest, key) else At(s.disk, key)
  {
    hide Counted, LocksOk, CanGet, Gotten, OneBufferEach;
  }

  /** No step of the run stores into the block. */
  ghost predicate Unstored(s: State, es: seq<Event>, key: Key)
    decreases |es|
  {
    es == [] || (Enabled(s, es[0]) && !StoresTo(s, es[0], key) && Unstored(Next(s, es[0]), es[1..], key))
  }

  lemma {:induction false} LatestStays(s: State, es: seq<Event>, s': State, key: Key)
    requires Inv(s) && Leads(s, es, s') && Unstored(s, es, key)
    ensures Inv(s') && At(s'.latest, key) == At(s.latest, key)
    decreases |es|
  {
    hide Inv, Next, Enabled, At, StoresTo;
    if es != [] {
      StepInv(s, es[0]);
      LatestStep(s, es[0], key);
      LatestStays(Next(s, es[0]), es[1..], s', key);
    }
  }

  /** The buffer that bread has returned to client d. */
  ghost function Seen(s: State, d: nat): Block
    requires Returned(s, d)
  {
    s.bufs[s.clients[d].b].data
  }

  lemma SeesLatest(s: State, d: nat)
    requires Inv(s) && Returned(s, d) && s.clients[d].key.dev >= 1
    ensures Seen(s, d) == At(s.latest, s.clients[d].key)
  {
    hide Counted, LocksOk, OneBufferEach;
  }

  /** In every run: a reader of a block sees what was stored into it last, whoever stored it and whatever happened since. */
  lemma ReadsLastStore(s0: State, es: seq<Event>, s: State, e: Event, more: seq<Event>, t: State, d: nat)
    requires Fresh(s0) && Leads(s0, es, s) && Enabled(s, e) && Leads(Next(s, e), more, t)
    requires Returned(t, d) && t.clients[d].key.dev >= 1
    requires StoresTo(s, e, t.clients[d].key) && Unstored(Next(s, e), more, t.clients[d].key)
    ensures Seen(t, d) == e.data
  {
    hide Inv, Fresh, Leads, Unstored, Next, Enabled, Seen, At, StoresTo;
    FreshInv(s0);
    RunInv(s0, es, s);
    StepInv(s, e);
    LatestStep(s, e, t.clients[d].key);
    LatestStays(Next(s, e), more, t, t.clients[d].key);
    SeesLatest(t, d);
  }

  /** And what the disk held at boot if nobody has stored into it. */
  lemma ReadsTheDisk(s0: State, es: seq<Event>, s: State, d: nat)
    requires Fresh(s0) && Leads(s0, es, s) && Returned(s, d) && s.clients[d].key.dev >= 1 && Unstored(s0, es, s.clients[d].key)
    ensures Seen(s, d) == At(s0.disk, s.clients[d].key)
  {
    hide Inv, Leads, Unstored, Seen, At;
    FreshInv(s0);
    LatestStays(s0, es, s, s.clients[d].key);
    SeesLatest(s, d);
  }

  // ---- Nobody is stuck ----

  /** bget finds a buffer exactly if the block has one or one is free and clean. */
  lemma CanGetExactly(bufs: seq<Buf>, key: Key)
    ensures (exists b: nat :: CanGet(bufs, key, b)) <==>
      exists b: nat :: b < |bufs| && (bufs[b].key == key || (bufs[b].refcnt == 0 && !bufs[b].dirty))
  {
    if b: nat :| b < |bufs| && bufs[b].key == key {
      assert CanGet(bufs, key, b);
    } else if b: nat :| b < |bufs| && bufs[b].refcnt == 0 && !bufs[b].dirty {
      assert CanGet(bufs, key, b);
    }
  }

  /** In every run, from bget to the end of brelse a client can go on, and comes a step further, unless another holds its buffer. */
  lemma ClientGoesOn(s0: State, es: seq<Event>, s: State, c: nat)
    requires Fresh(s0) && Leads(s0, es, s) && c < |s.clients| && !s.clients[c].Out?
    ensures s.clients[c].b < |s.bufs| == |s.holder|
    ensures s.clients[c].Waiting? ==> (Enabled(s, Lock(c)) <==> s.holder[s.clients[c].b].None?)
    ensures s.clients[c].Holding? ==> (Enabled(s, Read(c)) <==> !s.bufs[s.clients[c].b].valid)
    ensures s.clients[c].Holding? ==> (Enabled(s, LogWrite(c)) <==> s.bufs[s.clients[c].b].valid)
    ensures Enabled(s, LogWrite(c)) ==> Enabled(s, BWrite(c)) && Enabled(Next(s, LogWrite(c)), Unlock(c)) && Enabled(Next(s, BWrite(c)), Unlock(c))
    ensures Enabled(s, LogWrite(c)) ==> forall data :: Enabled(s, BufMachine.Store(c, data))
    ensures Enabled(s, LogWrite(c)) && s.clients[c].b !in s.touched ==> Enabled(s, Unlock(c))
    ensures s.clients[c].Dropping? ==> Enabled(s, Drop(c))
    ensures Enabled(s, Lock(c)) ==> Next(s, Lock(c)).clients[c].Holding?
    ensures Enabled(s, Read(c)) ==> Returned(Next(s, Read(c)), c)
    ensures Enabled(s, Unlock(c)) ==> Next(s, Unlock(c)).clients[c].Dropping?
    ensures Enabled(s, Drop(c)) ==> Next(s, Drop(c)).clients[c].Out?
  {
    hide Leads, Fresh, Sound, Counted, Users;
    FreshInv(s0);
    RunInv(s0, es, s);
    Referenced(s.bufs, s.clients, c);
  }

  /** A buffer's holder is a client that bread has given it to, or is about to. */
  lemma HeldByOne(s0: State, es: seq<Event>, s: State, b: nat)
    requires Fresh(s0) && Leads(s0, es, s) && b < |s.bufs|
    ensures |s.holder| == |s.bufs| && (s.holder[b].Some? <==> s.bufs[b].locked)
    ensures s.bufs[b].locked <==> exists c: nat :: HeldBy(s.clients, b, c)
    ensures s.bufs[b].refcnt == |Users(s.clients, b)|
  {
    hide Leads, Fresh, Sound, Users;
    FreshInv(s0);
    RunInv(s0, es, s);
  }

  lemma OneMore(s: State, e: Event, es: seq<Event>, t: State)
    requires Enabled(s, e) && Leads(Next(s, e), es, t)
    ensures Leads(s, [e] + es, t)
  {
    hide Enabled, Next;
    assert ([e] + es)[1..] == es;
  }

  lemma NoStep(s: State)
    ensures Leads(s, [], s)
  {
  }

  /** With a buffer to be had that nobody has locked, bread returns the block that was asked for. */
  lemma BreadReturns(s: State, c: nat, key: Key, b: nat) returns (es: seq<Event>, t: State)
    requires c < |s.clients| && s.clients[c].Out? && CanGet(s.bufs, key, b) && !s.bufs[b].locked
    ensures Leads(s, es, t) && Returned(t, c) && t.clients[c].key == key && t.clients[c].b == b
    ensures t.disk == s.disk && t.latest == s.latest && forall d: nat :: d < |s.clients| && d != c ==> d < |t.clients| && t.clients[d] == s.clients[d]
  {
    hide Leads, At;
    var s1 := Next(s, Get(c, key, b));
    var s2 := Next(s1, Lock(c));
    if s2.bufs[b].valid {
      t, es := s2, [];
      NoStep(t);
    } else {
      t, es := Next(s2, Read(c)), [Read(c)] + [];
      NoStep(t);
      OneMore(s2, Read(c), [], t);
    }
    OneMore(s1, Lock(c), es, t);
    OneMore(s, Get(c, key, b), [Lock(c)] + es, t);
    es := [Get(c, key, b)] + ([Lock(c)] + es);
  }

  /** And brelse, after a log_write, gives it back. */
  lemma BrelseReturns(s: State, c: nat) returns (es: seq<Event>, t: State)
    requires Inv(s) && Returned(s, c)
    ensures Leads(s, es, t) && t.clients == s.clients[c := Out] && t.latest == s.latest
    ensures s.clients[c].b < |t.bufs| && !t.bufs[s.clients[c].b].locked && t.bufs[s.clients[c].b].dirty
  {
    hide CanGet, Leads, At, Sound, Users;
    Referenced(s.bufs, s.clients, c);
    var s1 := Next(s, LogWrite(c));
    var s2 := Next(s1, Unlock(c));
    t := Next(s2, Drop(c));
    NoStep(t);
    OneMore(s2, Drop(c), [], t);
    OneMore(s1, Unlock(c), [Drop(c)] + [], t);
    es := [Unlock(c)] + ([Drop(c)] + []);
    OneMore(s, LogWrite(c), es, t);
    es := [LogWrite(c)] + es;
  }

  // ---- The code takes the machine's steps ----

  method GetIsStep(cache: Cache, ghost bufs: seq<Buf>, key: Key) returns (r: GetResult)
    requires cache.Ok() && cache.bufs[..] == bufs
    modifies cache.bufs
    ensures cache.Ok()
    ensures r.PanicNoBuffers? <==> !exists b: nat :: CanGet(bufs, key, b)
    ensures r.PanicNoBuffers? ==> cache.bufs[..] == bufs
    ensures !r.PanicNoBuffers? ==> CanGet(bufs, key, r.b) && cache.bufs[..] == bufs[r.b := Gotten(bufs[r.b], key)]
  {
    r := cache.BGet(key);
    CanGetExactly(bufs, key);
    if r.Hit? {
      assert CanGet(bufs, key, r.b);
    } else if r.Recycled? {
      ghost var k: nat :| LeastRecent(bufs, cache.ring, k, r.b);
      assert CanGet(bufs, key, r.b);
    } else {
      assert forall i: nat :: i < |bufs| ==> cache.bufs[i] == bufs[i];
    }
  }
}
