/**
 What the calls on a pipe come to, read off the events of a run: which ends are open, what a write
 has put once it returns, how much a read was asked for, and when a call may sleep or fail.
 */
module PipeCalls {
  import opened Common
  import opened PipeRing
  import opened PipeMachine

  // ---- The open ends ----

  lemma EndStep(s: State, e: Event)
    requires Enabled(s, e)
    ensures Next(s, e).writeopen <==> s.writeopen && e != Close(true)
    ensures Next(s, e).readopen <==> s.readopen && e != Close(false)
  {
    hide Full, Empty, Put, Get, Front;
  }

  lemma {:induction false} EndsFrom(s: State, es: seq<Event>, s': State)
    requires Leads(s, es, s')
    ensures s'.writeopen <==> s.writeopen && Close(true) !in es
    ensures s'.readopen <==> s.readopen && Close(false) !in es
    decreases |es|
  {
    hide Next, Enabled;
    if es != [] {
      EndStep(s, es[0]);
      EndsFrom(Next(s, es[0]), es[1..], s');
      assert es == [es[0]] + es[1..];
    }
  }

  /** An end is open exactly until it has been closed. */
  lemma EndsFollow(s0: State, es: seq<Event>, s: State)
    requires Fresh(s0) && Leads(s0, es, s)
    ensures s.writeopen <==> Close(true) !in es
    ensures s.readopen <==> Close(false) !in es
  {
    hide Leads;
    EndsFrom(s0, es, s);
  }

  // ---- When a call sleeps or fails ----

  lemma Waiting(s: State)
    requires Inv(s)
    ensures |s.got| <= |s.put| <= |s.got| + PIPESIZE
    ensures (Full(s.ring) <==> |s.put| == |s.got| + PIPESIZE) && (Empty(s.ring) <==> |s.put| == |s.got|)
  {
    hide From, LockInv, WritersInv, ReaderInv;
    Counters(s.ring, Bytes(s.put), |s.got|);
  }

  lemma RunFacts(s0: State, es: seq<Event>, s: State)
    requires Fresh(s0) && Leads(s0, es, s)
    ensures Inv(s)
    ensures |s.got| <= |s.put| <= |s.got| + PIPESIZE
    ensures (Full(s.ring) <==> |s.put| == |s.got| + PIPESIZE) && (Empty(s.ring) <==> |s.put| == |s.got|)
    ensures (s.writeopen <==> Close(true) !in es) && (s.readopen <==> Close(false) !in es)
  {
    hide Leads, Inv, Full, Empty;
    FreshInv(s0);
    RunInv(s0, es, s);
    Waiting(s);
    EndsFollow(s0, es, s);
  }

  lemma FreshInv(s: State)
    requires Fresh(s)
    ensures Inv(s)
  {
    hide From;
    forall w: nat
      ensures From([], w) == []
    {
      FromNothing(w);
    }
  }

  /**
   A writer with the lock sleeps exactly while the pipe is full and its read end open, gives up by
   itself exactly if it is full and the read end closed, and is done exactly if every byte is in.
   */
  lemma WriterFate(s0: State, es: seq<Event>, s: State, w: nat)
    requires Fresh(s0) && Leads(s0, es, s) && w < |s.writers| && s.writers[w].WHold?
    ensures s.writers[w].i <= |s.writers[w].addr|
    ensures var left, full := s.writers[w].i < |s.writers[w].addr|, |s.put| == |s.got| + PIPESIZE;
      && (Enabled(s, WByte(w)) <==> left && !full)
      && (Enabled(s, WSleep(w)) <==> left && full && Close(false) !in es)
      && (Enabled(s, WFail(w, false)) <==> left && full && Close(false) in es)
      && (Enabled(s, WDone(w)) <==> !left)
  {
    hide Leads, From, Full, Empty;
    RunFacts(s0, es, s);
  }

  /** A reader with the lock sleeps, or gives up when killed, exactly while the pipe is empty and its write end open. */
  lemma ReaderFate(s0: State, es: seq<Event>, s: State, r: nat)
    requires Fresh(s0) && Leads(s0, es, s) && r < |s.readers|
    ensures s.readers[r].RHold? ==>
      var wait := |s.put| == |s.got| && Close(true) !in es;
      (Enabled(s, RSleep(r)) <==> wait) && (Enabled(s, RFail(r)) <==> wait) && (Enabled(s, RGo(r)) <==> !wait)
    ensures s.readers[r].RCopy? ==>
      var more := |s.readers[r].out| < s.readers[r].n && |s.put| > |s.got|;
      (Enabled(s, RByte(r)) <==> more) && (Enabled(s, RDone(r)) <==> !more)
  {
    hide Leads, From, Full, Empty;
    RunFacts(s0, es, s);
  }

  /** Once the write end is closed no reader sleeps or fails any more, and every reader with the lock can go on. */
  lemma AfterLastWriter(s0: State, es: seq<Event>, s: State, r: nat)
    requires Fresh(s0) && Leads(s0, es, s) && Close(true) in es && r < |s.readers|
    ensures !Enabled(s, RSleep(r)) && !Enabled(s, RFail(r))
    ensures s.readers[r].RHold? ==> Enabled(s, RGo(r))
    ensures s.readers[r].RCopy? ==> Enabled(s, RByte(r)) || Enabled(s, RDone(r))
  {
    hide Leads, From, Full, Empty;
    ReaderFate(s0, es, s, r);
  }

  /** Once the read end is closed no writer sleeps any more, and every writer with the lock can go on. */
  lemma AfterLastReader(s0: State, es: seq<Event>, s: State, w: nat)
    requires Fresh(s0) && Leads(s0, es, s) && Close(false) in es && w < |s.writers|
    ensures !Enabled(s, WSleep(w))
    ensures s.writers[w].WHold? ==> Enabled(s, WByte(w)) || Enabled(s, WFail(w, false)) || Enabled(s, WDone(w))
  {
    hide Leads, From, Full, Empty;
    if s.writers[w].WHold? {
      WriterFate(s0, es, s, w);
    }
  }

  // ---- What the calls asked for ----

  /** All bytes that w has been told to write, in order. */
  function Asked(es: seq<Event>, w: nat): seq<nat>
  {
    if es == [] then []
    else
      var e := es[|es| - 1];
      Asked(es[..|es| - 1], w) + if e.WCall? && e.w == w then e.addr else []
  }

  predicate Fails(es: seq<Event>, w: nat) {
    exists k :: 0 <= k < |es| && es[k].WFail? && es[k].w == w
  }

  /** What w's current call has still to put. */
  function Rest(x: Writer): seq<nat>
  {
    if x.WIdle? || x.i > |x.addr| then [] else x.addr[x.i..]
  }

  /** The size of r's latest request. */
  function AskedFor(es: seq<Event>, r: nat): nat
  {
    if es == [] then 0
    else
      var e := es[|es| - 1];
      if e.RCall? && e.r == r then e.n else AskedFor(es[..|es| - 1], r)
  }

  /** w, or r, is inside a call: it has called and not returned since. */
  predicate Writing(es: seq<Event>, w: nat) {
    if es == [] then false
    else
      var e := es[|es| - 1];
      if e.WCall? && e.w == w then true
      else if (e.WDone? || e.WFail?) && e.w == w then false
      else Writing(es[..|es| - 1], w)
  }

  predicate Reading(es: seq<Event>, r: nat) {
    if es == [] then false
    else
      var e := es[|es| - 1];
      if e.RCall? && e.r == r then true
      else if (e.RDone? || e.RFail?) && e.r == r then false
      else Reading(es[..|es| - 1], r)
  }

  ghost predicate CallsOk(s: State, es: seq<Event>, w: nat, r: nat) {
    && (w < |s.writers| ==> (Writing(es, w) <==> !s.writers[w].WIdle?)) && (r < |s.readers| ==> (Reading(es, r) <==> !s.readers[r].RIdle?))
    && (w < |s.writers| && !Fails(es, w) ==> From(s.put, w) + Rest(s.writers[w]) == Asked(es, w))
    && (r < |s.readers| && !s.readers[r].RIdle? ==> s.readers[r].n == AskedFor(es, r))
  }

  lemma {:induction false} LeadsSplit(s: State, es: seq<Event>, e: Event, s': State)
    requires Leads(s, es + [e], s')
    ensures exists m :: Leads(s, es, m) && Enabled(m, e) && s' == Next(m, e)
    decreases |es|
  {
    hide Next, Enabled;
    if es == [] {
      assert [] + [e] == [e] && [e][1..] == [];
      assert Leads(s, [], s);
    } else {
      assert (es + [e])[1..] == es[1..] + [e];
      LeadsSplit(Next(s, es[0]), es[1..], e, s');
      var m :| Leads(Next(s, es[0]), es[1..], m) && Enabled(m, e) && s' == Next(m, e);
      assert Leads(s, es, m);
    }
  }

  lemma FailsMore(es: seq<Event>, e: Event, w: nat)
    ensures Fails(es + [e], w) <==> Fails(es, w) || (e.WFail? && e.w == w)
  {
    var more := es + [e];
    if Fails(es, w) {
      var k :| 0 <= k < |es| && es[k].WFail? && es[k].w == w;
      assert more[k] == es[k];
    }
    assert more[|es|] == e;
  }

  lemma AskedMore(es: seq<Event>, e: Event, w: nat)
    ensures Asked(es + [e], w) == Asked(es, w) + if e.WCall? && e.w == w then e.addr else []
    ensures AskedFor(es + [e], w) == if e.RCall? && e.r == w then e.n else AskedFor(es, w)
    ensures Writing(es + [e], w) <==> (e.WCall? && e.w == w) || (!((e.WDone? || e.WFail?) && e.w == w) && Writing(es, w))
    ensures Reading(es + [e], w) <==> (e.RCall? && e.r == w) || (!((e.RDone? || e.RFail?) && e.r == w) && Reading(es, w))
  {
    assert (es + [e])[..|es|] == es;
  }

  /** Only w's own steps change w, and only the storing of a byte changes what is in the pipe. */
  lemma PutStep(s: State, e: Event, w: nat)
    requires Enabled(s, e) && w < |s.writers|
    ensures w < |Next(s, e).writers|
    ensures e.WByte? ==> Next(s, e).put == s.put + [(e.w, s.writers[e.w].addr[s.writers[e.w].i])]
    ensures !e.WByte? ==> Next(s, e).put == s.put
    ensures !ByWriter(e, w) ==> Next(s, e).writers[w] == s.writers[w]
  {
    hide Full, Empty, Put, Get, Front;
  }

  predicate ByWriter(e: Event, w: nat) {
    (e.WCall? || e.WLock? || e.WByte? || e.WSleep? || e.WFail? || e.WDone?) && e.w == w
  }

  lemma RestStep(s: State, e: Event, w: nat)
    requires Enabled(s, e) && w < |s.writers| && ByWriter(e, w) && !e.WFail? && (!s.writers[w].WIdle? ==> s.writers[w].i <= |s.writers[w].addr|)
    ensures w < |Next(s, e).writers|
    ensures e.WByte? ==> Rest(s.writers[w]) == [s.writers[w].addr[s.writers[w].i]] + Rest(Next(s, e).writers[w])
    ensures !e.WByte? ==> Rest(Next(s, e).writers[w]) == Rest(s.writers[w]) + if e.WCall? then e.addr else []
  {
    hide Full, Empty, Put, Get, Front;
    if e.WByte? {
      var x := s.writers[w];
      assert x.addr[x.i..] == [x.addr[x.i]] + x.addr[x.i + 1..];
      assert Next(s, e).writers[w] == WHold(x.addr, x.i + 1);
    }
  }

  lemma WriteStep(s: State, e: Event, w: nat)
    requires WritersInv(s.writers, s.put, s.sent) && Enabled(s, e) && w < |s.writers| && !(e.WFail? && e.w == w)
    ensures w < |Next(s, e).writers|
    ensures From(Next(s, e).put, w) + Rest(Next(s, e).writers[w]) == From(s.put, w) + Rest(s.writers[w]) + if e.WCall? && e.w == w then e.addr else []
  {
    hide From, Next, Rest, WritersInv;
    WriterKnown(s, w);
    PutStep(s, e, w);
    if e.WByte? {
      FromAppend(s.put, (e.w, s.writers[e.w].addr[s.writers[e.w].i]), w);
    }
    if ByWriter(e, w) {
      RestStep(s, e, w);
    }
  }

  lemma ReadStep(s: State, e: Event, r: nat)
    requires Enabled(s, e) && r < |Next(s, e).readers| && !Next(s, e).readers[r].RIdle?
    ensures r < |s.readers|
    ensures if e.RCall? && e.r == r then Next(s, e).readers[r].n == e.n else !s.readers[r].RIdle? && Next(s, e).readers[r].n == s.readers[r].n
  {
    hide Full, Empty, Put, Get, Front;
  }

  lemma InCallStep(s: State, e: Event, w: nat, r: nat)
    requires Enabled(s, e)
    ensures |Next(s, e).writers| == |s.writers| && |Next(s, e).readers| == |s.readers|
    ensures w < |s.writers| ==> (!Next(s, e).writers[w].WIdle? <==>
      ((e.WCall? && e.w == w) || (!((e.WDone? || e.WFail?) && e.w == w) && !s.writers[w].WIdle?)))
    ensures r < |s.readers| ==> (!Next(s, e).readers[r].RIdle? <==>
      ((e.RCall? && e.r == r) || (!((e.RDone? || e.RFail?) && e.r == r) && !s.readers[r].RIdle?)))
  {
    hide Full, Empty, Put, Get, Front;
  }

  lemma CallsStep(s: State, es: seq<Event>, e: Event, w: nat, r: nat)
    requires Inv(s) && CallsOk(s, es, w, r) && Enabled(s, e)
    ensures CallsOk(Next(s, e), es + [e], w, r)
  {
    hide From, Asked, AskedFor, Fails, Next, Enabled, WritersInv, RingInv, LockInv, ReaderInv, Rest, Writing, Reading;
    InCallStep(s, e, w, r);
    var s' := Next(s, e);
    FailsMore(es, e, w);
    AskedMore(es, e, w);
    AskedMore(es, e, r);
    SameWriters(s, e);
    if w < |s'.writers| && !Fails(es + [e], w) {
      WriteStep(s, e, w);
    }
    if r < |s'.readers| && !s'.readers[r].RIdle? {
      ReadStep(s, e, r);
    }
  }

  lemma SameWriters(s: State, e: Event)
    requires Enabled(s, e)
    ensures |Next(s, e).writers| == |s.writers| && |Next(s, e).readers| == |s.readers|
  {
  }

  lemma {:induction false} CallsRun(s0: State, es: seq<Event>, s: State, w: nat, r: nat)
    requires Fresh(s0) && Leads(s0, es, s)
    ensures CallsOk(s, es, w, r)
    decreases |es|
  {
    hide CallsOk, Inv, Next, Enabled, Leads;
    if es == [] {
      CallsStart(s0, es, s, w, r);
    } else {
      var front, e := es[..|es| - 1], es[|es| - 1];
      assert es == front + [e];
      LeadsSplit(s0, front, e, s);
      var m :| Leads(s0, front, m) && Enabled(m, e) && s == Next(m, e);
      CallsRun(s0, front, m, w, r);
      FreshInv(s0);
      RunInv(s0, front, m);
      CallsStep(m, front, e, w, r);
    }
  }

  lemma CallsStart(s0: State, es: seq<Event>, s: State, w: nat, r: nat)
    requires Fresh(s0) && es == [] && Leads(s0, es, s)
    ensures CallsOk(s, es, w, r)
  {
    FromNothing(w);
  }

  /** A call ends with its return, and a process is outside exactly if all its calls have returned. */
  lemma CallsReturn(s0: State, es: seq<Event>, s: State, w: nat, r: nat)
    requires Fresh(s0) && Leads(s0, es, s)
    ensures w < |s.writers| ==> (Writing(es, w) <==> !s.writers[w].WIdle?)
    ensures r < |s.readers| ==> (Reading(es, r) <==> !s.readers[r].RIdle?)
  {
    hide Leads, Writing, Reading;
    CallsRun(s0, es, s, w, r);
  }

  /** A writer whose calls have all returned without failing has put every byte it was told to write, in order. */
  lemma WholeWrites(s0: State, es: seq<Event>, s: State, w: nat)
    requires Fresh(s0) && Leads(s0, es, s) && w < |s.writers| && s.writers[w].WIdle? && !Fails(es, w)
    ensures From(s.put, w) == Asked(es, w)
  {
    hide Leads, From, Asked, Fails;
    CallsRun(s0, es, s, w, 0);
  }

  /** A read returns as many bytes as it was asked for, or empties the pipe. */
  lemma ReadReturns(s0: State, es: seq<Event>, s: State, r: nat)
    requires Fresh(s0) && Leads(s0, es, s) && Enabled(s, RDone(r))
    ensures |s.readers[r].out| <= AskedFor(es, r)
    ensures |s.readers[r].out| == AskedFor(es, r) || |s.got| == |s.put|
  {
    hide Leads, From, AskedFor, Full, Empty;
    RunFacts(s0, es, s);
    CallsRun(s0, es, s, 0, r);
    assert ReaderInv(s.readers[r], s.ring, s.writeopen, s.got);
  }
}
