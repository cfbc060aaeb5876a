/**
 A pipe carries writes of any length and does not get stuck: runs that finish the calls under way,
 built step by step from any reachable state.
 */
module PipeProgress {
  import opened Common
  import opened PipeRing
  import opened PipeMachine
  import opened PipeCalls

  lemma {:induction false} Then(s: State, es: seq<Event>, m: State, more: seq<Event>, t: State)
    requires Leads(s, es, m) && Leads(m, more, t)
    ensures Leads(s, es + more, t)
    decreases |es|
  {
    hide Next, Enabled;
    if es == [] {
      assert es + more == more;
    } else {
      Then(Next(s, es[0]), es[1..], m, more, t);
      assert (es + more)[1..] == es[1..] + more;
    }
  }

  lemma OneStep(s: State, e: Event)
    requires Enabled(s, e)
    ensures Leads(s, [e], Next(s, e))
  {
    hide Enabled, Next;
    assert [e][1..] == [];
    assert Leads(Next(s, e), [], Next(s, e));
  }

  /** One step first. */
  lemma Before(s: State, e: Event, es: seq<Event>, t: State)
    requires Enabled(s, e) && Leads(Next(s, e), es, t)
    ensures Leads(s, [e] + es, t)
  {
    hide Enabled, Next, Leads;
    OneStep(s, e);
    Then(s, [e], Next(s, e), es, t);
  }

  /** No call of the run fails. */
  ghost predicate Clean(es: seq<Event>) {
    forall e :: e in es ==> !e.WFail? && !e.RFail?
  }

  // ---- A reader takes a byte ----

  /** Reader r, with the lock, takes one byte and returns. */
  lemma TakeByte(s: State, r: nat, n: nat) returns (es: seq<Event>, t: State)
    requires r < |s.readers| && s.readers[r] == RHold(n) && n == 1 && !Empty(s.ring)
    ensures Leads(s, es, t) && Clean(es)
    ensures t == s.(ring := Get(s.ring), got := s.got + [Front(s.ring)], readers := s.readers[r := RIdle], lock := None)
  {
    hide Empty, Get, Front, Full, Leads;
    var s1 := Next(s, RGo(r));
    var s2 := Next(s1, RByte(r));
    t := Next(s2, RDone(r));
    OneStep(s2, RDone(r));
    Before(s1, RByte(r), [RDone(r)], t);
    Before(s, RGo(r), [RByte(r)] + [RDone(r)], t);
    es := [RGo(r)] + ([RByte(r)] + [RDone(r)]);
  }

  /** A read of one byte by reader r, from call to return. */
  lemma ReadByte(s: State, r: nat) returns (es: seq<Event>, t: State)
    requires r < |s.readers| && s.readers[r] == RIdle && s.lock == None && !Empty(s.ring)
    ensures Leads(s, es, t) && Clean(es)
    ensures t == s.(ring := Get(s.ring), got := s.got + [Front(s.ring)])
  {
    hide Empty, Get, Front, Full, Leads;
    var s1 := Next(s, RCall(r, 1));
    var s2 := Next(s1, RLock(r));
    es, t := TakeByte(s2, r, 1);
    Before(s1, RLock(r), es, t);
    Before(s, RCall(r, 1), [RLock(r)] + es, t);
    es := [RCall(r, 1)] + ([RLock(r)] + es);
    assert t.readers == s.readers;
  }

  // ---- A write of any length ----

  /** A full pipe: the writer sleeps, a reader takes a byte, and the writer has the lock again. */
  lemma MakeRoom(s: State, w: nat, r: nat) returns (es: seq<Event>, t: State)
    requires Inv(s) && w < |s.writers| && s.writers[w].WHold? && s.writers[w].i < |s.writers[w].addr| && Full(s.ring) && s.readopen
    requires r < |s.readers| && s.readers[r] == RIdle
    ensures Leads(s, es, t) && Clean(es) && Inv(t) && !Full(t.ring)
    ensures t == s.(ring := Get(s.ring), got := s.got + [Front(s.ring)], lock := Some(W(w)))
  {
    hide Empty, Get, Front, Full, Leads, Inv;
    Waiting(s);
    var s1 := Next(s, WSleep(w));
    StepInv(s, WSleep(w));
    Waiting(s1);
    var read, s2 := ReadByte(s1, r);
    RunInv(s1, read, s2);
    t := Next(s2, WLock(w));
    StepInv(s2, WLock(w));
    Waiting(t);
    OneStep(s2, WLock(w));
    Then(s1, read, s2, [WLock(w)], t);
    Before(s, WSleep(w), read + [WLock(w)], t);
    es := [WSleep(w)] + (read + [WLock(w)]);
    assert t.writers == s.writers;
  }

  /** Writer w, with the lock, finishes its call. */
  lemma {:induction false} FinishWrite(s: State, w: nat, r: nat) returns (es: seq<Event>, t: State)
    requires Inv(s) && w < |s.writers| && s.writers[w].WHold? && s.writers[w].i <= |s.writers[w].addr| && s.readopen
    requires r < |s.readers| && s.readers[r] == RIdle
    ensures Leads(s, es, t) && Clean(es)
    ensures t.writers == s.writers[w := WIdle] && t.lock == None && t.readers == s.readers
    ensures From(t.put, w) == From(s.put, w) + s.writers[w].addr[s.writers[w].i..]
    decreases |s.writers[w].addr| - s.writers[w].i, if Full(s.ring) then 1 else 0
  {
    hide Empty, Get, Front, Put, Full, Leads, Inv, From;
    var x := s.writers[w];
    if x.i == |x.addr| {
      t := Next(s, WDone(w));
      OneStep(s, WDone(w));
      es := [WDone(w)];
    } else if Full(s.ring) {
      var room, m := MakeRoom(s, w, r);
      es, t := FinishWrite(m, w, r);
      Then(s, room, m, es, t);
      es := room + es;
    } else {
      var m := Next(s, WByte(w));
      StepInv(s, WByte(w));
      es, t := FinishWrite(m, w, r);
      Before(s, WByte(w), es, t);
      es := [WByte(w)] + es;
      FromAppend(s.put, (w, x.addr[x.i]), w);
      assert x.addr[x.i..] == [x.addr[x.i]] + x.addr[x.i + 1..];
      assert s.writers[w := WHold(x.addr, x.i + 1)][w := WIdle] == s.writers[w := WIdle];
    }
  }

  /** From every reachable state with the lock free and the read end open, a write under way, however long, can be carried to
      its end with one reader that reads, and none of its bytes is missing. */
  lemma WriteGoesThrough(s0: State, es0: seq<Event>, s: State, w: nat, r: nat) returns (es: seq<Event>, t: State)
    requires Fresh(s0) && Leads(s0, es0, s) && s.lock == None && Close(false) !in es0
    requires w < |s.writers| && s.writers[w].WWant? && r < |s.readers| && s.readers[r] == RIdle
    ensures Leads(s, es, t) && Clean(es) && t.lock == None
    ensures t.writers == s.writers[w := WIdle] && t.readers == s.readers
    ensures s.writers[w].i <= |s.writers[w].addr| && From(t.put, w) == From(s.put, w) + s.writers[w].addr[s.writers[w].i..]
  {
    hide Empty, Get, Front, Put, Full, Leads, From, RingInv, LockInv, ReaderInv, Fresh;
    RunFacts(s0, es0, s);
    WriterKnown(s, w);
    var m := Next(s, WLock(w));
    StepInv(s, WLock(w));
    es, t := FinishWrite(m, w, r);
    Before(s, WLock(w), es, t);
    es := [WLock(w)] + es;
  }

  // ---- A reader of an empty pipe ----

  /** Writer w writes one byte, from call to return. */
  lemma WriteByte(s: State, w: nat, b: nat) returns (es: seq<Event>, t: State)
    requires w < |s.writers| && |s.sent| == |s.writers| && s.writers[w] == WIdle && s.lock == None && !Full(s.ring)
    ensures Leads(s, es, t) && Clean(es)
    ensures t == s.(ring := Put(s.ring, b), put := s.put + [(w, b)], sent := s.sent[w := s.sent[w] + [b]])
  {
    hide Empty, Full, Put, Leads;
    var s1 := Next(s, WCall(w, [b]));
    var s2 := Next(s1, WLock(w));
    var s3 := Next(s2, WByte(w));
    t := Next(s3, WDone(w));
    OneStep(s3, WDone(w));
    Before(s2, WByte(w), [WDone(w)], t);
    Before(s1, WLock(w), [WByte(w)] + [WDone(w)], t);
    es := [WLock(w)] + ([WByte(w)] + [WDone(w)]);
    Before(s, WCall(w, [b]), es, t);
    es := [WCall(w, [b])] + es;
    assert t.writers == s.writers;
    assert [b][..1] == [b];
  }

  /** From every reachable state with the lock free: a reader that finds the pipe empty sleeps, and gets the next byte that is written. */
  lemma SleeperGetsByte(s0: State, es0: seq<Event>, s: State, w: nat, r: nat, b: nat) returns (es: seq<Event>, t: State)
    requires Fresh(s0) && Leads(s0, es0, s) && s.lock == None && Close(true) !in es0 && |s.got| == |s.put|
    requires w < |s.writers| && s.writers[w] == WIdle && r < |s.readers| && s.readers[r] == RIdle
    ensures Leads(s, es, t) && Clean(es) && RSleep(r) in es
    ensures t.writers == s.writers && t.readers == s.readers && t.lock == None && t.got == s.got + [b]
  {
    hide Empty, Get, Front, Put, Full, Leads, From, LockInv, ReaderInv, Fresh, RingInv;
    RunFacts(s0, es0, s);
    WriterCount(s);
    var s1 := Next(s, RCall(r, 1));
    var s2 := Next(s1, RLock(r));
    var s3 := Next(s2, RSleep(r));
    var es1, s4 := WriteByte(s3, w, b);
    var s5 := Next(s4, RLock(r));
    PutGet(s, w, b);
    var es2;
    es2, t := TakeByte(s5, r, 1);
    Before(s4, RLock(r), es2, t);
    Then(s3, es1, s4, [RLock(r)] + es2, t);
    es := es1 + ([RLock(r)] + es2);
    Before(s2, RSleep(r), es, t);
    Before(s1, RLock(r), [RSleep(r)] + es, t);
    Before(s, RCall(r, 1), [RLock(r)] + ([RSleep(r)] + es), t);
    es := [RCall(r, 1)] + ([RLock(r)] + ([RSleep(r)] + es));
    assert t.readers == s.readers;
  }

  lemma WriterCount(s: State)
    requires Inv(s)
    ensures |s.sent| == |s.writers|
  {
  }

  /** A byte put into an empty ring is the one that comes out. */
  lemma PutGet(s: State, w: nat, b: nat)
    requires Inv(s) && |s.got| == |s.put|
    ensures !Full(s.ring) && !Empty(Put(s.ring, b)) && Front(Put(s.ring, b)) == b
  {
    hide LockInv, WritersInv, ReaderInv, From, Put;
    Waiting(s);
    PutKeeps(s.ring, s.put, s.got, w, b);
    var put := s.put + [(w, b)];
    Counters(Put(s.ring, b), Bytes(put), |s.got|);
    GetHolds(Put(s.ring, b), Bytes(put), |s.got|);
  }

  /** From every reachable state with the lock free and the pipe empty: once the write end is closed a read returns, with nothing. */
  lemma EndOfFile(s0: State, es0: seq<Event>, s: State, r: nat, n: nat) returns (es: seq<Event>, t: State)
    requires Fresh(s0) && Leads(s0, es0, s) && s.lock == None && |s.got| == |s.put| && r < |s.readers| && s.readers[r] == RIdle
    ensures Leads(s, es, t) && Clean(es) && Close(true) in es && RDone(r) in es
    ensures t == s.(writeopen := false)
  {
    hide Empty, Get, Front, Put, Full, Leads, Inv, Fresh;
    RunFacts(s0, es0, s);
    var s1 := Next(s, Close(true));
    var s2 := Next(s1, RCall(r, n));
    var s3 := Next(s2, RLock(r));
    var s4 := Next(s3, RGo(r));
    t := Next(s4, RDone(r));
    OneStep(s4, RDone(r));
    es := [RDone(r)];
    Before(s3, RGo(r), es, t);
    es := [RGo(r)] + es;
    Before(s2, RLock(r), es, t);
    es := [RLock(r)] + es;
    Before(s1, RCall(r, n), es, t);
    es := [RCall(r, n)] + es;
    Before(s, Close(true), es, t);
    es := [Close(true)] + es;
    assert t.readers == s.readers;
  }
}
