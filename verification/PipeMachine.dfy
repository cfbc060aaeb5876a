/**
 pipewrite, piperead and pipeclose as steps of any number of writers and readers, in any order that
 the pipe's lock allows.  A writer or reader that sleeps gives up the lock and takes it again later.
 */
module PipeMachine {
  import opened Common
  import opened PipeRing

  datatype Agent = W(id: nat) | R(id: nat)

  /** i bytes of addr are in the pipe. */
  datatype Writer = WIdle | WWant(addr: seq<nat>, i: nat) | WHold(addr: seq<nat>, i: nat)

  /** out is what the call has read so far. */
  datatype Reader = RIdle | RWant(n: nat) | RHold(n: nat) | RCopy(n: nat, out: seq<nat>)

  /** put records each byte with its writer, got the bytes read, sent[w] the bytes of w's finished calls. */
  datatype State = State(ring: Ring, readopen: bool, writeopen: bool, lock: Option<Agent>, writers: seq<Writer>, readers: seq<Reader>,
                         put: seq<(nat, nat)>, got: seq<nat>, sent: seq<seq<nat>>)

  datatype Event =
    | WCall(w: nat, addr: seq<nat>) | WLock(w: nat) | WByte(w: nat) | WSleep(w: nat) | WFail(w: nat, killed: bool) | WDone(w: nat)
    | RCall(r: nat, n: nat) | RLock(r: nat) | RSleep(r: nat) | RFail(r: nat) | RGo(r: nat) | RByte(r: nat) | RDone(r: nat)
    | Close(writable: bool)

  predicate Blocked(s: State) {
    Empty(s.ring) && s.writeopen
  }

  predicate Enabled(s: State, e: Event) {
    match e
    case WCall(w, addr) => w < |s.writers| && s.writers[w].WIdle?
    case WLock(w) => w < |s.writers| && s.writers[w].WWant? && s.lock == None
    case WByte(w) => w < |s.writers| && s.writers[w].WHold? && s.writers[w].i < |s.writers[w].addr| && !Full(s.ring)
    case WSleep(w) => w < |s.writers| && s.writers[w].WHold? && s.writers[w].i < |s.writers[w].addr| && Full(s.ring) && s.readopen
    case WFail(w, killed) => w < |s.writers| && s.writers[w].WHold? && s.writers[w].i < |s.writers[w].addr| && Full(s.ring) && (!s.readopen || killed)
    case WDone(w) => w < |s.writers| && s.writers[w].WHold? && s.writers[w].i == |s.writers[w].addr|
    case RCall(r, n) => r < |s.readers| && s.readers[r].RIdle?
    case RLock(r) => r < |s.readers| && s.readers[r].RWant? && s.lock == None
    case RSleep(r) => r < |s.readers| && s.readers[r].RHold? && Blocked(s)
    case RFail(r) => r < |s.readers| && s.readers[r].RHold? && Blocked(s)
    case RGo(r) => r < |s.readers| && s.readers[r].RHold? && !Blocked(s)
    case RByte(r) => r < |s.readers| && s.readers[r].RCopy? && |s.readers[r].out| < s.readers[r].n && !Empty(s.ring)
    case RDone(r) => r < |s.readers| && s.readers[r].RCopy? && (|s.readers[r].out| >= s.readers[r].n || Empty(s.ring))
    case Close(_) => s.lock == None
  }

  function SetW(s: State, w: nat, x: Writer): State
    requires w < |s.writers|
  {
    s.(writers := s.writers[w := x])
  }

  function SetR(s: State, r: nat, x: Reader): State
    requires r < |s.readers|
  {
    s.(readers := s.readers[r := x])
  }

  /** The bytes of w's current call that are in the pipe count as sent once the call is over. */
  function Finish(s: State, w: nat): State
    requires w < |s.writers| && s.writers[w].WHold? && s.writers[w].i <= |s.writers[w].addr|
  {
    SetW(s, w, WIdle).(lock := None, sent := if w < |s.sent| then s.sent[w := s.sent[w] + s.writers[w].addr[..s.writers[w].i]] else s.sent)
  }

  function Next(s: State, e: Event): State
    requires Enabled(s, e)
  {
    match e
    case WCall(w, addr) => SetW(s, w, WWant(addr, 0))
    case WLock(w) => SetW(s, w, WHold(s.writers[w].addr, s.writers[w].i)).(lock := Some(W(w)))
    case WByte(w) =>
      var b := s.writers[w].addr[s.writers[w].i];
      SetW(s, w, WHold(s.writers[w].addr, s.writers[w].i + 1)).(ring := Put(s.ring, b), put := s.put + [(w, b)])
    case WSleep(w) => SetW(s, w, WWant(s.writers[w].addr, s.writers[w].i)).(lock := None)
    case WFail(w, _) => Finish(s, w)
    case WDone(w) => Finish(s, w)
    case RCall(r, n) => SetR(s, r, RWant(n))
    case RLock(r) => SetR(s, r, RHold(s.readers[r].n)).(lock := Some(R(r)))
    case RSleep(r) => SetR(s, r, RWant(s.readers[r].n)).(lock := None)
    case RFail(r) => SetR(s, r, RIdle).(lock := None)
    case RGo(r) => SetR(s, r, RCopy(s.readers[r].n, []))
    case RByte(r) =>
      var b := Front(s.ring);
      SetR(s, r, RCopy(s.readers[r].n, s.readers[r].out + [b])).(ring := Get(s.ring), got := s.got + [b])
    case RDone(r) => SetR(s, r, RIdle).(lock := None)
    case Close(writable) => if writable then s.(writeopen := false) else s.(readopen := false)
  }

  // ---- Streams ----

  /** The bytes alone. */
  function Bytes(put: seq<(nat, nat)>): (b: seq<nat>)
    ensures |b| == |put| && forall k :: 0 <= k < |put| ==> b[k] == put[k].1
  {
    seq(|put|, k requires 0 <= k < |put| => put[k].1)
  }

  /** The bytes of writer w, in the order in which they are in the pipe. */
  function From(put: seq<(nat, nat)>, w: nat): seq<nat>
  {
    if put == [] then []
    else From(put[..|put| - 1], w) + (if put[|put| - 1].0 == w then [put[|put| - 1].1] else [])
  }

  lemma FromAppend(put: seq<(nat, nat)>, x: (nat, nat), w: nat)
    ensures From(put + [x], w) == From(put, w) + if x.0 == w then [x.1] else []
  {
    assert (put + [x])[..|put|] == put;
  }

  /** What writer w has put so far: its finished calls and the current one up to i. */
  function Written(sent: seq<nat>, x: Writer): seq<nat>
  {
    if x.WIdle? || x.i > |x.addr| then sent else sent + x.addr[..x.i]
  }

  // ---- What is kept ----

  ghost predicate RingInv(ring: Ring, put: seq<(nat, nat)>, got: seq<nat>) {
    && Holds(ring, Bytes(put), |got|)
    && got == Bytes(put)[..|got|]
  }

  ghost predicate LockInv(s: State) {
    && (forall w: nat :: w < |s.writers| ==> (s.writers[w].WHold? <==> s.lock == Some(W(w))))
    && (forall r: nat :: r < |s.readers| ==> (s.readers[r].RHold? || s.readers[r].RCopy? <==> s.lock == Some(R(r))))
  }

  ghost predicate WritersInv(writers: seq<Writer>, put: seq<(nat, nat)>, sent: seq<seq<nat>>) {
    && |sent| == |writers|
    && (forall w: nat :: w < |writers| ==> (!writers[w].WIdle? ==> writers[w].i <= |writers[w].addr|) && From(put, w) == Written(sent[w], writers[w]))
  }

  ghost predicate ReaderInv(x: Reader, ring: Ring, writeopen: bool, got: seq<nat>) {
    x.RCopy? ==>
      && |x.out| <= x.n && |x.out| <= |got| && x.out == got[|got| - |x.out|..]
      && (x.out == [] ==> !Empty(ring) || !writeopen)
  }

  ghost predicate Inv(s: State) {
    && RingInv(s.ring, s.put, s.got) && LockInv(s) && WritersInv(s.writers, s.put, s.sent)
    && forall r: nat :: r < |s.readers| ==> ReaderInv(s.readers[r], s.ring, s.writeopen, s.got)
  }

  lemma PutKeeps(ring: Ring, put: seq<(nat, nat)>, got: seq<nat>, w: nat, b: nat)
    requires RingInv(ring, put, got) && !Full(ring)
    ensures RingInv(Put(ring, b), put + [(w, b)], got)
  {
    Counters(ring, Bytes(put), |got|);
    PutHolds(ring, Bytes(put), |got|, b);
    assert Bytes(put + [(w, b)]) == Bytes(put) + [b];
  }

  lemma GetKeeps(ring: Ring, put: seq<(nat, nat)>, got: seq<nat>)
    requires RingInv(ring, put, got) && !Empty(ring)
    ensures RingInv(Get(ring), put, got + [Front(ring)])
  {
    Counters(ring, Bytes(put), |got|);
    GetHolds(ring, Bytes(put), |got|);
  }

  lemma WriterStays(writers: seq<Writer>, put: seq<(nat, nat)>, sent: seq<seq<nat>>, w: nat, x: Writer)
    requires WritersInv(writers, put, sent) && w < |writers| && (!x.WIdle? ==> x.i <= |x.addr|) && Written(sent[w], x) == Written(sent[w], writers[w])
    ensures WritersInv(writers[w := x], put, sent)
  {
    hide From;
  }

  lemma WriterPuts(writers: seq<Writer>, put: seq<(nat, nat)>, sent: seq<seq<nat>>, w: nat)
    requires WritersInv(writers, put, sent) && w < |writers| && writers[w].WHold? && writers[w].i < |writers[w].addr|
    ensures var x := writers[w]; WritersInv(writers[w := WHold(x.addr, x.i + 1)], put + [(w, x.addr[x.i])], sent)
  {
    hide From;
    var x := writers[w];
    var b := x.addr[x.i];
    assert x.addr[..x.i + 1] == x.addr[..x.i] + [b];
    forall v: nat | v < |writers|
      ensures From(put + [(w, b)], v) == From(put, v) + if w == v then [b] else []
    {
      FromAppend(put, (w, b), v);
    }
  }

  lemma WriterEnds(s: State, w: nat)
    requires WritersInv(s.writers, s.put, s.sent) && w < |s.writers| && s.writers[w].WHold?
    requires s.writers[w].i <= |s.writers[w].addr|
    ensures WritersInv(Finish(s, w).writers, Finish(s, w).put, Finish(s, w).sent)
  {
    hide From;
  }

  lemma LockWriter(s: State, e: Event, w: nat)
    requires LockInv(s) && Enabled(s, e) && w < |Next(s, e).writers|
    ensures Next(s, e).writers[w].WHold? <==> Next(s, e).lock == Some(W(w))
  {
    hide Full, Empty, Put, Get, Front;
  }

  lemma LockReader(s: State, e: Event, r: nat)
    requires LockInv(s) && Enabled(s, e) && r < |Next(s, e).readers|
    ensures Next(s, e).readers[r].RHold? || Next(s, e).readers[r].RCopy? <==> Next(s, e).lock == Some(R(r))
  {
    hide Full, Empty, Put, Get, Front;
  }

  lemma LockStep(s: State, e: Event)
    requires LockInv(s) && Enabled(s, e)
    ensures LockInv(Next(s, e))
  {
    hide Full, Empty, Put, Get, Front, Next, Enabled;
    var s' := Next(s, e);
    forall w: nat | w < |s'.writers|
      ensures s'.writers[w].WHold? <==> s'.lock == Some(W(w))
    {
      LockWriter(s, e, w);
    }
    forall r: nat | r < |s'.readers|
      ensures s'.readers[r].RHold? || s'.readers[r].RCopy? <==> s'.lock == Some(R(r))
    {
      LockReader(s, e, r);
    }
  }

  lemma WritersStep(s: State, e: Event)
    requires Inv(s) && Enabled(s, e)
    ensures WritersInv(Next(s, e).writers, Next(s, e).put, Next(s, e).sent)
  {
    hide From, Full, Empty, Put, Get, Front, RingInv, LockInv, ReaderInv, WritersInv;
    match e
    case WCall(w, addr) => WriterKnown(s, w); WriterStays(s.writers, s.put, s.sent, w, WWant(addr, 0));
    case WLock(w) => WriterKnown(s, w); WriterStays(s.writers, s.put, s.sent, w, WHold(s.writers[w].addr, s.writers[w].i));
    case WByte(w) => WriterPuts(s.writers, s.put, s.sent, w);
    case WSleep(w) => WriterKnown(s, w); WriterStays(s.writers, s.put, s.sent, w, WWant(s.writers[w].addr, s.writers[w].i));
    case WFail(w, _) => WriterEnds(s, w);
    case WDone(w) => WriterEnds(s, w);
    case _ =>
  }

  lemma WriterKnown(s: State, w: nat)
    requires WritersInv(s.writers, s.put, s.sent) && w < |s.writers|
    ensures |s.sent| == |s.writers| && (!s.writers[w].WIdle? ==> s.writers[w].i <= |s.writers[w].addr|)
  {
  }

  ghost predicate ByReader(e: Event, r: nat) {
    (e.RCall? || e.RLock? || e.RSleep? || e.RFail? || e.RGo? || e.RByte? || e.RDone?) && e.r == r
  }

  /** A reader that copies holds the lock, so nobody else touches the ring meanwhile. */
  lemma OtherStep(s: State, e: Event, r: nat)
    requires LockInv(s) && Enabled(s, e) && r < |s.readers| && !ByReader(e, r)
    ensures r < |Next(s, e).readers| && Next(s, e).readers[r] == s.readers[r] && (Next(s, e).writeopen ==> s.writeopen)
    ensures s.readers[r].RCopy? ==> Next(s, e).ring == s.ring && Next(s, e).got == s.got
  {
    hide Full, Empty, Put, Get, Front;
  }

  lemma OwnStep(s: State, e: Event, r: nat)
    requires Enabled(s, e) && r < |s.readers| && ByReader(e, r) && ReaderInv(s.readers[r], s.ring, s.writeopen, s.got)
    ensures r < |Next(s, e).readers| && ReaderInv(Next(s, e).readers[r], Next(s, e).ring, Next(s, e).writeopen, Next(s, e).got)
  {
    hide Full, Empty, Put, Get, Front;
  }

  lemma ReaderStep(s: State, e: Event, r: nat)
    requires Inv(s) && Enabled(s, e) && r < |s.readers|
    ensures r < |Next(s, e).readers| && ReaderInv(Next(s, e).readers[r], Next(s, e).ring, Next(s, e).writeopen, Next(s, e).got)
  {
    hide Full, Empty, Put, Get, Front, RingInv, WritersInv, LockInv, Finish, Enabled, Next, ByReader;
    assert ReaderInv(s.readers[r], s.ring, s.writeopen, s.got);
    if ByReader(e, r) {
      OwnStep(s, e, r);
    } else {
      OtherStep(s, e, r);
    }
  }

  lemma RingStep(s: State, e: Event)
    requires RingInv(s.ring, s.put, s.got) && Enabled(s, e)
    ensures RingInv(Next(s, e).ring, Next(s, e).put, Next(s, e).got)
  {
    hide Full, Empty, Put, Get, Front, RingInv;
    match e
    case WByte(w) => PutKeeps(s.ring, s.put, s.got, w, s.writers[w].addr[s.writers[w].i]);
    case RByte(r) => GetKeeps(s.ring, s.put, s.got);
    case _ =>
  }

  lemma StepInv(s: State, e: Event)
    requires Inv(s) && Enabled(s, e)
    ensures Inv(Next(s, e))
  {
    hide RingInv, LockInv, WritersInv, ReaderInv, Put, Get, Front, Full, Empty;
    RingStep(s, e);
    LockStep(s, e);
    WritersStep(s, e);
    forall r: nat | r < |Next(s, e).readers|
      ensures ReaderInv(Next(s, e).readers[r], Next(s, e).ring, Next(s, e).writeopen, Next(s, e).got)
    {
      ReaderStep(s, e, r);
    }
  }

  // ---- Every run ----

  ghost predicate Leads(s: State, es: seq<Event>, s': State)
    decreases |es|
  {
    if es == [] then s' == s else Enabled(s, es[0]) && Leads(Next(s, es[0]), es[1..], s')
  }

  lemma {:induction false} RunInv(s: State, es: seq<Event>, s': State)
    requires Inv(s) && Leads(s, es, s')
    ensures Inv(s')
    decreases |es|
  {
    hide Inv, Next, Enabled;
    if es != [] {
      StepInv(s, es[0]);
      RunInv(Next(s, es[0]), es[1..], s');
    }
  }

  /** pipealloc. */
  ghost predicate Fresh(s: State) {
    && s.ring.nread == s.ring.nwrite == 0 && s.readopen && s.writeopen && s.lock == None && s.put == [] && s.got == []
    && |s.sent| == |s.writers|
    && (forall w: nat :: w < |s.writers| ==> s.writers[w] == WIdle && s.sent[w] == [])
    && (forall r: nat :: r < |s.readers| ==> s.readers[r] == RIdle)
  }

  /** Whatever the writers and readers do: bytes come out in the order they went in, and at most PIPESIZE wait. */
  lemma EveryRun(s0: State, es: seq<Event>, s: State)
    requires Fresh(s0) && Leads(s0, es, s)
    ensures |s.got| <= |s.put| <= |s.got| + PIPESIZE && s.got == Bytes(s.put)[..|s.got|]
    ensures |s.sent| == |s.writers| && forall w: nat :: w < |s.writers| ==> From(s.put, w) == Written(s.sent[w], s.writers[w])
    ensures (s.ring.nwrite - s.ring.nread) % UINT == |s.put| - |s.got|
  {
    hide Leads, From;
    forall w: nat
      ensures From([], w) == []
    {
      FromNothing(w);
    }
    assert Inv(s0);
    RunInv(s0, es, s);
    Difference(|s.got|, |s.put|);
  }

  lemma FromNothing(w: nat)
    ensures From([], w) == []
  {
  }

  lemma Difference(g: nat, p: nat)
    requires g <= p <= g + PIPESIZE
    ensures (p % UINT - g % UINT) % UINT == p - g
  {
  }

  /** A read of n > 0 bytes returns 0 only at the end of the stream. */
  lemma ZeroMeansEnd(s: State, r: nat)
    requires Inv(s) && Enabled(s, RDone(r)) && s.readers[r].out == [] && s.readers[r].n > 0
    ensures !s.writeopen && |s.got| == |s.put|
  {
    hide From, LockInv, WritersInv;
    assert ReaderInv(s.readers[r], s.ring, s.writeopen, s.got);
    Counters(s.ring, Bytes(s.put), |s.got|);
  }

  /** Each read takes consecutive bytes of the stream. */
  lemma ReadIsSlice(s: State, r: nat)
    requires Inv(s) && r < |s.readers| && s.readers[r].RCopy?
    ensures var out := s.readers[r].out; |out| <= |s.got| <= |s.put| && out == Bytes(s.put)[|s.got| - |out|..|s.got|]
  {
    hide From, LockInv, WritersInv;
    assert ReaderInv(s.readers[r], s.ring, s.writeopen, s.got);
    var out := s.readers[r].out;
    assert Bytes(s.put)[..|s.got|][|s.got| - |out|..] == Bytes(s.put)[|s.got| - |out|..|s.got|];
  }
}
