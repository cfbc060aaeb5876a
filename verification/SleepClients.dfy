/**
 Clients of sleep and wakeup: the sleep lock of sleeplock.c, begin_op and end_op of log.c, and the
 two ends of a pipe.
 */
module SleepClients {
  import opened Common
  import opened SleepWakeup
  import LogDisk
  import Pipe
  import PipeRing

  // ---- sleeplock.c ----

  /** lk->locked and lk->pid; processes name themselves by their slot. */
  datatype Sleeplock = Sleeplock(locked: bool, pid: nat)

  datatype LockOp = Acquire(who: nat) | Release(who: nat)

  function LockReady(v: Sleeplock, op: LockOp): bool
  {
    op.Acquire? ==> !v.locked
  }

  function LockUpdate(v: Sleeplock, op: LockOp): Sleeplock
  {
    match op
    case Acquire(i) => Sleeplock(true, i)
    case Release(_) => Sleeplock(false, 0)
  }

  function LockWakes(v: Sleeplock, op: LockOp): Wakes
  {
    if op.Release? then Holding(0) else Never
  }

  /** A process releases only what it acquired last. */
  function LockMay(last: Option<LockOp>, i: nat, op: LockOp): bool
  {
    match op
    case Acquire(j) => j == i && last != Some(Acquire(i))
    case Release(j) => j == i && last == Some(Acquire(i))
  }

  function LockClient(): Client<Sleeplock, LockOp>
  {
    Client(LockReady, LockUpdate, LockWakes, _ => 0, _ => false, LockMay)
  }

  lemma LockPromise()
    ensures Promise(LockClient())
  {
  }

  /** Process i is between the end of acquiresleep and the store in releasesleep. */
  ghost predicate Holds(s: State<Sleeplock, LockOp>, i: nat) {
    i < |s.last| && s.last[i] == Some(Acquire(i))
  }

  /** The lock names exactly its holder. */
  ghost predicate LockOk(s: State<Sleeplock, LockOp>) {
    && |s.last| == |s.pcs|
    && (s.v.locked ==> s.v.pid < |s.pcs|)
    && forall i: nat :: i < |s.pcs| ==> (Holds(s, i) <==> s.v.locked && s.v.pid == i)
  }

  lemma LockStep(s: State<Sleeplock, LockOp>, e: Event<LockOp>)
    requires LockOk(s) && OpsOk(LockClient(), s) && Enabled(LockClient(), s, e)
    ensures LockOk(Step(LockClient(), s, e))
  {
    var s', i := Step(LockClient(), s, e), e.i;
    assert forall j: nat :: j < |s.pcs| && j != i ==> (Holds(s', j) <==> Holds(s, j));
    if e.Go? && s.pcs[i].HaveLk? && LockReady(s.v, s.pcs[i].op) {
      var op := s.pcs[i].op;
      assert LockClient().may(s.last[i], i, op);
      assert LockMay(s.last[i], i, op);
      assert s'.v == LockUpdate(s.v, op) && s'.last[i] == Some(op);
      assert Holds(s, i) <==> s.v.locked && s.v.pid == i;
    } else {
      assert s'.v == s.v && s'.last == s.last;
      assert Holds(s', i) <==> Holds(s, i);
    }
  }

  lemma {:induction false} LockRun(s: State<Sleeplock, LockOp>, es: seq<Event<LockOp>>)
    requires LockOk(s) && Inv(LockClient(), s) && Legal(LockClient(), s, es)
    ensures LockOk(Exec(LockClient(), s, es))
    decreases |es|
  {
    hide LockOk, Inv, Enabled, Step, LockClient, Promise;
    if es != [] {
      LockPromise();
      InvOps(LockClient(), s);
      LockStep(s, es[0]);
      StepInv(LockClient(), s, es[0]);
      LockRun(Step(LockClient(), s, es[0]), es[1..]);
    }
  }

  lemma InvOps<V(!new), Op(!new)>(c: Client<V, Op>, s: State<V, Op>)
    requires Inv(c, s)
    ensures OpsOk(c, s)
  {
  }

  /** Mutual exclusion, over every run with any number of processes, kills included. */
  lemma MutualExclusion(s0: State<Sleeplock, LockOp>, es: seq<Event<LockOp>>, i: nat, j: nat)
    requires Init(s0) && !s0.v.locked && Legal(LockClient(), s0, es)
    requires Holds(Exec(LockClient(), s0, es), i) && Holds(Exec(LockClient(), s0, es), j)
    ensures i == j
  {
    InitInv(LockClient(), s0);
    LockRun(s0, es);
    RunLength(LockClient(), s0, es);
  }

  lemma {:induction false} RunLength<V(!new), Op(!new)>(c: Client<V, Op>, s: State<V, Op>, es: seq<Event<Op>>)
    requires Legal(c, s, es) && |s.last| == |s.pcs|
    ensures |Exec(c, s, es).pcs| == |s.pcs| == |Exec(c, s, es).last|
    decreases |es|
  {
    if es != [] {
      RunLength(c, Step(c, s, es[0]), es[1..]);
    }
  }

  /** No waiter is stranded on a free lock: if the lock is free and a process sleeps in
      acquiresleep, some process is still in the wakeup that will reach it. */
  lemma NotStranded(s0: State<Sleeplock, LockOp>, es: seq<Event<LockOp>>, p: nat)
    requires Init(s0) && Legal(LockClient(), s0, es)
    requires p < |Exec(LockClient(), s0, es).pcs| && Exec(LockClient(), s0, es).pcs[p].Asleep?
    requires !Exec(LockClient(), s0, es).v.locked
    ensures Covered(Exec(LockClient(), s0, es), p, 0)
  {
    hide Legal, Exec, Init, Covered;
    LockPromise();
    NoLostWakeup(LockClient(), s0, es, p);
  }

  // ---- begin_op and end_op of log.c ----

  /** log.outstanding, log.lh.n, and who runs the commit while log.committing is set. */
  datatype Gate = Gate(outstanding: nat, n: nat, committer: Option<nat>)

  /** LogBlock(k) is the k-th new block that an operation logs; Committed is the end of end_op after its commit, for
      the process that ran one. */
  datatype GateOp = Begin | LogBlock(k: nat) | End(who: nat) | Committed(who: nat)

  function GateReady(v: Gate, op: GateOp): bool
  {
    op.Begin? ==> v.committer.None? && v.n + (v.outstanding + 1) * LogDisk.MAXOPBLOCKS <= LogDisk.LOGSIZE
  }

  function GateUpdate(v: Gate, op: GateOp): Gate
  {
    match op
    case Begin => v.(outstanding := v.outstanding + 1)
    case LogBlock(_) => v.(n := v.n + 1)
    case End(i) => if v.outstanding > 1 then v.(outstanding := v.outstanding - 1) else v.(outstanding := 0, committer := Some(i))
    case Committed(i) => if v.committer == Some(i) then v.(n := 0, committer := None) else v
  }

  /** end_op wakes where it leaves others outstanding, and after its commit. */
  function GateWakes(v: Gate, op: GateOp): Wakes
  {
    match op
    case End(_) => if v.outstanding > 1 then Holding(0) else Never
    case Committed(i) => if v.committer == Some(i) then Holding(0) else Never
    case _ => Never
  }

  /** The blocks that a process inside an operation has logged. */
  function Charge(last: Option<GateOp>): nat
  {
    if last.Some? && last.value.LogBlock? then last.value.k else 0
  }

  /** Between begin_op and end_op. */
  predicate Inside(last: Option<GateOp>) {
    last.Some? && (last.value.Begin? || last.value.LogBlock?)
  }

  /** begin_op, then up to MAXOPBLOCKS new blocks, then end_op. */
  function GateMay(last: Option<GateOp>, i: nat, op: GateOp): bool
  {
    match op
    case Begin => !Inside(last)
    case LogBlock(k) => Inside(last) && k == Charge(last) + 1 <= LogDisk.MAXOPBLOCKS
    case End(j) => j == i && Inside(last)
    case Committed(j) => j == i && last == Some(End(i))
  }

  function GateClient(): Client<Gate, GateOp>
  {
    Client(GateReady, GateUpdate, GateWakes, _ => 0, _ => false, GateMay)
  }

  lemma GatePromise()
    ensures Promise(GateClient())
  {
  }

  /** No operation sleeps in begin_op although it could start, unless a wakeup is on its way. */
  lemma BeginNotStranded(s0: State<Gate, GateOp>, es: seq<Event<GateOp>>, p: nat)
    requires Init(s0) && Legal(GateClient(), s0, es)
    requires p < |Exec(GateClient(), s0, es).pcs| && Exec(GateClient(), s0, es).pcs[p].Asleep?
    requires GateReady(Exec(GateClient(), s0, es).v, Begin)
    ensures Covered(Exec(GateClient(), s0, es), p, 0)
  {
    hide Legal, Exec, Init, Covered;
    GatePromise();
    NoLostWakeup(GateClient(), s0, es, p);
  }

  // ---- The two ends of a pipe ----

  /** The channels &p->nread and &p->nwrite. */
  const NREAD: nat := 0
  const NWRITE: nat := 1

  datatype Ends = Ends(count: nat, readopen: bool, writeopen: bool)

  /** Write(n) is pipewrite between two sleeps, with n bytes to go. */
  datatype PipeOp = Write(n: nat) | Read(n: nat) | CloseRead | CloseWrite

  function PipeReady(v: Ends, op: PipeOp): bool
  {
    match op
    case Write(n) => n == 0 || v.count < PipeRing.PIPESIZE || !v.readopen
    case Read(_) => v.count > 0 || !v.writeopen
    case _ => true
  }

  function PipeUpdate(v: Ends, op: PipeOp): Ends
  {
    match op
    case Write(n) =>
      if v.count + n <= PipeRing.PIPESIZE then v.(count := v.count + n)
      else if v.count < PipeRing.PIPESIZE then v.(count := PipeRing.PIPESIZE)
      else v
    case Read(n) => v.(count := if n <= v.count then v.count - n else 0)
    case CloseRead => v.(readopen := false)
    case CloseWrite => v.(writeopen := false)
  }

  /** A write that gives up because the read end is closed calls no wakeup. */
  function PipeWakes(v: Ends, op: PipeOp): Wakes
  {
    match op
    case Write(n) => if n > 0 && v.count >= PipeRing.PIPESIZE then Never else Holding(NREAD)
    case Read(_) => Holding(NWRITE)
    case CloseRead => Holding(NWRITE)
    case CloseWrite => Holding(NREAD)
  }

  function PipeChan(op: PipeOp): nat
  {
    if op.Write? then NWRITE else NREAD
  }

  /** Both loops test myproc()->killed before they sleep. */
  function PipeQuits(op: PipeOp): bool
  {
    op.Write? || op.Read?
  }

  function PipeMay(last: Option<PipeOp>, i: nat, op: PipeOp): bool
  {
    true
  }

  function PipeClient(): Client<Ends, PipeOp>
  {
    Client(PipeReady, PipeUpdate, PipeWakes, PipeChan, PipeQuits, PipeMay)
  }

  /** The sleep conditions are those of the ring. */
  lemma PipeReadyIs(ring: PipeRing.Ring, put: seq<nat>, got: nat, readopen: bool, writeopen: bool, n: nat)
    requires PipeRing.Holds(ring, put, got)
    ensures var v := Ends(|put| - got, readopen, writeopen);
      && (PipeReady(v, Read(n)) <==> !(PipeRing.Empty(ring) && writeopen))
      && (PipeReady(v, Write(n)) <==> n == 0 || !PipeRing.Full(ring) || !readopen)
  {
    hide PipeRing.Holds;
    PipeRing.Counters(ring, put, got);
    Pipe.Room(ring, put, got);
  }

  /** What the copy loops leave is what the client counts. */
  method PipeWriteIs(p: Pipe.PipeBuffer, addr: seq<nat>, readopen: bool, writeopen: bool)
    requires p.Ok()
    modifies p, p.data
    ensures p.Ok() && p.got <= |p.put| && old(p.got <= |p.put|)
    ensures Ends(|p.put| - p.got, readopen, writeopen) == PipeUpdate(Ends(old(|p.put| - p.got), readopen, writeopen), Write(|addr|))
  {
    Pipe.Room(PipeRing.Ring(p.data[..], p.nread, p.nwrite), p.put, p.got);
    var j := p.WriteSome(addr, 0);
    Pipe.Room(PipeRing.Ring(p.data[..], p.nread, p.nwrite), p.put, p.got);
  }

  method PipeReadIs(p: Pipe.PipeBuffer, n: nat, readopen: bool, writeopen: bool)
    requires p.Ok()
    modifies p
    ensures p.Ok() && p.got <= |p.put| && old(p.got <= |p.put|)
    ensures Ends(|p.put| - p.got, readopen, writeopen) == PipeUpdate(Ends(old(|p.put| - p.got), readopen, writeopen), Read(n))
  {
    Pipe.Room(PipeRing.Ring(p.data[..], p.nread, p.nwrite), p.put, p.got);
    var out := p.ReadSome(n);
  }

  lemma PipePromise()
    ensures Promise(PipeClient())
  {
  }

  /** A reader that sleeps although there are bytes or the write end is closed, and a writer that
      sleeps although there is room or the read end is closed, is about to be woken. */
  lemma PipeNotStranded(s0: State<Ends, PipeOp>, es: seq<Event<PipeOp>>, p: nat)
    requires Init(s0) && Legal(PipeClient(), s0, es)
    ensures var s := Exec(PipeClient(), s0, es);
      p < |s.pcs| && s.pcs[p].Asleep? && PipeReady(s.v, s.pcs[p].op) ==> Covered(s, p, PipeChan(s.pcs[p].op))
  {
    hide Legal, Exec, Init, Covered;
    PipePromise();
    NoLostWakeup(PipeClient(), s0, es, p);
  }

  /** A pipe never comes to rest with a reader and a writer asleep. */
  lemma PipeNeverStuck(s0: State<Ends, PipeOp>, es: seq<Event<PipeOp>>, p: nat, q: nat)
    requires Init(s0) && Legal(PipeClient(), s0, es) && Stuck(PipeClient(), Exec(PipeClient(), s0, es))
    requires var s := Exec(PipeClient(), s0, es); p < |s.pcs| && q < |s.pcs| && s.pcs[p].Asleep? && s.pcs[q].Asleep?
    ensures var s := Exec(PipeClient(), s0, es); !(s.pcs[p].op.Read? && s.pcs[q].op.Write?)
  {
    hide Legal, Exec, Init, Stuck;
    PipePromise();
    NoDeadlock(PipeClient(), s0, es, p);
    NoDeadlock(PipeClient(), s0, es, q);
  }

  /** A killed reader or writer sleeps on only if the kill came between its test and its sleep. */
  lemma PipeKillMissed(s0: State<Ends, PipeOp>, es: seq<Event<PipeOp>>, p: nat)
    requires Init(s0) && Legal(PipeClient(), s0, es) && KilledAsleep(PipeClient(), Exec(PipeClient(), s0, es), p)
    ensures exists k: nat :: k < |es| && Legal(PipeClient(), s0, es[..k]) && KilledBetween(Exec(PipeClient(), s0, es[..k]), es[k..], p)
  {
    hide Legal, Exec, KilledBetween;
    PipePromise();
    InitInv(PipeClient(), s0);
    KillMissed(PipeClient(), s0, es, p);
  }

  /** That does happen: a reader of an empty pipe, killed on its way to sleep, sleeps on. */
  lemma PipeKillMissedRun(s0: State<Ends, PipeOp>) returns (es: seq<Event<PipeOp>>)
    requires Init(s0) && |s0.pcs| >= 1 && s0.v == Ends(0, true, true)
    ensures Legal(PipeClient(), s0, es) && KilledAsleep(PipeClient(), Exec(PipeClient(), s0, es), 0)
    ensures Exec(PipeClient(), s0, es).pcs[0] == Asleep(Read(1))
  {
    var c := PipeClient();
    var s1 := Step(c, s0, Start(0, Read(1)));
    var s2 := Step(c, s1, Go(0));
    var s3 := Step(c, s2, Go(0));
    var s4 := Step(c, s3, Kill(0));
    var s5 := Step(c, s4, Go(0));
    var s6 := Step(c, s5, Go(0));
    var s7 := Step(c, s6, Go(0));
    es := [];
    es := OneMore(c, s6, Go(0), es);
    es := OneMore(c, s5, Go(0), es);
    es := OneMore(c, s4, Go(0), es);
    es := OneMore(c, s3, Kill(0), es);
    es := OneMore(c, s2, Go(0), es);
    es := OneMore(c, s1, Go(0), es);
    es := OneMore(c, s0, Start(0, Read(1)), es);
  }

  lemma OneMore<V(!new), Op(!new)>(c: Client<V, Op>, s: State<V, Op>, e: Event<Op>,
          es: seq<Event<Op>>) returns (es': seq<Event<Op>>)
    requires Enabled(c, s, e) && Legal(c, Step(c, s, e), es)
    ensures Legal(c, s, es') && Exec(c, s, es') == Exec(c, Step(c, s, e), es)
  {
    hide Enabled, Step;
    es' := [e] + es;
    assert es'[1..] == es;
  }
}
