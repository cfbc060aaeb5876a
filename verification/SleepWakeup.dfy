/**
 sleep and wakeup of proc.c between any number of processes, one atomic step per lock operation
 and per slot of wakeup1's scan.  A client is a shared value guarded by a spinlock `lk`: its
 operations wait, in a sleep loop on a channel of theirs, until they are ready, then update the
 value and, where the client says so, call wakeup on a channel.
 */
module SleepWakeup {
  import opened Common

  /** When an operation calls wakeup(ch): not at all, before or after it releases lk. */
  datatype Wakes = Never | Holding(ch: nat) | Released(ch: nat)

  /** ready: the loop condition is false; update: what happens under lk; wakes: which wakeup follows;
      chan: where the operation sleeps; quits: a killed process returns instead of sleeping; may: which
      operation a process may start after its last completed one. */
  datatype Client<!V, !Op> = Client(
    ready: (V, Op) -> bool,
    update: (V, Op) -> V,
    wakes: (V, Op) -> Wakes,
    chan: Op -> nat,
    quits: Op -> bool,
    may: (Option<Op>, nat, Op) -> bool)

  datatype Pc<Op> =
    | Idle
    | WantLk(op: Op)            // acquire(lk), at first or again after sleep
    | HaveLk(op: Op)            // tests its condition
    | WantPt(op: Op)            // in sleep, holding lk, before acquire(&ptable.lock)
    | HavePt(op: Op)            // holds both, before release(lk)
    | Dropping(op: Op)          // holds ptable.lock, before it becomes SLEEPING
    | Asleep(op: Op)            // SLEEPING on the channel
    | Runnable(op: Op)
    | Resumed(op: Op)           // back from sched, holding ptable.lock
    | Updated(op: Op, how: Wakes)            // value changed, still holding lk
    | WantScan(op: Op, how: Wakes)           // in wakeup, before acquire(&ptable.lock)
    | Scanning(op: Op, how: Wakes, k: nat)   // in wakeup1 at slot k
    | Leaving(op: Op, how: Wakes)            // wakeup has returned

  /** last is the operation that a process completed most recently. */
  datatype State<V, Op> = State(v: V, lk: Option<nat>, pt: Option<nat>, pcs: seq<Pc<Op>>, last: seq<Option<Op>>, killed: seq<bool>)

  datatype Event<Op> = Start(i: nat, op: Op) | Go(i: nat) | Kill(i: nat)

  ghost predicate Enabled<V, Op(!new)>(c: Client<V, Op>, s: State<V, Op>, e: Event<Op>) {
    && e.i < |s.pcs| == |s.last| == |s.killed|
    && match e
       case Start(i, op) => s.pcs[i].Idle? && c.may(s.last[i], i, op)
       case Kill(i) => s.pt.None?
       case Go(i) =>
         match s.pcs[i]
         case Idle => false
         case Asleep(_) => false
         case WantLk(_) => s.lk.None?
         case WantPt(_) => s.pt.None?
         case Runnable(_) => s.pt.None?
         case WantScan(_, _) => s.pt.None?
         case _ => true
  }

  /** kill sets the flag and turns SLEEPING into RUNNABLE. */
  function Awake<Op>(p: Pc<Op>): Pc<Op>
  {
    if p.Asleep? then Runnable(p.op) else p
  }

  predicate Calls(how: Wakes, ch: nat) {
    !how.Never? && how.ch == ch
  }

  /** The scan of wakeup1(ch) does so for sleepers on ch. */
  ghost function Woken<V, Op(!new)>(c: Client<V, Op>, p: Pc<Op>, how: Wakes): Pc<Op>
  {
    if p.Asleep? && Calls(how, c.chan(p.op)) then Runnable(p.op) else p
  }

  ghost function Step<V, Op(!new)>(c: Client<V, Op>, s: State<V, Op>, e: Event<Op>): State<V, Op>
    requires Enabled(c, s, e)
  {
    match e
    case Start(i, op) => s.(pcs := s.pcs[i := WantLk(op)])
    case Kill(i) => s.(killed := s.killed[i := true], pcs := s.pcs[i := Awake(s.pcs[i])])
    case Go(i) =>
      match s.pcs[i]
      case WantLk(op) => s.(lk := Some(i), pcs := s.pcs[i := HaveLk(op)])
      case HaveLk(op) =>
        if c.ready(s.v, op) then
          s.(v := c.update(s.v, op), last := s.last[i := Some(op)], pcs := s.pcs[i := Updated(op, c.wakes(s.v, op))])
        else if s.killed[i] && c.quits(op) then
          s.(lk := None, pcs := s.pcs[i := Idle])
        else
          s.(pcs := s.pcs[i := WantPt(op)])
      case WantPt(op) => s.(pt := Some(i), pcs := s.pcs[i := HavePt(op)])
      case HavePt(op) => s.(lk := None, pcs := s.pcs[i := Dropping(op)])
      case Dropping(op) => s.(pt := None, pcs := s.pcs[i := Asleep(op)])
      case Runnable(op) => s.(pt := Some(i), pcs := s.pcs[i := Resumed(op)])
      case Resumed(op) => s.(pt := None, pcs := s.pcs[i := WantLk(op)])
      case Updated(op, how) =>
        (match how
         case Never => s.(lk := None, pcs := s.pcs[i := Idle])
         case Holding(_) => s.(pcs := s.pcs[i := WantScan(op, how)])
         case Released(_) => s.(lk := None, pcs := s.pcs[i := WantScan(op, how)]))
      case WantScan(op, how) => s.(pt := Some(i), pcs := s.pcs[i := Scanning(op, how, 0)])
      case Scanning(op, how, k) =>
        if k < |s.pcs| then
          s.(pcs := s.pcs[k := Woken(c, s.pcs[k], how)][i := Scanning(op, how, k + 1)])
        else
          s.(pt := None, pcs := s.pcs[i := Leaving(op, how)])
      case Leaving(op, how) =>
        s.(lk := if how.Holding? then None else s.lk, pcs := s.pcs[i := Idle])
      case _ => s
  }

  // ---- The invariant ----

  ghost predicate HoldsLk<Op>(p: Pc<Op>) {
    match p
    case HaveLk(_) => true
    case WantPt(_) => true
    case HavePt(_) => true
    case Updated(_, _) => true
    case WantScan(_, how) => how.Holding?
    case Scanning(_, how, _) => how.Holding?
    case Leaving(_, how) => how.Holding?
    case _ => false
  }

  ghost predicate HoldsPt<Op>(p: Pc<Op>) {
    p.HavePt? || p.Dropping? || p.Resumed? || p.Scanning?
  }

  ghost predicate LkOk<V, Op>(s: State<V, Op>) {
    && (s.lk.Some? ==> s.lk.value < |s.pcs|)
    && forall i: nat :: i < |s.pcs| ==> (HoldsLk(s.pcs[i]) <==> s.lk == Some(i))
  }

  ghost predicate PtOk<V, Op>(s: State<V, Op>) {
    && (s.pt.Some? ==> s.pt.value < |s.pcs|)
    && forall i: nat :: i < |s.pcs| ==> (HoldsPt(s.pcs[i]) <==> s.pt == Some(i))
  }

  /** Before its update a process works on an operation that it may do. */
  ghost predicate OpsOk<V, Op(!new)>(c: Client<V, Op>, s: State<V, Op>) {
    && |s.last| == |s.pcs| == |s.killed|
    && forall i: nat :: i < |s.pcs| ==>
         match s.pcs[i]
         case Idle => true
         case Updated(op, _) => s.last[i] == Some(op)
         case WantScan(op, how) => !how.Never? && s.last[i] == Some(op)
         case Scanning(op, how, k) => !how.Never? && k <= |s.pcs| && s.last[i] == Some(op)
         case Leaving(op, how) => !how.Never? && s.last[i] == Some(op)
         case p => c.may(s.last[i], i, p.op)
  }

  /** On its way to sleep, or asleep. */
  ghost predicate Sleepy<Op>(p: Pc<Op>) {
    p.WantPt? || p.HavePt? || p.Dropping? || p.Asleep?
  }

  /** Process w has still to pass slot p in a wakeup of ch. */
  ghost predicate WillWake<Op>(w: Pc<Op>, p: nat, ch: nat) {
    (w.Updated? || w.WantScan? || (w.Scanning? && w.k <= p)) && Calls(w.how, ch)
  }

  ghost predicate Covered<V, Op>(s: State<V, Op>, p: nat, ch: nat) {
    exists w: nat :: w < |s.pcs| && WillWake(s.pcs[w], p, ch)
  }

  /** Nobody sleeps with a true condition unless a waker is on its way to them. */
  ghost predicate NoneLost<V, Op(!new)>(c: Client<V, Op>, s: State<V, Op>) {
    && (forall p: nat :: p < |s.pcs| && Sleepy(s.pcs[p]) && c.ready(s.v, s.pcs[p].op) ==> Covered(s, p, c.chan(s.pcs[p].op)))
    && (forall p: nat :: p < |s.pcs| && (s.pcs[p].WantPt? || s.pcs[p].HavePt?) ==> !c.ready(s.v, s.pcs[p].op))
  }

  ghost predicate Inv<V, Op(!new)>(c: Client<V, Op>, s: State<V, Op>) {
    LkOk(s) && PtOk(s) && OpsOk(c, s) && NoneLost(c, s)
  }

  /** The client's promise: an operation that makes a waiting condition true calls wakeup on the waiter's channel. */
  ghost predicate Promise<V(!new), Op(!new)>(c: Client<V, Op>) {
    forall v, op, o :: c.ready(v, op) && !c.ready(v, o) && c.ready(c.update(v, op), o) ==> Calls(c.wakes(v, op), c.chan(o))
  }

  lemma LkStep<V(!new), Op(!new)>(c: Client<V, Op>, s: State<V, Op>, e: Event<Op>)
    requires LkOk(s) && Enabled(c, s, e)
    ensures LkOk(Step(c, s, e))
  {
  }

  lemma PtStep<V(!new), Op(!new)>(c: Client<V, Op>, s: State<V, Op>, e: Event<Op>)
    requires PtOk(s) && Enabled(c, s, e)
    ensures PtOk(Step(c, s, e))
  {
  }

  lemma OpsStep<V(!new), Op(!new)>(c: Client<V, Op>, s: State<V, Op>, e: Event<Op>)
    requires OpsOk(c, s) && Enabled(c, s, e)
    ensures OpsOk(c, Step(c, s, e))
  {
  }

  lemma NoneLostGo<V(!new), Op(!new)>(c: Client<V, Op>, s: State<V, Op>, i: nat)
    requires Inv(c, s) && Promise(c) && Enabled(c, s, Go(i))
    ensures NoneLost(c, Step(c, s, Go(i)))
  {
    var s' := Step(c, s, Go(i));
    match s.pcs[i] {
      case HaveLk(op) =>
        if c.ready(s.v, op) {
          UpdateStep(c, s, i);
        } else {
          KeepsWakers(c, s, i);
        }
      case Scanning(_, _, _) =>
        ScanStep(c, s, i);
      case _ =>
        KeepsWakers(c, s, i);
    }
  }

  /** The value changes under lk: sleepers whose condition became true are covered by the updater. */
  lemma UpdateStep<V(!new), Op(!new)>(c: Client<V, Op>, s: State<V, Op>, i: nat)
    requires Inv(c, s) && Promise(c) && Enabled(c, s, Go(i)) && s.pcs[i].HaveLk? && c.ready(s.v, s.pcs[i].op)
    ensures NoneLost(c, Step(c, s, Go(i)))
  {
    hide OpsOk, PtOk;
    var s', op := Step(c, s, Go(i)), s.pcs[i].op;
    assert HoldsLk(s.pcs[i]);
    forall p: nat | p < |s'.pcs| && Sleepy(s'.pcs[p]) && c.ready(s'.v, s'.pcs[p].op)
      ensures Covered(s', p, c.chan(s'.pcs[p].op))
    {
      var ch := c.chan(s.pcs[p].op);
      if c.ready(s.v, s.pcs[p].op) {
        var w: nat :| w < |s.pcs| && WillWake(s.pcs[w], p, ch);
        assert WillWake(s'.pcs[w], p, ch);
      } else {
        assert WillWake(s'.pcs[i], p, ch);
      }
    }
    assert forall p: nat :: p < |s.pcs| && HoldsLk(s.pcs[p]) ==> p == i;
  }

  /** wakeup1 passes slot k: whoever sleeps there runs. */
  lemma ScanStep<V(!new), Op(!new)>(c: Client<V, Op>, s: State<V, Op>, i: nat)
    requires Inv(c, s) && Enabled(c, s, Go(i)) && s.pcs[i].Scanning?
    ensures NoneLost(c, Step(c, s, Go(i)))
  {
    hide LkOk;
    var s', k := Step(c, s, Go(i)), s.pcs[i].k;
    assert HoldsPt(s.pcs[i]);
    forall p: nat | p < |s.pcs| && Sleepy(s'.pcs[p]) && c.ready(s.v, s'.pcs[p].op)
      ensures Covered(s', p, c.chan(s'.pcs[p].op))
    {
      assert s.pcs[p] == s'.pcs[p];
      assert HoldsPt(s.pcs[p]) ==> p == i;
      var ch := c.chan(s.pcs[p].op);
      var w: nat :| w < |s.pcs| && WillWake(s.pcs[w], p, ch);
      assert WillWake(s'.pcs[w], p, ch);
    }
  }

  lemma KeepsWakers<V(!new), Op(!new)>(c: Client<V, Op>, s: State<V, Op>, i: nat)
    requires Inv(c, s) && Enabled(c, s, Go(i)) && !s.pcs[i].Scanning?
    requires s.pcs[i].HaveLk? ==> !c.ready(s.v, s.pcs[i].op)
    ensures NoneLost(c, Step(c, s, Go(i)))
  {
    hide LkOk, PtOk;
    var s' := Step(c, s, Go(i));
    forall p: nat, ch: nat | p < |s.pcs| && Covered(s, p, ch)
      ensures Covered(s', p, ch)
    {
      var w: nat :| w < |s.pcs| && WillWake(s.pcs[w], p, ch);
      assert WillWake(s'.pcs[w], p, ch);
    }
  }

  lemma StepInv<V(!new), Op(!new)>(c: Client<V, Op>, s: State<V, Op>, e: Event<Op>)
    requires Inv(c, s) && Promise(c) && Enabled(c, s, e)
    ensures Inv(c, Step(c, s, e))
  {
    hide LkOk, PtOk, OpsOk, Promise;
    LkStep(c, s, e);
    PtStep(c, s, e);
    OpsStep(c, s, e);
    match e
    case Go(i) => NoneLostGo(c, s, i);
    case Start(i, _) => OthersKeep(c, s, e);
    case Kill(i) => OthersKeep(c, s, e);
  }

  lemma OthersKeep<V(!new), Op(!new)>(c: Client<V, Op>, s: State<V, Op>, e: Event<Op>)
    requires NoneLost(c, s) && Enabled(c, s, e) && !e.Go?
    ensures NoneLost(c, Step(c, s, e))
  {
    var s' := Step(c, s, e);
    forall p: nat, ch: nat | p < |s.pcs| && Covered(s, p, ch)
      ensures Covered(s', p, ch)
    {
      var w: nat :| w < |s.pcs| && WillWake(s.pcs[w], p, ch);
      assert WillWake(s'.pcs[w], p, ch);
    }
  }

  // ---- Whole runs ----

  /** n processes, nobody has done anything. */
  ghost predicate Init<V, Op>(s: State<V, Op>) {
    && s.lk.None? && s.pt.None? && |s.last| == |s.pcs| == |s.killed|
    && forall i :: 0 <= i < |s.pcs| ==> s.pcs[i].Idle? && s.last[i].None? && !s.killed[i]
  }

  ghost predicate Legal<V, Op(!new)>(c: Client<V, Op>, s: State<V, Op>, es: seq<Event<Op>>)
    decreases |es|
  {
    es == [] || (Enabled(c, s, es[0]) && Legal(c, Step(c, s, es[0]), es[1..]))
  }

  ghost function Exec<V, Op(!new)>(c: Client<V, Op>, s: State<V, Op>, es: seq<Event<Op>>): State<V, Op>
    requires Legal(c, s, es)
    decreases |es|
  {
    if es == [] then s else Exec(c, Step(c, s, es[0]), es[1..])
  }

  lemma {:induction false} RunInv<V(!new), Op(!new)>(c: Client<V, Op>, s: State<V, Op>, es: seq<Event<Op>>)
    requires Inv(c, s) && Promise(c) && Legal(c, s, es)
    ensures Inv(c, Exec(c, s, es))
    decreases |es|
  {
    hide Inv, Promise, Step, Enabled;
    if es != [] {
      StepInv(c, s, es[0]);
      RunInv(c, Step(c, s, es[0]), es[1..]);
    }
  }

  lemma InitInv<V(!new), Op(!new)>(c: Client<V, Op>, s: State<V, Op>)
    requires Init(s)
    ensures Inv(c, s)
  {
  }

  /** No lost wakeup, for any number of processes and any run: a process that sleeps although its
      condition holds is still ahead of a waker. */
  lemma NoLostWakeup<V(!new), Op(!new)>(c: Client<V, Op>, s0: State<V, Op>, es: seq<Event<Op>>, p: nat)
    requires Init(s0) && Promise(c) && Legal(c, s0, es)
    ensures var s := Exec(c, s0, es);
      p < |s.pcs| && s.pcs[p].Asleep? && c.ready(s.v, s.pcs[p].op) ==> Covered(s, p, c.chan(s.pcs[p].op))
  {
    InitInv(c, s0);
    RunInv(c, s0, es);
  }

  /** An operation returns only when it is done, or early if it may and the process is killed. */
  lemma ReturnsDone<V(!new), Op(!new)>(c: Client<V, Op>, s: State<V, Op>, e: Event<Op>, i: nat)
    requires OpsOk(c, s) && Enabled(c, s, e) && i < |s.pcs| && !s.pcs[i].Idle? && Step(c, s, e).pcs[i].Idle?
    ensures s.last[i] == Some(s.pcs[i].op) || (s.pcs[i].HaveLk? && !c.ready(s.v, s.pcs[i].op) && s.killed[i] && c.quits(s.pcs[i].op))
  {
  }

  // ---- Killed sleepers ----

  /** p is killed, yet asleep or about to be, in an operation that tests for it. */
  ghost predicate KilledAsleep<V, Op(!new)>(c: Client<V, Op>, s: State<V, Op>, p: nat) {
    p < |s.pcs| == |s.killed| && s.killed[p] && Sleepy(s.pcs[p]) && c.quits(s.pcs[p].op)
  }

  /** The next event kills p after its test, before sleep has acquired ptable.lock. */
  ghost predicate KilledBetween<V, Op>(s: State<V, Op>, es: seq<Event<Op>>, p: nat) {
    es != [] && es[0] == Kill(p) && p < |s.pcs| && s.pcs[p].WantPt?
  }

  lemma KillStep<V(!new), Op(!new)>(c: Client<V, Op>, s: State<V, Op>, e: Event<Op>, p: nat)
    requires PtOk(s) && Enabled(c, s, e) && !KilledAsleep(c, s, p)
    ensures KilledAsleep(c, Step(c, s, e), p) <==> KilledBetween(s, [e], p) && c.quits(s.pcs[p].op)
  {
    hide Calls;
  }

  /** A process that sleeps although it was killed was killed in that window, in every run. */
  lemma {:induction false} KillMissed<V(!new), Op(!new)>(c: Client<V, Op>, s: State<V, Op>, es: seq<Event<Op>>, p: nat)
    requires Inv(c, s) && Promise(c) && Legal(c, s, es) && KilledAsleep(c, Exec(c, s, es), p) && !KilledAsleep(c, s, p)
    ensures exists k: nat :: k < |es| && Legal(c, s, es[..k]) && KilledBetween(Exec(c, s, es[..k]), es[k..], p)
    decreases |es|
  {
    hide Inv, Promise, Step, Enabled, KilledAsleep, KilledBetween;
    if es != [] {
      var s1 := Step(c, s, es[0]);
      StepInv(c, s, es[0]);
      if KilledAsleep(c, s1, p) {
        InvPt(c, s);
        KillStep(c, s, es[0], p);
        Between(s, es, p);
        assert es[..0] == [] && es[0..] == es;
        assert Legal(c, s, es[..0]) && KilledBetween(Exec(c, s, es[..0]), es[0..], p);
      } else {
        KillMissed(c, s1, es[1..], p);
        var k: nat :| k < |es[1..]| && Legal(c, s1, es[1..][..k]) && KilledBetween(Exec(c, s1, es[1..][..k]), es[1..][k..], p);
        assert es[..k + 1][1..] == es[1..][..k] && es[1..][k..] == es[k + 1..];
        assert Legal(c, s, es[..k + 1]) && KilledBetween(Exec(c, s, es[..k + 1]), es[k + 1..], p);
      }
    }
  }

  lemma InvPt<V(!new), Op(!new)>(c: Client<V, Op>, s: State<V, Op>)
    requires Inv(c, s)
    ensures PtOk(s)
  {
  }

  lemma Between<V, Op>(s: State<V, Op>, es: seq<Event<Op>>, p: nat)
    requires es != [] && KilledBetween(s, [es[0]], p)
    ensures KilledBetween(s, es, p)
  {
  }

  /** Nothing can go on except a new operation or a kill. */
  ghost predicate Stuck<V, Op(!new)>(c: Client<V, Op>, s: State<V, Op>) {
    forall i: nat :: !Enabled(c, s, Go(i))
  }

  /** The two locks never deadlock: a run stops only when every process is idle or sleeps on a
      condition that is false. */
  lemma NoDeadlock<V(!new), Op(!new)>(c: Client<V, Op>, s0: State<V, Op>, es: seq<Event<Op>>, p: nat)
    requires Init(s0) && Promise(c) && Legal(c, s0, es) && Stuck(c, Exec(c, s0, es))
    ensures var s := Exec(c, s0, es);
      p < |s.pcs| ==> s.pcs[p].Idle? || (s.pcs[p].Asleep? && !c.ready(s.v, s.pcs[p].op))
  {
    hide Promise, Legal, Exec, Init;
    InitInv(c, s0);
    RunInv(c, s0, es);
    StuckMeansQuiet(c, Exec(c, s0, es));
  }

  lemma StuckMeansQuiet<V(!new), Op(!new)>(c: Client<V, Op>, s: State<V, Op>)
    requires Inv(c, s) && Stuck(c, s)
    ensures forall p: nat :: p < |s.pcs| ==> s.pcs[p].Idle? || (s.pcs[p].Asleep? && !c.ready(s.v, s.pcs[p].op))
  {
    assert s.pt.Some? ==> HoldsPt(s.pcs[s.pt.value]) && Enabled(c, s, Go(s.pt.value));
    forall i: nat | i < |s.pcs|
      ensures s.pcs[i].Idle? || s.pcs[i].Asleep? || (s.pcs[i].WantLk? && s.lk.Some?)
    {
      assert !Enabled(c, s, Go(i));
    }
    assert s.lk.Some? ==> HoldsLk(s.pcs[s.lk.value]);
  }
}
