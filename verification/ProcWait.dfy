/**
 wait and exit do not miss each other: a process that sleeps in wait never has a zombie child,
 because exit wakes the parent, and init when it inherits a zombie, before the lock is released.
 */
module ProcWait {
  import opened Common
  import opened ProcTable
  import opened ProcMachine
  import opened ProcInvariant
  import opened ProcSteps
  import opened ProcTree

  /** SLEEPING inside wait. */
  predicate Waiter(p: Proc, t: Thread) {
    p.state == SLEEPING && (t.pc == Leave(Waiting) || t.pc == Came(Waiting))
  }

  /** A waiter sleeps on itself, and none of its children is a zombie or about to be one; nobody is
      its own parent, and init has none. */
  ghost predicate WaitOk(procs: seq<Proc>, threads: seq<Thread>, init: nat, i: nat)
    requires |threads| == |procs| && i < |procs|
  {
    && (Waiter(procs[i], threads[i]) ==> procs[i].chan == OfProc(i))
    && (threads[i].pc == ExitMark ==> Active(procs[i]))
    && procs[i].parent != Some(i) && (i == init ==> procs[i].parent == None)
    && (procs[i].parent.Some? && procs[i].parent.value < |procs| && Waiter(procs[procs[i].parent.value], threads[procs[i].parent.value]) ==>
          procs[i].state != ZOMBIE && threads[i].pc != ExitMark)
  }

  ghost predicate WaitInv(procs: seq<Proc>, threads: seq<Thread>, init: nat) {
    && |threads| == |procs|
    && forall i: nat :: i < |procs| ==> WaitOk(procs, threads, init, i)
  }

  /** A thread at exit's mark is executed by the CPU that holds the lock. */
  lemma MarkHolds(s: State, i: nat)
    requires Inv(s) && WaitInv(s.procs, s.threads, s.init) && i < |s.procs| && s.threads[i].pc == ExitMark
    ensures s.lock.Some? && s.on[i] == s.lock && s.lock.value < |s.cpus| && s.cpus[s.lock.value].phase == InProc(i)
  {
    hide JobsInv, TreeInv, PidsInv;
    assert WaitOk(s.procs, s.threads, s.init, i);
    assert ThreadInv(s.procs[i], s.threads[i], s.on[i], Inside(s.cpus, s.on, i));
    assert CpuInv(s.cpus[s.on[i].value], s.on[i].value, s.lock, s.procs, s.threads, s.on);
  }

  // ---- Steps ----

  /** No process starts to wait or to exit, and none turns into a zombie. */
  ghost predicate Milder(procs: seq<Proc>, threads: seq<Thread>, procs': seq<Proc>, threads': seq<Thread>, init: nat, i: nat)
    requires |threads| == |procs| == |threads'| == |procs'| && i < |procs|
  {
    && (Waiter(procs'[i], threads'[i]) ==> Waiter(procs[i], threads[i]) && procs'[i].chan == procs[i].chan)
    && (threads'[i].pc == ExitMark ==> threads[i].pc == ExitMark && Active(procs'[i]))
    && (procs'[i].state == ZOMBIE ==> procs[i].state == ZOMBIE)
    && (procs'[i].parent == procs[i].parent || procs'[i].parent == None ||
        (procs'[i].state != ZOMBIE && threads'[i].pc != ExitMark && i != init && procs'[i].parent != Some(i)))
  }

  lemma MilderKeeps(procs: seq<Proc>, threads: seq<Thread>, procs': seq<Proc>, threads': seq<Thread>, init: nat)
    requires WaitInv(procs, threads, init) && |threads| == |procs| == |threads'| == |procs'|
    requires forall i: nat :: i < |procs| ==> Milder(procs, threads, procs', threads', init, i)
    ensures WaitInv(procs', threads', init)
  {
    hide Active;
    forall i: nat | i < |procs|
      ensures WaitOk(procs', threads', init, i)
    {
      assert WaitOk(procs, threads, init, i) && Milder(procs, threads, procs', threads', init, i);
      if procs'[i].parent.Some? && procs'[i].parent.value < |procs| {
        assert Milder(procs, threads, procs', threads', init, procs'[i].parent.value);
      }
    }
  }

  lemma SchedWait(s: State, c: nat, st: SchedStep)
    requires Inv(s) && WaitInv(s.procs, s.threads, s.init) && CanSched(s, c, st)
    ensures WaitInv(SchedNext(s, c, st).procs, SchedNext(s, c, st).threads, s.init)
  {
    hide CpusInv, ThreadsInv, JobsInv, TreeInv, PidsInv;
    var s' := SchedNext(s, c, st);
    forall i: nat | i < |s.procs|
      ensures Milder(s.procs, s.threads, s'.procs, s'.threads, s.init, i)
    {
      assert WaitOk(s.procs, s.threads, s.init, i);
    }
    MilderKeeps(s.procs, s.threads, s'.procs, s'.threads, s.init);
  }

  lemma WakeWait(s: State, ch: Chan)
    requires Inv(s) && WaitInv(s.procs, s.threads, s.init)
    ensures WaitInv(Woken(s.procs, ch), s.threads, s.init)
  {
    hide CpusInv, ThreadsInv, JobsInv, TreeInv, PidsInv;
    forall i: nat | i < |s.procs|
      ensures Milder(s.procs, s.threads, Woken(s.procs, ch), s.threads, s.init, i)
    {
      assert WaitOk(s.procs, s.threads, s.init, i);
    }
    MilderKeeps(s.procs, s.threads, Woken(s.procs, ch), s.threads, s.init);
  }

  predicate Mild(th: ThreadStep) {
    !th.Exit? && !th.ExitZombie? && !th.WaitSleep?
  }

  /** Every step of a process but exit's two and the way to sleep in wait. */
  lemma MildSelf(s: State, c: nat, p: nat, th: ThreadStep)
    requires Inv(s) && WaitInv(s.procs, s.threads, s.init) && Executing(s, c, p) && CanThread(s, p, th) && Mild(th)
    ensures var s' := ThreadNext(s, c, p, th);
      |s'.threads| == |s.threads| == |s'.procs| && Milder(s.procs, s.threads, s'.procs, s'.threads, s.init, p)
  {
    hide CpusInv, ThreadsInv, JobsInv, TreeInv, PidsInv, HasZombieChild, HasChild;
    Mine(s, c, p);
    assert WaitOk(s.procs, s.threads, s.init, p);
    if ForkStep(th) {
      FilledSlot(s, c, p, th);
    }
  }

  lemma MildOther(s: State, c: nat, p: nat, th: ThreadStep, i: nat)
    requires Inv(s) && WaitInv(s.procs, s.threads, s.init) && Executing(s, c, p) && CanThread(s, p, th)
    requires Mild(th) && i < |s.procs| && i != p
    ensures var s' := ThreadNext(s, c, p, th);
      |s'.threads| == |s.threads| == |s'.procs| && Milder(s.procs, s.threads, s'.procs, s'.threads, s.init, i)
  {
    hide CpusInv, ThreadsInv, JobsInv, TreeInv, PidsInv, HasZombieChild, HasChild, PcAfter, JobAfter;
    assert WaitOk(s.procs, s.threads, s.init, i);
    if ForkStep(th) {
      FilledSlot(s, c, p, th);
      InitActive(s);
    }
  }

  lemma InitActive(s: State)
    requires Inv(s)
    ensures s.init < |s.procs| && Active(s.procs[s.init])
  {
  }

  lemma MildWait(s: State, c: nat, p: nat, th: ThreadStep)
    requires Inv(s) && WaitInv(s.procs, s.threads, s.init) && Executing(s, c, p) && CanThread(s, p, th) && Mild(th)
    ensures WaitInv(ThreadNext(s, c, p, th).procs, ThreadNext(s, c, p, th).threads, s.init)
  {
    hide Inv, WaitInv, Milder, CanThread, ThreadNext, Mild;
    InvShape(s);
    var s' := ThreadNext(s, c, p, th);
    MildSelf(s, c, p, th);
    forall i: nat | i < |s.procs|
      ensures Milder(s.procs, s.threads, s'.procs, s'.threads, s.init, i)
    {
      if i != p {
        MildOther(s, c, p, th, i);
      }
    }
    MilderKeeps(s.procs, s.threads, s'.procs, s'.threads, s.init);
  }

  /** wait goes to sleep only without a zombie child, and nobody else is in exit, for lack of the lock. */
  lemma SleepWait(s: State, c: nat, p: nat)
    requires Inv(s) && WaitInv(s.procs, s.threads, s.init) && Executing(s, c, p) && CanThread(s, p, WaitSleep)
    ensures WaitInv(ThreadNext(s, c, p, WaitSleep).procs, ThreadNext(s, c, p, WaitSleep).threads, s.init)
  {
    hide CpusInv, ThreadsInv, JobsInv, TreeInv, PidsInv;
    var s' := ThreadNext(s, c, p, WaitSleep);
    Mine(s, c, p);
    forall i: nat | i < |s.procs|
      ensures WaitOk(s'.procs, s'.threads, s.init, i)
    {
      assert WaitOk(s.procs, s.threads, s.init, i);
      if s.threads[i].pc == ExitMark {
        MarkHolds(s, i);
      }
    }
  }

  /** Nobody falls asleep in exit's sweep; whoever sleeps on ch before the sweep's wakeup of ch does not afterwards. */
  lemma SweepWakes(s: State, p: nat, q: nat)
    requires |s.threads| == |s.procs| && p < |s.procs| && CanThread(s, p, Exit) && q < |s.procs|
    ensures var q0, q1 := s.procs[q], ProcsAfter(s, p, Exit)[q];
      && SweptProc(q0, q1, p, s.init) && q1.chan == q0.chan
      && (q1.state == SLEEPING ==> q1.chan != OfProc(s.procs[p].parent.value))
      && (q1.state == SLEEPING && HasZombieChild(s.procs, p, |s.procs|) ==> q1.chan != OfProc(s.init))
  {
    var w := Woken(s.procs, OfProc(s.procs[p].parent.value));
    if HasZombieChild(s.procs, p, |s.procs|) {
      var i :| 0 <= i < |s.procs| && s.procs[i].parent == Some(p) && s.procs[i].state == ZOMBIE;
      assert w[i] == s.procs[i];
    }
  }

  /** exit's sweep wakes the parent, and init if it inherits a zombie. */
  lemma ExitWait(s: State, c: nat, p: nat)
    requires Inv(s) && WaitInv(s.procs, s.threads, s.init) && Executing(s, c, p) && CanThread(s, p, Exit)
    ensures WaitInv(ThreadNext(s, c, p, Exit).procs, ThreadNext(s, c, p, Exit).threads, s.init)
  {
    hide Inv, WaitInv, WaitOk, CanThread, ProcsAfter;
    InvShape(s);
    var s' := ThreadNext(s, c, p, Exit);
    forall i: nat | i < |s.procs|
      ensures WaitOk(s'.procs, s'.threads, s.init, i)
    {
      ExitWaitAt(s, c, p, i);
    }
    AllWaitOk(s'.procs, s'.threads, s.init);
  }

  lemma AllWaitOk(procs: seq<Proc>, threads: seq<Thread>, init: nat)
    requires |threads| == |procs| && forall i: nat :: i < |procs| ==> WaitOk(procs, threads, init, i)
    ensures WaitInv(procs, threads, init)
  {
  }

  lemma ExitWaitAt(s: State, c: nat, p: nat, i: nat)
    requires Inv(s) && WaitInv(s.procs, s.threads, s.init) && Executing(s, c, p) && CanThread(s, p, Exit) && i < |s.procs|
    ensures var s' := ThreadNext(s, c, p, Exit); |s'.procs| == |s'.threads| == |s.procs| && WaitOk(s'.procs, s'.threads, s.init, i)
  {
    hide Inv, ProcsAfter, HasZombieChild;
    InvShape(s);
    Mine(s, c, p);
    assert WaitOk(s.procs, s.threads, s.init, i);
    if s.threads[i].pc == ExitMark {
      MarkHolds(s, i);
    }
    SweepWakes(s, p, i);
    if s.procs[i].parent.Some? && s.procs[i].parent.value < |s.procs| {
      assert WaitOk(s.procs, s.threads, s.init, s.procs[i].parent.value);
      SweepWakes(s, p, s.procs[i].parent.value);
    }
    assert WaitOk(s.procs, s.threads, s.init, s.init);
    SweepWakes(s, p, s.init);
    assert s.procs[i].parent == Some(p) && s.procs[i].state == ZOMBIE ==> HasZombieChild(s.procs, p, |s.procs|) by {
      ZombieChild(s.procs, p, i);
    }
  }

  lemma ZombieChild(procs: seq<Proc>, p: nat, i: nat)
    requires i < |procs|
    ensures procs[i].parent == Some(p) && procs[i].state == ZOMBIE ==> HasZombieChild(procs, p, |procs|)
  {
  }

  lemma ZombieWait(s: State, c: nat, p: nat)
    requires Inv(s) && WaitInv(s.procs, s.threads, s.init) && Executing(s, c, p) && CanThread(s, p, ExitZombie)
    ensures WaitInv(ThreadNext(s, c, p, ExitZombie).procs, ThreadNext(s, c, p, ExitZombie).threads, s.init)
  {
    hide CpusInv, ThreadsInv, JobsInv, TreeInv, PidsInv;
    var s' := ThreadNext(s, c, p, ExitZombie);
    Mine(s, c, p);
    forall i: nat | i < |s.procs|
      ensures WaitOk(s'.procs, s'.threads, s.init, i)
    {
      assert WaitOk(s.procs, s.threads, s.init, i);
    }
  }

  lemma StepWait(s: State, e: Event)
    requires Inv(s) && WaitInv(s.procs, s.threads, s.init) && Enabled(s, e)
    ensures WaitInv(Next(s, e).procs, Next(s, e).threads, s.init)
  {
    hide CpusInv, ThreadsInv, JobsInv, TreeInv, PidsInv, ThreadNext, SchedNext, WaitInv;
    match e
    case Sched(c, st) => SchedWait(s, c, st);
    case Wakeup(ch) => WakeWait(s, ch);
    case InThread(c, th) =>
      var p := s.cpus[c].phase.i;
      if Mild(th) {
        MildWait(s, c, p, th);
      } else if th.Exit? {
        ExitWait(s, c, p);
      } else if th.ExitZombie? {
        ZombieWait(s, c, p);
      } else {
        SleepWait(s, c, p);
      }
  }

  lemma InitStays(s: State, e: Event)
    requires Shape(s) && Enabled(s, e)
    ensures Next(s, e).init == s.init
  {
  }

  lemma {:induction false} RunWait(s: State, es: seq<Event>, s': State)
    requires Inv(s) && WaitInv(s.procs, s.threads, s.init) && Leads(s, es, s')
    ensures Inv(s') && WaitInv(s'.procs, s'.threads, s'.init)
    decreases |es|
  {
    hide Inv, Next, Enabled, WaitInv;
    if es != [] {
      StepInv(s, es[0]);
      StepWait(s, es[0]);
      InitStays(s, es[0]);
      RunWait(Next(s, es[0]), es[1..], s');
    }
  }

  /** In every reachable state: whoever sleeps in wait has no zombie to collect. */
  lemma NoZombieMissed(s0: State, es: seq<Event>, s: State, q: nat, i: nat)
    requires Booted(s0) && Leads(s0, es, s)
    requires q < |s.procs| && q < |s.threads| && Waiter(s.procs[q], s.threads[q]) && i < |s.procs| && s.procs[i].parent == Some(q)
    ensures s.procs[i].state != ZOMBIE
  {
    hide Inv, Leads;
    BootInv(s0);
    assert WaitInv(s0.procs, s0.threads, s0.init);
    RunWait(s0, es, s);
    assert WaitOk(s.procs, s.threads, s.init, i);
  }
}
