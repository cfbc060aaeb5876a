/** fork, exit and wait keep the invariant, and what follows for the process tree. */
module ProcTree {
  import opened Common
  import opened ProcTable
  import opened ProcMachine
  import opened ProcInvariant
  import opened ProcSteps

  // ---- fork ----

  predicate ForkStep(th: ThreadStep) {
    th.Alloc? || th.GotStack? || th.GiveUp? || th.SetParent? || th.ForkDone?
  }

  /** The slot that fork fills. */
  function Filled(s: State, p: nat, th: ThreadStep): (k: nat)
    requires |s.threads| == |s.procs| && p < |s.procs| && CanThread(s, p, th) && ForkStep(th)
    ensures k < |s.procs|
  {
    if th.Alloc? then th.i else s.threads[p].job.np
  }

  /** That slot is nobody else's business: no CPU has it, and its contents are as its maker left them. */
  lemma FilledSlot(s: State, c: nat, p: nat, th: ThreadStep)
    requires Inv(s) && Executing(s, c, p) && CanThread(s, p, th) && ForkStep(th)
    ensures var k := Filled(s, p, th);
      && k != p && s.on[k] == None && s.procs[p].state == RUNNING && s.threads[p].pc == Run && s.threads[k].job == Nothing
      && (th.Alloc? ==> s.procs[k].state == UNUSED && s.procs[k].parent == None && !s.procs[k].hasStack)
      && (!th.Alloc? ==> s.procs[k].state == EMBRYO && s.maker[k] == p && s.procs[k].hasStack == !s.threads[p].job.NoStack?)
      && (!th.Alloc? ==> s.procs[k].parent == if s.threads[p].job.Ready? then Some(p) else None)
  {
    hide CpusInv, TreeInv, PidsInv;
    var k := Filled(s, p, th);
    Mine(s, c, p);
    assert JobInv(s.procs, s.threads, s.maker, p) && JobInv(s.procs, s.threads, s.maker, k) && SlotInv(s.procs, s.threads, s.maker, k);
    assert ThreadInv(s.procs[k], s.threads[k], s.on[k], Inside(s.cpus, s.on, k));
  }

  /** What the step does to the table and the threads. */
  lemma ForkEffect(s: State, c: nat, p: nat, th: ThreadStep)
    requires Inv(s) && Executing(s, c, p) && CanThread(s, p, th) && ForkStep(th)
    ensures var k, s' := Filled(s, p, th), ThreadNext(s, c, p, th);
      && |s'.procs| == |s.procs| && s'.procs == s.procs[k := s'.procs[k]]
      && |s'.threads| == |s.threads| && s'.threads[p] == Thread(Run, JobAfter(s.threads[p], th))
      && (forall j: nat :: j < |s.threads| && j != p && j != k ==> s'.threads[j] == s.threads[j])
      && s'.threads[k] == (if th.ForkDone? then Thread(Came(Yielding), Nothing) else s.threads[k])
      && s'.lock == s.lock && s'.cpus == s.cpus && s'.on == s.on && s'.init == s.init && s'.reaped == s.reaped
  {
    hide Inv;
    InvShape(s);
    FilledSlot(s, c, p, th);
  }

  lemma ForkCpus(s: State, c: nat, p: nat, th: ThreadStep)
    requires Inv(s) && Executing(s, c, p) && CanThread(s, p, th) && ForkStep(th)
    ensures Shape(ThreadNext(s, c, p, th)) && CpusInv(ThreadNext(s, c, p, th)) && ThreadsInv(ThreadNext(s, c, p, th))
  {
    hide Inv, CpusInv, ThreadsInv, CanThread, ProcsAfter, JobAfter, PcAfter, Drops;
    InvShape(s);
    var k, s' := Filled(s, p, th), ThreadNext(s, c, p, th);
    FilledSlot(s, c, p, th);
    ForkEffect(s, c, p, th);
    Mine(s, c, p);
    ForkStates(s, p, c, th);
    CpusStay(s, s', c, p);
    ThreadsStay(s, s', c, p);
  }

  lemma ForkStates(s: State, p: nat, c: nat, th: ThreadStep)
    requires Shape(s) && c < |s.cpus| && p < |s.procs| && CanThread(s, p, th) && ForkStep(th)
    ensures ThreadNext(s, c, p, th).procs[Filled(s, p, th)].state == if th.ForkDone? then RUNNABLE else if th.GiveUp? then UNUSED else if th.Alloc? then EMBRYO else s.procs[Filled(s, p, th)].state
  {
  }

  lemma ForkJobs(s: State, c: nat, p: nat, th: ThreadStep)
    requires Inv(s) && Executing(s, c, p) && CanThread(s, p, th) && ForkStep(th)
    ensures var s' := ThreadNext(s, c, p, th); JobsInv(s'.procs, s'.threads, s'.maker)
  {
    hide CpusInv, ThreadsInv, TreeInv, PidsInv, PcAfter;
    var k, s' := Filled(s, p, th), ThreadNext(s, c, p, th);
    FilledSlot(s, c, p, th);
    ForkEffect(s, c, p, th);
    forall i: nat | i < |s.procs|
      ensures JobInv(s'.procs, s'.threads, s'.maker, i) && SlotInv(s'.procs, s'.threads, s'.maker, i)
    {
      assert JobInv(s.procs, s.threads, s.maker, i) && SlotInv(s.procs, s.threads, s.maker, i);
    }
  }

  lemma ForkTree(s: State, c: nat, p: nat, th: ThreadStep)
    requires Inv(s) && Executing(s, c, p) && CanThread(s, p, th) && ForkStep(th)
    ensures var s' := ThreadNext(s, c, p, th); TreeInv(s'.procs, s'.threads, s'.init)
  {
    hide CpusInv, ThreadsInv, JobsInv, PidsInv, PcAfter, JobAfter;
    var k, s' := Filled(s, p, th), ThreadNext(s, c, p, th);
    FilledSlot(s, c, p, th);
    ForkEffect(s, c, p, th);
    forall i: nat | i < |s.procs|
      ensures ParentInv(s'.procs, s'.threads, s'.init, i)
    {
      assert ParentInv(s.procs, s.threads, s.init, i);
    }
  }

  lemma ForkPids(s: State, c: nat, p: nat, th: ThreadStep)
    requires Inv(s) && Executing(s, c, p) && CanThread(s, p, th) && ForkStep(th)
    ensures var s' := ThreadNext(s, c, p, th); PidsInv(s'.procs, s'.nextpid, s'.reaped)
  {
    hide CpusInv, ThreadsInv, JobsInv, TreeInv, PcAfter, JobAfter;
    FilledSlot(s, c, p, th);
  }

  lemma ForkKeeps(s: State, c: nat, p: nat, th: ThreadStep)
    requires Inv(s) && Executing(s, c, p) && CanThread(s, p, th) && ForkStep(th)
    ensures Inv(ThreadNext(s, c, p, th))
  {
    hide CpusInv, ThreadsInv, JobsInv, TreeInv, PidsInv, CanThread, PcAfter, JobAfter, ProcsAfter;
    ForkCpus(s, c, p, th);
    ForkJobs(s, c, p, th);
    ForkTree(s, c, p, th);
    ForkPids(s, c, p, th);
  }

  // ---- exit ----

  /** exit's sweep: parents p become init, sleepers may wake. */
  ghost predicate Swept(procs: seq<Proc>, procs': seq<Proc>, p: nat, init: nat) {
    && |procs'| == |procs|
    && forall i: nat :: i < |procs| ==> SweptProc(procs[i], procs'[i], p, init)
  }

  predicate SweptProc(q: Proc, q': Proc, p: nat, init: nat) {
    && q'.pid == q.pid && q'.hasStack == q.hasStack
    && q'.parent == (if q.parent == Some(p) then Some(init) else q.parent)
    && (q'.state == q.state || (q.state == SLEEPING && q'.state == RUNNABLE))
  }

  lemma ExitSweeps(s: State, p: nat)
    requires |s.threads| == |s.procs| && p < |s.procs| && CanThread(s, p, Exit)
    ensures Swept(s.procs, ProcsAfter(s, p, Exit), p, s.init)
  {
  }

  lemma ExitCpus(s: State, c: nat, p: nat)
    requires Inv(s) && Executing(s, c, p) && CanThread(s, p, Exit)
    ensures var s' := ThreadNext(s, c, p, Exit); Shape(s') && CpusInv(s') && ThreadsInv(s')
  {
    hide Inv, CpusInv, ThreadsInv, ProcsAfter;
    InvShape(s);
    var s' := ThreadNext(s, c, p, Exit);
    ExitSweeps(s, p);
    Mine(s, c, p);
    forall i: nat | i < |s.procs| && s.on[i].Some?
      ensures s.procs[i].state == RUNNING
    {
      QuietSlot(s, i);
    }
    CpusStay(s, s', c, p);
    ThreadsStay(s, s', c, p);
  }

  lemma ExitJobs(s: State, c: nat, p: nat)
    requires Inv(s) && Executing(s, c, p) && CanThread(s, p, Exit)
    ensures var s' := ThreadNext(s, c, p, Exit); JobsInv(s'.procs, s'.threads, s'.maker)
  {
    hide CpusInv, ThreadsInv, TreeInv, PidsInv, ProcsAfter;
    var s' := ThreadNext(s, c, p, Exit);
    ExitSweeps(s, p);
    forall i: nat | i < |s.procs|
      ensures JobInv(s'.procs, s'.threads, s'.maker, i) && SlotInv(s'.procs, s'.threads, s'.maker, i)
    {
      assert JobInv(s.procs, s.threads, s.maker, i) && SlotInv(s.procs, s.threads, s.maker, i);
    }
  }

  lemma ExitTree(s: State, c: nat, p: nat)
    requires Inv(s) && Executing(s, c, p) && CanThread(s, p, Exit)
    ensures var s' := ThreadNext(s, c, p, Exit); TreeInv(s'.procs, s'.threads, s'.init) && PidsInv(s'.procs, s'.nextpid, s'.reaped)
  {
    hide CpusInv, ThreadsInv, JobsInv, ProcsAfter;
    var s' := ThreadNext(s, c, p, Exit);
    ExitSweeps(s, p);
    forall i: nat | i < |s.procs|
      ensures ParentInv(s'.procs, s'.threads, s'.init, i)
    {
      assert ParentInv(s.procs, s.threads, s.init, i);
    }
  }

  lemma ExitKeeps(s: State, c: nat, p: nat)
    requires Inv(s) && Executing(s, c, p) && CanThread(s, p, Exit)
    ensures Inv(ThreadNext(s, c, p, Exit))
  {
    hide CpusInv, ThreadsInv, JobsInv, TreeInv, PidsInv, CanThread, ProcsAfter;
    ExitCpus(s, c, p);
    ExitJobs(s, c, p);
    ExitTree(s, c, p);
  }

  lemma ZombieKeeps(s: State, c: nat, p: nat)
    requires Inv(s) && Executing(s, c, p) && CanThread(s, p, ExitZombie)
    ensures Inv(ThreadNext(s, c, p, ExitZombie))
  {
    ZombieCpus(s, c, p);
    ZombieRest(s, c, p);
    hide CpusInv, ThreadsInv, JobsInv, TreeInv, PidsInv;
  }

  lemma ZombieCpus(s: State, c: nat, p: nat)
    requires Inv(s) && Executing(s, c, p) && CanThread(s, p, ExitZombie)
    ensures var s' := ThreadNext(s, c, p, ExitZombie); Shape(s') && CpusInv(s') && ThreadsInv(s')
  {
    hide Inv, CpusInv, ThreadsInv;
    InvShape(s);
    var s' := ThreadNext(s, c, p, ExitZombie);
    Mine(s, c, p);
    CpusStay(s, s', c, p);
    ThreadsStay(s, s', c, p);
  }

  lemma ZombieRest(s: State, c: nat, p: nat)
    requires Inv(s) && Executing(s, c, p) && CanThread(s, p, ExitZombie)
    ensures var s' := ThreadNext(s, c, p, ExitZombie);
      JobsInv(s'.procs, s'.threads, s'.maker) && TreeInv(s'.procs, s'.threads, s'.init) && PidsInv(s'.procs, s'.nextpid, s'.reaped)
  {
    hide CpusInv, ThreadsInv;
    var s' := ThreadNext(s, c, p, ExitZombie);
    Mine(s, c, p);
    assert JobInv(s.procs, s.threads, s.maker, p) && SlotInv(s.procs, s.threads, s.maker, p);
    forall i: nat | i < |s.procs|
      ensures JobInv(s'.procs, s'.threads, s'.maker, i) && SlotInv(s'.procs, s'.threads, s'.maker, i)
      ensures ParentInv(s'.procs, s'.threads, s'.init, i)
    {
      assert JobInv(s.procs, s.threads, s.maker, i) && SlotInv(s.procs, s.threads, s.maker, i);
      assert ParentInv(s.procs, s.threads, s.init, i);
    }
  }

  // ---- wait ----

  /** wait frees a stack and a page table that no CPU uses. */
  lemma ReapSafe(s: State, c: nat, p: nat, i: nat, d: nat)
    requires Inv(s) && Executing(s, c, p) && CanThread(s, p, WaitReap(i)) && d < |s.cpus|
    ensures i != p && s.on[i] == None && s.cpus[d].proc != Some(i) && s.cpus[d].pgdir != Some(i) && s.cpus[d].stack != Some(i)
  {
    hide JobsInv, TreeInv, PidsInv, ThreadsInv;
    Mine(s, c, p);
    assert CpuInv(s.cpus[c], c, s.lock, s.procs, s.threads, s.on);
    assert CpuInv(s.cpus[d], d, s.lock, s.procs, s.threads, s.on);
  }

  lemma ReapCpus(s: State, c: nat, p: nat, i: nat)
    requires Inv(s) && Executing(s, c, p) && CanThread(s, p, WaitReap(i))
    ensures var s' := ThreadNext(s, c, p, WaitReap(i)); Shape(s') && CpusInv(s') && ThreadsInv(s')
  {
    hide Inv, CpusInv, ThreadsInv, HasZombieChild;
    InvShape(s);
    ReapSafe(s, c, p, i, c);
    Mine(s, c, p);
    var s' := ThreadNext(s, c, p, WaitReap(i));
    CpusStay(s, s', c, p);
    ThreadsStay(s, s', c, p);
  }

  lemma ReapJobs(s: State, c: nat, p: nat, i: nat)
    requires Inv(s) && Executing(s, c, p) && CanThread(s, p, WaitReap(i))
    ensures var s' := ThreadNext(s, c, p, WaitReap(i)); JobsInv(s'.procs, s'.threads, s'.maker)
  {
    hide CpusInv, ThreadsInv, TreeInv, PidsInv, HasZombieChild;
    ReapSafe(s, c, p, i, c);
    var s' := ThreadNext(s, c, p, WaitReap(i));
    assert JobInv(s.procs, s.threads, s.maker, i) && JobInv(s.procs, s.threads, s.maker, p);
    forall k: nat | k < |s.procs|
      ensures JobInv(s'.procs, s'.threads, s'.maker, k) && SlotInv(s'.procs, s'.threads, s'.maker, k)
    {
      assert JobInv(s.procs, s.threads, s.maker, k) && SlotInv(s.procs, s.threads, s.maker, k);
    }
  }

  lemma ReapTree(s: State, c: nat, p: nat, i: nat)
    requires Inv(s) && Executing(s, c, p) && CanThread(s, p, WaitReap(i))
    ensures var s' := ThreadNext(s, c, p, WaitReap(i)); TreeInv(s'.procs, s'.threads, s'.init)
  {
    hide CpusInv, ThreadsInv, JobsInv, PidsInv, HasZombieChild;
    ReapSafe(s, c, p, i, c);
    var s' := ThreadNext(s, c, p, WaitReap(i));
    forall k: nat | k < |s.procs|
      ensures ParentInv(s'.procs, s'.threads, s'.init, k)
    {
      assert ParentInv(s.procs, s.threads, s.init, k);
    }
  }

  lemma ReapPids(s: State, c: nat, p: nat, i: nat)
    requires Inv(s) && Executing(s, c, p) && CanThread(s, p, WaitReap(i))
    ensures var s' := ThreadNext(s, c, p, WaitReap(i)); PidsInv(s'.procs, s'.nextpid, s'.reaped)
  {
    hide CpusInv, ThreadsInv, JobsInv, TreeInv, HasZombieChild, PcAfter;
  }

  lemma ReapKeeps(s: State, c: nat, p: nat, i: nat)
    requires Inv(s) && Executing(s, c, p) && CanThread(s, p, WaitReap(i))
    ensures Inv(ThreadNext(s, c, p, WaitReap(i)))
  {
    hide CpusInv, ThreadsInv, JobsInv, TreeInv, PidsInv, CanThread, ProcsAfter;
    ReapCpus(s, c, p, i);
    ReapJobs(s, c, p, i);
    ReapTree(s, c, p, i);
    ReapPids(s, c, p, i);
  }

  // ---- Every run ----

  lemma StepInv(s: State, e: Event)
    requires Inv(s) && Enabled(s, e)
    ensures Inv(Next(s, e))
  {
    hide CpusInv, ThreadsInv, JobsInv, TreeInv, PidsInv, ThreadNext, SchedNext;
    match e
    case Sched(c, st) => SchedKeeps(s, c, st);
    case Wakeup(ch) => WakeKeeps(s, ch);
    case InThread(c, th) =>
      var p := s.cpus[c].phase.i;
      if TurnStep(th) {
        TurnKeeps(s, c, p, th);
      } else if ForkStep(th) {
        ForkKeeps(s, c, p, th);
      } else if th.SwitchOut? {
        SwitchOutKeeps(s, c, p);
      } else if th.Exit? {
        ExitKeeps(s, c, p);
      } else if th.ExitZombie? {
        ZombieKeeps(s, c, p);
      } else {
        ReapKeeps(s, c, p, th.i);
      }
  }

  /** States that some sequence of steps leads to. */
  ghost predicate Leads(s: State, es: seq<Event>, s': State)
    decreases |es|
  {
    if es == [] then s' == s
    else Shape(s) && Enabled(s, es[0]) && Leads(Next(s, es[0]), es[1..], s')
  }

  lemma {:induction false} RunInv(s: State, es: seq<Event>, s': State)
    requires Inv(s) && Leads(s, es, s')
    ensures Inv(s')
    decreases |es|
  {
    hide Inv, Next, Enabled;
    if es != [] {
      StepInv(s, es[0]);
      RunInv(Next(s, es[0]), es[1..], s');
    }
  }

  /** After userinit: init is RUNNABLE with pid 1, every other slot is free, every CPU enters scheduler(). */
  ghost predicate Booted(s: State) {
    && Shape(s) && s.lock == None && s.nextpid == 2 && s.reaped == []
    && (forall c: nat :: c < |s.cpus| ==> s.cpus[c] == Cpu(Idle, None, None, None))
    && (forall i: nat :: i < |s.procs| ==> s.on[i] == None && s.threads[i] == Thread(Came(Yielding), Nothing))
    && (forall i: nat :: i < |s.procs| && i != s.init ==> s.procs[i] == Proc(UNUSED, 0, None, Null, false, false))
    && s.procs[s.init] == Proc(RUNNABLE, 1, None, Null, false, true)
  }

  lemma BootInv(s: State)
    requires Booted(s)
    ensures Inv(s)
  {
    assert CpusInv(s);
    assert JobsInv(s.procs, s.threads, s.maker);
  }

  // ---- What it means ----

  lemma RunningIffCurrent(s: State, i: nat)
    requires Inv(s) && s.lock == None && i < |s.procs|
    ensures RunningOnOne(s, i)
  {
    hide JobsInv, TreeInv, PidsInv;
    assert ThreadInv(s.procs[i], s.threads[i], s.on[i], Inside(s.cpus, s.on, i));
    forall c: nat | c < |s.cpus| && s.cpus[c].proc == Some(i)
      ensures s.on[i] == Some(c) && s.procs[i].state == RUNNING
    {
      assert CpuInv(s.cpus[c], c, s.lock, s.procs, s.threads, s.on);
      QuietSlot(s, i);
    }
  }

  ghost predicate TableOk(s: State) {
    && Shape(s)
    && (forall i: nat, j: nat :: i < j < |s.procs| && s.procs[i].state != UNUSED && s.procs[j].state != UNUSED ==> s.procs[i].pid != s.procs[j].pid)
    && (forall i: nat :: i < |s.procs| && Live(s.procs[i]) && i != s.init ==>
          s.procs[i].parent.Some? && s.procs[i].parent.value < |s.procs| && Active(s.procs[s.procs[i].parent.value]))
    && (forall k: nat, l: nat :: k < l < |s.reaped| ==> s.reaped[k] != s.reaped[l])
    && (s.lock == None ==> forall i: nat :: i < |s.procs| ==> RunningOnOne(s, i))
  }

  /** RUNNING exactly when some CPU's c->proc, and then only one CPU's. */
  ghost predicate RunningOnOne(s: State, i: nat)
    requires i < |s.procs|
  {
    && (s.procs[i].state == RUNNING <==> exists c: nat :: c < |s.cpus| && s.cpus[c].proc == Some(i))
    && (forall c: nat, d: nat :: c < |s.cpus| && d < |s.cpus| && s.cpus[c].proc == s.cpus[d].proc == Some(i) ==> c == d)
  }

  /** Whatever the CPUs do from boot on. */
  lemma EveryRun(s0: State, es: seq<Event>, s: State)
    requires Booted(s0) && Leads(s0, es, s)
    ensures TableOk(s)
  {
    hide CpusInv, ThreadsInv, JobsInv, Leads, Booted, RunningOnOne;
    BootInv(s0);
    RunInv(s0, es, s);
    forall i: nat | i < |s.procs|
      ensures Live(s.procs[i]) && i != s.init ==>
        s.procs[i].parent.Some? && s.procs[i].parent.value < |s.procs| && Active(s.procs[s.procs[i].parent.value])
      ensures s.lock == None ==> RunningOnOne(s, i)
    {
      assert ParentInv(s.procs, s.threads, s.init, i);
      if s.lock == None {
        RunningIffCurrent(s, i);
      }
    }
  }

  /** The panics of sched() and exit(): never without the lock, never RUNNING, never back from the dead. */
  lemma SchedDoesNotPanic(s: State, c: nat, p: nat)
    requires Inv(s) && Executing(s, c, p)
    ensures s.threads[p].pc.Leave? ==> s.lock == Some(c) && s.procs[p].state != RUNNING
    ensures s.threads[p].pc != Came(Dying)
  {
    hide ThreadsInv, JobsInv, TreeInv, PidsInv;
    Mine(s, c, p);
  }

  /** A stack that a CPU is about to switch to exists. */
  lemma StackExists(s: State, c: nat)
    requires Inv(s) && c < |s.cpus| && s.cpus[c].proc.Some?
    ensures s.procs[s.cpus[c].proc.value].hasStack
  {
    hide ThreadsInv, TreeInv, PidsInv;
    var i := s.cpus[c].proc.value;
    assert CpuInv(s.cpus[c], c, s.lock, s.procs, s.threads, s.on);
    assert SlotInv(s.procs, s.threads, s.maker, i);
  }
}
