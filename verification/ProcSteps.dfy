/** The steps of processes keep the invariant. */
module ProcSteps {
  import opened Common
  import opened ProcTable
  import opened ProcMachine
  import opened ProcInvariant

  ghost predicate Executing(s: State, c: nat, p: nat) {
    && |s.threads| == |s.procs| && c < |s.cpus| && s.cpus[c].phase == InProc(p) && p < |s.procs|
  }

  /** What is known of the process that CPU c executes. */
  lemma Mine(s: State, c: nat, p: nat)
    requires Inv(s) && Executing(s, c, p)
    ensures s.on[p] == Some(c) && (s.lock == Some(c) <==> s.threads[p].pc != Run) && ExecutedState(s.procs[p].state, s.threads[p].pc)
    ensures s.threads[p].job != Nothing ==> s.threads[p].job.np < |s.procs| && s.procs[s.threads[p].job.np].state == EMBRYO
  {
    hide ThreadsInv, TreeInv, PidsInv;
    assert CpuInv(s.cpus[c], c, s.lock, s.procs, s.threads, s.on);
    assert JobInv(s.procs, s.threads, s.maker, p);
  }

  /** With the lock free, every process that a CPU has is RUNNING, and no CPU is half-way in or out. */
  lemma QuietSlot(s: State, i: nat)
    requires Inv(s) && s.lock == None && i < |s.procs| && s.on[i].Some?
    ensures s.procs[i].state == RUNNING && s.threads[i].pc == Run && Inside(s.cpus, s.on, i)
  {
    hide ThreadsInv, JobsInv, TreeInv, PidsInv;
    assert CpuInv(s.cpus[s.on[i].value], s.on[i].value, s.lock, s.procs, s.threads, s.on);
  }

  // ---- Frames ----

  /** Nobody but p has changed, as far as CPUs can tell. */
  ghost predicate OthersStay(s: State, s': State, p: nat) {
    && |s'.procs| == |s.procs| == |s.threads| == |s'.threads| == |s.on| && s'.on == s.on
    && forall j: nat :: j < |s.procs| && j != p && s.on[j].Some? ==> s'.procs[j].state == s.procs[j].state && s'.threads[j] == s.threads[j]
  }

  ghost predicate LockMoves(s: State, s': State, c: nat, p: nat)
    requires p < |s'.threads|
  {
    && (s'.lock == Some(c) <==> s'.threads[p].pc != Run)
    && (s'.lock == s.lock || (s.lock == None && s'.lock == Some(c)) || (s.lock == Some(c) && s'.lock == None))
  }

  lemma CpuStays(s: State, s': State, c: nat, p: nat, d: nat)
    requires Inv(s) && Executing(s, c, p) && OthersStay(s, s', p) && LockMoves(s, s', c, p) && d < |s.cpus| && d != c
    ensures CpuInv(s.cpus[d], d, s'.lock, s'.procs, s'.threads, s'.on)
  {
    hide ThreadsInv, JobsInv, TreeInv, PidsInv, ExecutedState;
    assert CpuInv(s.cpus[c], c, s.lock, s.procs, s.threads, s.on);
    assert CpuInv(s.cpus[d], d, s.lock, s.procs, s.threads, s.on);
  }

  lemma CpusStay(s: State, s': State, c: nat, p: nat)
    requires Inv(s) && Executing(s, c, p) && OthersStay(s, s', p) && LockMoves(s, s', c, p)
    requires ExecutedState(s'.procs[p].state, s'.threads[p].pc) && s'.cpus == s.cpus && Shape(s')
    ensures CpusInv(s')
  {
    hide ThreadsInv, JobsInv, TreeInv, PidsInv, ExecutedState;
    assert CpuInv(s.cpus[c], c, s.lock, s.procs, s.threads, s.on);
    forall d: nat | d < |s.cpus|
      ensures CpuInv(s.cpus[d], d, s'.lock, s'.procs, s'.threads, s'.on)
    {
      if d != c {
        CpuStays(s, s', c, p, d);
      }
    }
  }

  /** Slot i keeps its thread, and at most wakes up. */
  predicate AtMostWakes(p: Proc, p': Proc, t: Thread, t': Thread) {
    t' == t && (p'.state == p.state || (p.state == SLEEPING && p'.state == RUNNABLE))
  }

  lemma ThreadsStay(s: State, s': State, c: nat, p: nat)
    requires Inv(s) && Executing(s, c, p) && s'.cpus == s.cpus && s'.on == s.on && Shape(s') && |s'.procs| == |s.procs|
    requires Live(s'.procs[p])
    requires forall i: nat :: i < |s.procs| && i != p ==>
               AtMostWakes(s.procs[i], s'.procs[i], s.threads[i], s'.threads[i]) || ThreadInv(s'.procs[i], s'.threads[i], s.on[i], Inside(s.cpus, s.on, i))
    ensures ThreadsInv(s')
  {
    hide JobsInv, TreeInv, PidsInv;
    assert CpuInv(s.cpus[c], c, s.lock, s.procs, s.threads, s.on);
    forall i: nat | i < |s.procs|
      ensures ThreadInv(s'.procs[i], s'.threads[i], s'.on[i], Inside(s'.cpus, s'.on, i))
    {
      assert ThreadInv(s.procs[i], s.threads[i], s.on[i], Inside(s.cpus, s.on, i));
    }
  }

  // ---- Steps that move processes between RUNNABLE, SLEEPING and RUNNING ----

  predicate TurnStep(th: ThreadStep) {
    th.Resume? || th.Yield? || th.Sleep? || th.Kill? || th.WaitStart? || th.WaitNone? || th.WaitSleep?
  }

  lemma TurnLocal(s: State, c: nat, p: nat, th: ThreadStep)
    requires Inv(s) && Executing(s, c, p) && CanThread(s, p, th) && TurnStep(th)
    ensures var s' := ThreadNext(s, c, p, th);
      && ExecutedState(s'.procs[p].state, s'.threads[p].pc) && LockMoves(s, s', c, p) && Live(s'.procs[p])
      && Turned(s.procs[p], s'.procs[p]) && s'.threads[p].job == s.threads[p].job && s'.threads[p].pc != ExitMark
  {
    hide Inv;
    Mine(s, c, p);
    InvShape(s);
  }

  lemma TurnOthers(s: State, c: nat, p: nat, th: ThreadStep, i: nat)
    requires Inv(s) && Executing(s, c, p) && CanThread(s, p, th) && TurnStep(th) && i < |s.procs| && i != p
    ensures var s' := ThreadNext(s, c, p, th);
      && AtMostWakes(s.procs[i], s'.procs[i], s.threads[i], s'.threads[i]) && Turned(s.procs[i], s'.procs[i])
      && (s.on[i].Some? ==> s'.procs[i].state == s.procs[i].state)
      && (s.threads[i].job != Nothing ==> s'.procs[i].state != SLEEPING && Unsectioned(s'.threads[i].pc))
  {
    hide CpusInv, ThreadsInv, TreeInv, PidsInv, PcAfter, JobAfter, HasZombieChild, HasChild;
    assert JobInv(s.procs, s.threads, s.maker, i);
    if th.Kill? && s.on[i].Some? {
      QuietSlot(s, i);
    }
  }

  lemma TurnKeeps(s: State, c: nat, p: nat, th: ThreadStep)
    requires Inv(s) && Executing(s, c, p) && CanThread(s, p, th) && TurnStep(th)
    ensures Inv(ThreadNext(s, c, p, th))
  {
    hide Inv, CpusInv, ThreadsInv, AtMostWakes, Turned, ExecutedState, ThreadInv, Live, PcAfter, JobAfter,
      ProcsAfter, CanThread, Drops;
    InvShape(s);
    var s' := ThreadNext(s, c, p, th);
    TurnLocal(s, c, p, th);
    forall i: nat | i < |s.procs| && i != p
      ensures AtMostWakes(s.procs[i], s'.procs[i], s.threads[i], s'.threads[i])
      ensures Turned(s.procs[i], s'.procs[i]) && s'.threads[i] == s.threads[i]
      ensures s.on[i].Some? ==> s'.procs[i].state == s.procs[i].state
      ensures s.threads[i].job != Nothing ==> s'.procs[i].state != SLEEPING && Unsectioned(s'.threads[i].pc)
    {
      TurnOthers(s, c, p, th, i);
      WakesThread(s.procs[i], s'.procs[i], s.threads[i], s'.threads[i]);
    }
    TurnJob(s, c, p, th);
    CpusStay(s, s', c, p);
    ThreadsStay(s, s', c, p);
    Turn(s, s');
  }

  lemma InvShape(s: State)
    requires Inv(s)
    ensures Shape(s)
  {
  }

  lemma WakesThread(p: Proc, p': Proc, t: Thread, t': Thread)
    requires AtMostWakes(p, p', t, t')
    ensures t' == t
  {
  }

  lemma TurnJob(s: State, c: nat, p: nat, th: ThreadStep)
    requires Inv(s) && Executing(s, c, p) && CanThread(s, p, th) && TurnStep(th)
    ensures var s' := ThreadNext(s, c, p, th);
      s.threads[p].job != Nothing ==> s'.procs[p].state != SLEEPING && Unsectioned(s'.threads[p].pc)
  {
    hide CpusInv, ThreadsInv, TreeInv, PidsInv, HasZombieChild, HasChild;
    assert JobInv(s.procs, s.threads, s.maker, p);
  }

  // ---- wakeup from anywhere, and the switch to the scheduler ----

  lemma WakeKeeps(s: State, ch: Chan)
    requires Inv(s) && s.lock == None
    ensures Inv(s.(procs := Woken(s.procs, ch)))
  {
    var s' := s.(procs := Woken(s.procs, ch));
    forall i: nat | i < |s.procs| && s.on[i].Some?
      ensures s'.procs[i] == s.procs[i]
    {
      QuietSlot(s, i);
    }
    WakeCpus(s, s');
    WakeThreads(s, s');
    WakeJobs(s, ch);
    hide CpusInv, ThreadsInv, JobsInv, TreeInv, PidsInv;
    Turn(s, s');
  }

  lemma WakeCpus(s: State, s': State)
    requires CpusInv(s) && s' == s.(procs := s'.procs) && |s'.procs| == |s.procs|
    requires forall i: nat :: i < |s.procs| && s.on[i].Some? ==> s'.procs[i] == s.procs[i]
    ensures CpusInv(s')
  {
    hide ExecutedState;
    forall d: nat | d < |s.cpus|
      ensures CpuInv(s.cpus[d], d, s.lock, s'.procs, s.threads, s.on)
    {
      assert CpuInv(s.cpus[d], d, s.lock, s.procs, s.threads, s.on);
    }
  }

  lemma WakeThreads(s: State, s': State)
    requires ThreadsInv(s) && s' == s.(procs := s'.procs) && |s'.procs| == |s.procs|
    requires forall i: nat :: i < |s.procs| ==> AtMostWakes(s.procs[i], s'.procs[i], s.threads[i], s.threads[i])
    ensures ThreadsInv(s')
  {
    forall i: nat | i < |s.procs|
      ensures ThreadInv(s'.procs[i], s'.threads[i], s'.on[i], Inside(s'.cpus, s'.on, i))
    {
      assert ThreadInv(s.procs[i], s.threads[i], s.on[i], Inside(s.cpus, s.on, i));
    }
  }

  lemma JobPc(s: State, i: nat)
    requires Inv(s) && i < |s.procs|
    ensures s.threads[i].job != Nothing ==> s.procs[i].state != SLEEPING && Unsectioned(s.threads[i].pc)
  {
    hide CpusInv, ThreadsInv, TreeInv, PidsInv;
    assert JobInv(s.procs, s.threads, s.maker, i);
  }

  lemma WakeJobs(s: State, ch: Chan)
    requires Inv(s)
    ensures OnlyActive(s.procs, Woken(s.procs, ch)) && SameJobs(Woken(s.procs, ch), s.threads, s.threads)
  {
    hide Inv;
    InvShape(s);
    forall i: nat | i < |s.procs|
      ensures s.threads[i].job != Nothing ==> s.procs[i].state != SLEEPING && Unsectioned(s.threads[i].pc)
    {
      JobPc(s, i);
    }
  }

  lemma SwitchOutCpus(s: State, c: nat, p: nat)
    requires Inv(s) && Executing(s, c, p) && s.threads[p].pc.Leave?
    ensures Shape(ThreadNext(s, c, p, SwitchOut)) && CpusInv(ThreadNext(s, c, p, SwitchOut))
  {
    hide ThreadsInv, JobsInv, TreeInv, PidsInv;
    Mine(s, c, p);
    var s' := ThreadNext(s, c, p, SwitchOut);
    forall d: nat | d < |s.cpus|
      ensures PhaseOk(s'.cpus[d], |s.procs|) && CpuInv(s'.cpus[d], d, s'.lock, s'.procs, s'.threads, s'.on)
    {
      assert CpuInv(s.cpus[d], d, s.lock, s.procs, s.threads, s.on);
    }
  }

  lemma SwitchOutThreads(s: State, c: nat, p: nat)
    requires Inv(s) && Executing(s, c, p) && s.threads[p].pc.Leave?
    ensures ThreadsInv(ThreadNext(s, c, p, SwitchOut))
  {
    hide JobsInv, TreeInv, PidsInv;
    Mine(s, c, p);
    var s' := ThreadNext(s, c, p, SwitchOut);
    SwitchOutCpus(s, c, p);
    forall i: nat | i < |s.procs|
      ensures ThreadInv(s'.procs[i], s'.threads[i], s'.on[i], Inside(s'.cpus, s'.on, i))
    {
      assert ThreadInv(s.procs[i], s.threads[i], s.on[i], Inside(s.cpus, s.on, i));
    }
  }

  lemma SwitchOutTurns(s: State, c: nat, p: nat)
    requires Inv(s) && Executing(s, c, p) && s.threads[p].pc.Leave?
    ensures var s' := ThreadNext(s, c, p, SwitchOut); OnlyActive(s.procs, s'.procs) && SameJobs(s'.procs, s.threads, s'.threads)
  {
    hide Inv;
    InvShape(s);
    forall i: nat | i < |s.procs|
      ensures s.threads[i].job != Nothing ==> s.procs[i].state != SLEEPING && Unsectioned(s.threads[i].pc)
    {
      JobPc(s, i);
    }
  }

  lemma SwitchOutKeeps(s: State, c: nat, p: nat)
    requires Inv(s) && Executing(s, c, p) && s.threads[p].pc.Leave?
    ensures Inv(ThreadNext(s, c, p, SwitchOut))
  {
    hide Inv, CpusInv, ThreadsInv, OnlyActive, SameJobs;
    InvShape(s);
    SwitchOutCpus(s, c, p);
    SwitchOutThreads(s, c, p);
    SwitchOutTurns(s, c, p);
    Turn(s, ThreadNext(s, c, p, SwitchOut));
  }
}
