/**
 What every run of the process machine keeps: the lock is held exactly inside sections, a process
 is RUNNING exactly when a CPU executes it, slots being filled have one maker, parents are alive,
 and pids are never reused.
 */
module ProcInvariant {
  import opened Common
  import opened ProcTable
  import opened ProcMachine

  predicate Active(p: Proc) {
    p.state == RUNNABLE || p.state == SLEEPING || p.state == RUNNING
  }

  predicate Live(p: Proc) {
    Active(p) || p.state == ZOMBIE
  }

  // ---- CPUs ----

  /** The CPU is inside a section of ptable.lock. */
  predicate Holding(u: Cpu, threads: seq<Thread>) {
    !u.phase.Idle? && (u.phase.InProc? && u.phase.i < |threads| ==> threads[u.phase.i].pc != Run)
  }

  /** The state of the process that a CPU executes. */
  predicate ExecutedState(state: PState, pc: Pc) {
    match pc
    case Leave(Yielding) => state == RUNNABLE
    case Leave(Sleeping) => state == SLEEPING
    case Leave(Waiting) => state == SLEEPING
    case Leave(Dying) => state == ZOMBIE
    case Came(Dying) => false
    case _ => state == RUNNING
  }

  predicate StateInPhase(u: Cpu, procs: seq<Proc>, threads: seq<Thread>)
    requires |threads| == |procs| && PhaseOk(u, |procs|)
  {
    match u.phase
    case Idle => true
    case Scan(i) => true
    case Chose(i) => procs[i].state == RUNNABLE
    case Mapped(i) => procs[i].state == RUNNABLE
    case Marked(i) => procs[i].state == RUNNING
    case InProc(i) => ExecutedState(procs[i].state, threads[i].pc)
    case Left(i) => procs[i].state == RUNNABLE || procs[i].state == SLEEPING || procs[i].state == ZOMBIE
    case Unmapped(i) => procs[i].state == RUNNABLE || procs[i].state == SLEEPING || procs[i].state == ZOMBIE
  }

  ghost predicate CpuInv(u: Cpu, c: nat, lock: Option<nat>, procs: seq<Proc>, threads: seq<Thread>, on: seq<Option<nat>>)
    requires |threads| == |procs| == |on| && PhaseOk(u, |procs|)
  {
    && (lock == Some(c) <==> Holding(u, threads))
    && (u.proc.Some? ==> on[u.proc.value] == Some(c))
    && StateInPhase(u, procs, threads)
  }

  ghost predicate CpusInv(s: State) {
    && Shape(s)
    && (s.lock.Some? ==> s.lock.value < |s.cpus|)
    && (forall c: nat :: c < |s.cpus| ==> CpuInv(s.cpus[c], c, s.lock, s.procs, s.threads, s.on))
    && (forall i: nat :: i < |s.on| && s.on[i].Some? ==> s.on[i].value < |s.cpus| && s.cpus[s.on[i].value].proc == Some(i))
  }

  // ---- Threads ----

  /** Some CPU executes slot i. */
  ghost predicate Inside(cpus: seq<Cpu>, on: seq<Option<nat>>, i: nat)
    requires i < |on|
  {
    on[i].Some? && on[i].value < |cpus| && cpus[on[i].value].phase == InProc(i)
  }

  ghost predicate ThreadInv(p: Proc, t: Thread, on: Option<nat>, inside: bool) {
    && (p.state == RUNNING ==> on.Some?)
    && (Active(p) && !inside ==> t.pc.Came? && t.pc.why != Dying)
    && (!Live(p) ==> on == None)
  }

  ghost predicate ThreadsInv(s: State) {
    && Shape(s)
    && forall i: nat :: i < |s.procs| ==> ThreadInv(s.procs[i], s.threads[i], s.on[i], Inside(s.cpus, s.on, i))
  }

  // ---- Slots being filled ----

  /** Outside of all sections but yield's. */
  predicate Unsectioned(pc: Pc) {
    pc == Run || pc == Leave(Yielding) || pc == Came(Yielding)
  }

  ghost predicate JobInv(procs: seq<Proc>, threads: seq<Thread>, maker: seq<nat>, i: nat)
    requires |threads| == |procs| == |maker| && i < |procs|
  {
    var t := threads[i];
    t.job != Nothing ==>
      && (procs[i].state == RUNNING || procs[i].state == RUNNABLE) && Unsectioned(t.pc)
      && t.job.np < |procs| && procs[t.job.np].state == EMBRYO && maker[t.job.np] == i
      && procs[t.job.np].hasStack == !t.job.NoStack?
      && procs[t.job.np].parent == if t.job.Ready? then Some(i) else None
  }

  ghost predicate SlotInv(procs: seq<Proc>, threads: seq<Thread>, maker: seq<nat>, i: nat)
    requires |threads| == |procs| == |maker| && i < |procs|
  {
    && (procs[i].state == EMBRYO ==> maker[i] < |threads| && threads[maker[i]].job != Nothing && threads[maker[i]].job.np == i)
    && (procs[i].state == UNUSED ==> procs[i].parent == None && !procs[i].hasStack)
    && (Live(procs[i]) ==> procs[i].hasStack)
  }

  ghost predicate JobsInv(procs: seq<Proc>, threads: seq<Thread>, maker: seq<nat>) {
    && |threads| == |procs| == |maker|
    && forall i: nat :: i < |procs| ==> JobInv(procs, threads, maker, i) && SlotInv(procs, threads, maker, i)
  }

  // ---- The process tree ----

  ghost predicate ParentInv(procs: seq<Proc>, threads: seq<Thread>, init: nat, i: nat)
    requires |threads| == |procs| && i < |procs|
  {
    && (Live(procs[i]) && i != init ==> procs[i].parent.Some?)
    && (procs[i].parent.Some? ==>
          procs[i].parent.value < |procs| && Active(procs[procs[i].parent.value]) && threads[procs[i].parent.value].pc != ExitMark)
  }

  ghost predicate TreeInv(procs: seq<Proc>, threads: seq<Thread>, init: nat) {
    && |threads| == |procs| && init < |procs| && Active(procs[init]) && threads[init].pc != ExitMark
    && forall i: nat :: i < |procs| ==> ParentInv(procs, threads, init, i)
  }

  // ---- Pids ----

  ghost predicate PidsInv(procs: seq<Proc>, nextpid: nat, reaped: seq<nat>) {
    && (forall i: nat :: i < |procs| && procs[i].state != UNUSED ==> procs[i].pid < nextpid && procs[i].pid !in reaped)
    && (forall i: nat, j: nat :: i < j < |procs| && procs[i].state != UNUSED && procs[j].state != UNUSED ==> procs[i].pid != procs[j].pid)
    && (forall k: nat :: k < |reaped| ==> reaped[k] < nextpid)
    && (forall k: nat, l: nat :: k < l < |reaped| ==> reaped[k] != reaped[l])
  }

  ghost predicate Inv(s: State) {
    && Shape(s)
    && CpusInv(s)
    && ThreadsInv(s)
    && JobsInv(s.procs, s.threads, s.maker)
    && TreeInv(s.procs, s.threads, s.init)
    && PidsInv(s.procs, s.nextpid, s.reaped)
  }

  // ---- Steps of the scheduler ----

  lemma SchedMoverLock(s: State, c: nat, st: SchedStep)
    requires Inv(s) && CanSched(s, c, st)
    ensures var s' := SchedNext(s, c, st);
      && PhaseOk(s'.cpus[c], |s.procs|) && (s'.lock == Some(c) <==> Holding(s'.cpus[c], s'.threads))
      && (s'.lock.Some? ==> s'.lock.value < |s'.cpus|)
  {
    hide JobsInv, TreeInv, PidsInv;
    assert CpuInv(s.cpus[c], c, s.lock, s.procs, s.threads, s.on);
    if st.SwitchIn? {
      ChosenCame(s, c);
    }
  }

  /** A process that a CPU is about to enter waits where swtch left it, with the lock. */
  lemma ChosenCame(s: State, c: nat)
    requires Inv(s) && c < |s.cpus| && s.cpus[c].phase.Marked?
    ensures s.threads[s.cpus[c].phase.i].pc.Came? && s.threads[s.cpus[c].phase.i].pc.why != Dying
    ensures s.procs[s.cpus[c].phase.i].state == RUNNING
  {
    hide JobsInv, TreeInv, PidsInv;
    var i := s.cpus[c].phase.i;
    assert CpuInv(s.cpus[c], c, s.lock, s.procs, s.threads, s.on);
    assert ThreadInv(s.procs[i], s.threads[i], s.on[i], Inside(s.cpus, s.on, i));
  }

  lemma SchedMoverState(s: State, c: nat, st: SchedStep)
    requires Inv(s) && CanSched(s, c, st)
    ensures var s' := SchedNext(s, c, st);
      && PhaseOk(s'.cpus[c], |s.procs|) && |s'.threads| == |s'.procs| == |s'.on| == |s.procs|
      && (s'.cpus[c].proc.Some? ==> s'.on[s'.cpus[c].proc.value] == Some(c)) && StateInPhase(s'.cpus[c], s'.procs, s'.threads)
  {
    hide ThreadsInv, JobsInv, TreeInv, PidsInv;
    assert CpuInv(s.cpus[c], c, s.lock, s.procs, s.threads, s.on);
    if st.SwitchIn? {
      ChosenCame(s, c);
    }
  }

  lemma SchedMover(s: State, c: nat, st: SchedStep)
    requires Inv(s) && CanSched(s, c, st)
    ensures var s' := SchedNext(s, c, st);
      && (s'.lock.Some? ==> s'.lock.value < |s'.cpus|)
      && PhaseOk(s'.cpus[c], |s.procs|) && CpuInv(s'.cpus[c], c, s'.lock, s'.procs, s'.threads, s'.on)
  {
    hide Inv, SchedNext, PhaseOk, StateInPhase, Holding;
    SchedMoverLock(s, c, st);
    SchedMoverState(s, c, st);
  }

  lemma SchedOther(s: State, c: nat, st: SchedStep, d: nat)
    requires Inv(s) && CanSched(s, c, st) && d < |s.cpus| && d != c
    ensures var s' := SchedNext(s, c, st);
      PhaseOk(s'.cpus[d], |s.procs|) && CpuInv(s'.cpus[d], d, s'.lock, s'.procs, s'.threads, s'.on)
  {
    hide JobsInv, TreeInv, PidsInv, ThreadsInv;
    assert CpuInv(s.cpus[c], c, s.lock, s.procs, s.threads, s.on);
    assert CpuInv(s.cpus[d], d, s.lock, s.procs, s.threads, s.on);
  }

  lemma SchedOn(s: State, c: nat, st: SchedStep, i: nat)
    requires Inv(s) && CanSched(s, c, st) && i < |s.on|
    ensures var s' := SchedNext(s, c, st);
      s'.on[i].Some? ==> s'.on[i].value < |s'.cpus| && s'.cpus[s'.on[i].value].proc == Some(i)
  {
    hide JobsInv, TreeInv, PidsInv, ThreadsInv;
    assert CpuInv(s.cpus[c], c, s.lock, s.procs, s.threads, s.on);
  }

  lemma SchedCpus(s: State, c: nat, st: SchedStep)
    requires Inv(s) && CanSched(s, c, st)
    ensures Shape(SchedNext(s, c, st)) && CpusInv(SchedNext(s, c, st))
  {
    hide CpuInv, JobsInv, TreeInv, PidsInv, ThreadsInv, Moved;
    SchedMover(s, c, st);
    forall d: nat | d < |s.cpus| && d != c
      ensures var s' := SchedNext(s, c, st); PhaseOk(s'.cpus[d], |s.procs|) && CpuInv(s'.cpus[d], d, s'.lock, s'.procs, s'.threads, s'.on)
    {
      SchedOther(s, c, st, d);
    }
    forall i: nat | i < |s.on|
      ensures var s' := SchedNext(s, c, st); s'.on[i].Some? ==> s'.on[i].value < |s'.cpus| && s'.cpus[s'.on[i].value].proc == Some(i)
    {
      SchedOn(s, c, st, i);
    }
  }

  lemma SchedThread(s: State, c: nat, st: SchedStep, i: nat)
    requires Inv(s) && CanSched(s, c, st) && i < |s.procs|
    ensures var s' := SchedNext(s, c, st); |s'.on| == |s.on| && ThreadInv(s'.procs[i], s'.threads[i], s'.on[i], Inside(s'.cpus, s'.on, i))
  {
    hide JobsInv, TreeInv, PidsInv;
    assert CpuInv(s.cpus[c], c, s.lock, s.procs, s.threads, s.on);
    assert ThreadInv(s.procs[i], s.threads[i], s.on[i], Inside(s.cpus, s.on, i));
  }

  lemma SchedThreads(s: State, c: nat, st: SchedStep)
    requires Inv(s) && CanSched(s, c, st)
    ensures ThreadsInv(SchedNext(s, c, st))
  {
    hide CpusInv, ThreadInv, Inside, JobsInv, TreeInv, PidsInv, SchedNext;
    SchedCpus(s, c, st);
    var s' := SchedNext(s, c, st);
    SchedLengths(s, c, st);
    forall i: nat | i < |s.procs|
      ensures ThreadInv(s'.procs[i], s'.threads[i], s'.on[i], Inside(s'.cpus, s'.on, i))
    {
      SchedThread(s, c, st, i);
    }
  }

  lemma SchedLengths(s: State, c: nat, st: SchedStep)
    requires Shape(s) && CanSched(s, c, st)
    ensures |SchedNext(s, c, st).procs| == |s.procs|
  {
  }

  // ---- Processes that only change between RUNNABLE, SLEEPING and RUNNING ----

  ghost predicate OnlyActive(procs: seq<Proc>, procs': seq<Proc>) {
    && |procs'| == |procs|
    && forall i: nat :: i < |procs| ==> Turned(procs[i], procs'[i])
  }

  predicate Turned(p: Proc, p': Proc) {
    && p'.pid == p.pid && p'.parent == p.parent && p'.hasStack == p.hasStack
    && (p'.state == p.state || (Active(p) && Active(p')))
  }

  /** No thread starts a job or enters exit, and whoever fills a slot has not gone to sleep. */
  ghost predicate SameJobs(procs': seq<Proc>, threads: seq<Thread>, threads': seq<Thread>) {
    && |threads'| == |threads| == |procs'|
    && forall i: nat :: i < |threads| ==>
         && threads'[i].job == threads[i].job && (threads'[i].pc == ExitMark ==> threads[i].pc == ExitMark)
         && (threads[i].job != Nothing ==> procs'[i].state != SLEEPING && Unsectioned(threads'[i].pc))
  }

  lemma JobsTurn(procs: seq<Proc>, procs': seq<Proc>, threads: seq<Thread>, threads': seq<Thread>, maker: seq<nat>)
    requires JobsInv(procs, threads, maker) && OnlyActive(procs, procs') && SameJobs(procs', threads, threads')
    ensures JobsInv(procs', threads', maker)
  {
    forall i: nat | i < |procs|
      ensures JobInv(procs', threads', maker, i) && SlotInv(procs', threads', maker, i)
    {
      assert JobInv(procs, threads, maker, i) && SlotInv(procs, threads, maker, i);
    }
  }

  lemma TreeTurn(procs: seq<Proc>, procs': seq<Proc>, threads: seq<Thread>, threads': seq<Thread>, init: nat)
    requires TreeInv(procs, threads, init) && OnlyActive(procs, procs') && SameJobs(procs', threads, threads')
    ensures TreeInv(procs', threads', init)
  {
    forall i: nat | i < |procs|
      ensures ParentInv(procs', threads', init, i)
    {
      assert ParentInv(procs, threads, init, i);
    }
  }

  lemma PidsTurn(procs: seq<Proc>, procs': seq<Proc>, nextpid: nat, reaped: seq<nat>)
    requires PidsInv(procs, nextpid, reaped) && OnlyActive(procs, procs')
    ensures PidsInv(procs', nextpid, reaped)
  {
  }

  lemma Turn(s: State, s': State)
    requires Inv(s) && OnlyActive(s.procs, s'.procs) && SameJobs(s'.procs, s.threads, s'.threads)
    requires s'.init == s.init && s'.maker == s.maker && s'.nextpid == s.nextpid && s'.reaped == s.reaped
    requires Shape(s') && CpusInv(s') && ThreadsInv(s')
    ensures Inv(s')
  {
    hide CpusInv, ThreadsInv, JobsInv, TreeInv, PidsInv, OnlyActive, SameJobs;
    JobsTurn(s.procs, s'.procs, s.threads, s'.threads, s.maker);
    TreeTurn(s.procs, s'.procs, s.threads, s'.threads, s.init);
    PidsTurn(s.procs, s'.procs, s.nextpid, s.reaped);
  }

  lemma SchedTurns(s: State, c: nat, st: SchedStep)
    requires Inv(s) && CanSched(s, c, st)
    ensures var s' := SchedNext(s, c, st); OnlyActive(s.procs, s'.procs) && SameJobs(s'.procs, s.threads, s'.threads)
  {
    hide TreeInv, PidsInv, ThreadsInv;
    forall i: nat | i < |s.procs| && s.threads[i].job != Nothing
      ensures s.procs[i].state != SLEEPING && Unsectioned(s.threads[i].pc)
    {
      assert JobInv(s.procs, s.threads, s.maker, i);
    }
    assert st.Mark? ==> CpuInv(s.cpus[c], c, s.lock, s.procs, s.threads, s.on);
  }

  lemma SchedKeeps(s: State, c: nat, st: SchedStep)
    requires Inv(s) && CanSched(s, c, st)
    ensures Inv(SchedNext(s, c, st))
  {
    hide CpusInv, ThreadsInv, JobsInv, TreeInv, PidsInv, OnlyActive, SameJobs;
    SchedCpus(s, c, st);
    SchedThreads(s, c, st);
    SchedTurns(s, c, st);
    Turn(s, SchedNext(s, c, st));
  }
}
