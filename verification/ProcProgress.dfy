/**
 ptable.lock is always given up again: a CPU that holds it takes at most about ten steps for each
 slot of the table before it lets it go, whatever the other CPUs do meanwhile.
 */
module ProcProgress {
  import opened Common
  import opened ProcTable
  import opened ProcMachine
  import opened ProcInvariant
  import opened ProcSteps
  import opened ProcTree
  import opened ProcLife
  import opened ProcCalls

  const PER_SLOT: nat := 10

  /** How far a CPU that works on slot i of n has still to go, at the thread's pc if it is in the process. */
  function Ahead(ph: Phase, pc: Pc, n: nat): int
  {
    match ph
    case Idle => 0
    case Scan(i) => (n - i) * PER_SLOT + 1
    case Chose(i) => (n - i) * PER_SLOT
    case Mapped(i) => (n - i) * PER_SLOT - 1
    case Marked(i) => (n - i) * PER_SLOT - 2
    case InProc(i) => (n - i) * PER_SLOT - (if pc.Came? then 3 else if pc.Leave? then 5 else 4)
    case Left(i) => (n - i) * PER_SLOT - 6
    case Unmapped(i) => (n - i) * PER_SLOT - 7
  }

  function PcOf(ph: Phase, threads: seq<Thread>): Pc
  {
    if ph.InProc? && ph.i < |threads| then threads[ph.i].pc else Run
  }

  function StepsLeft(s: State, c: nat): int
    requires c < |s.cpus|
  {
    Ahead(s.cpus[c].phase, PcOf(s.cpus[c].phase, s.threads), |s.procs|)
  }

  lemma LeftBounds(s: State, c: nat)
    requires Shape(s) && c < |s.cpus|
    ensures 0 <= StepsLeft(s, c) <= |s.procs| * PER_SLOT + 1
  {
    assert PhaseOk(s.cpus[c], |s.procs|);
  }

  /** A step of the scheduler. */
  lemma SchedStepLeft(s: State, c: nat, st: SchedStep)
    requires Inv(s) && s.lock == Some(c) && CanSched(s, c, st)
    ensures c < |s.cpus| && |SchedNext(s, c, st).cpus| == |s.cpus|
    ensures SchedNext(s, c, st).lock == Some(c) ==> StepsLeft(SchedNext(s, c, st), c) < StepsLeft(s, c)
  {
    hide ThreadsInv, JobsInv, TreeInv, PidsInv;
    assert CpuInv(s.cpus[c], c, s.lock, s.procs, s.threads, s.on);
    if st.SwitchIn? {
      ChosenCame(s, c);
    }
  }

  /** A step of the process that c executes. */
  lemma ThreadStepLeft(s: State, c: nat, p: nat, th: ThreadStep)
    requires Inv(s) && s.lock == Some(c) && Executing(s, c, p) && CanThread(s, p, th)
    ensures |ThreadNext(s, c, p, th).cpus| == |s.cpus|
    ensures ThreadNext(s, c, p, th).lock == Some(c) ==> StepsLeft(ThreadNext(s, c, p, th), c) < StepsLeft(s, c)
  {
    hide ThreadsInv, TreeInv, PidsInv, HasZombieChild, HasChild, FirstZombie, FirstPid, FirstUnused, JobsInv;
    assert CpuInv(s.cpus[c], c, s.lock, s.procs, s.threads, s.on);
  }

  /** The others neither take the lock nor set the holder back. */
  lemma OthersLeave(s: State, e: Event, c: nat)
    requires Inv(s) && s.lock == Some(c) && c < |s.cpus| && Enabled(s, e) && !OfCpu(e, c)
    ensures |Next(s, e).cpus| == |s.cpus| && Next(s, e).lock == s.lock && StepsLeft(Next(s, e), c) == StepsLeft(s, c)
  {
    hide ThreadsInv, TreeInv, PidsInv, HasZombieChild, HasChild, FirstZombie, FirstPid, FirstUnused, JobsInv, ProcsAfter;
    assert CpuInv(s.cpus[c], c, s.lock, s.procs, s.threads, s.on);
    assert CpuInv(s.cpus[e.c], e.c, s.lock, s.procs, s.threads, s.on);
  }

  lemma HolderStep(s: State, e: Event, c: nat)
    requires Inv(s) && s.lock == Some(c) && c < |s.cpus| && Enabled(s, e)
    ensures |Next(s, e).cpus| == |s.cpus|
    ensures Next(s, e).lock == Some(c) ==> StepsLeft(Next(s, e), c) <= StepsLeft(s, c) - if OfCpu(e, c) then 1 else 0
  {
    hide Inv, StepsLeft, SchedNext, ThreadNext, CanSched, CanThread;
    InvShape(s);
    if !OfCpu(e, c) {
      OthersLeave(s, e, c);
    } else if e.Sched? {
      SchedStepLeft(s, c, e.st);
    } else {
      ThreadStepLeft(s, c, s.cpus[c].phase.i, e.th);
    }
  }

  /** The steps of CPU c in a run. */
  function StepsOf(es: seq<Event>, c: nat): nat
  {
    if es == [] then 0 else (if OfCpu(es[0], c) then 1 else 0) + StepsOf(es[1..], c)
  }

  /** c holds ptable.lock from the beginning of the run to its end. */
  ghost predicate HeldThroughout(s: State, es: seq<Event>, c: nat)
    decreases |es|
  {
    s.lock == Some(c) && (es == [] || (Shape(s) && Enabled(s, es[0]) && HeldThroughout(Next(s, es[0]), es[1..], c)))
  }

  lemma {:induction false} HeldSteps(s: State, es: seq<Event>, s': State, c: nat)
    requires Inv(s) && Leads(s, es, s') && HeldThroughout(s, es, c) && c < |s.cpus|
    ensures StepsOf(es, c) <= StepsLeft(s, c)
    decreases |es|
  {
    hide Inv, Next, Enabled, StepsLeft;
    InvShape(s);
    LeftBounds(s, c);
    if es != [] {
      StepInv(s, es[0]);
      HolderStep(s, es[0], c);
      HeldSteps(Next(s, es[0]), es[1..], s', c);
    }
  }

  /** In every run: while a CPU keeps ptable.lock it takes at most 10 * NPROC + 1 steps, whatever the others do; and it can always
      take one (ProcCalls.NeverStuck).  So nobody waits for the lock for ever if the holder is not stopped. */
  lemma LockGivenUp(s0: State, es: seq<Event>, s: State, more: seq<Event>, t: State, c: nat)
    requires Booted(s0) && Leads(s0, es, s) && Leads(s, more, t) && HeldThroughout(s, more, c)
    ensures StepsOf(more, c) <= |s.procs| * PER_SLOT + 1
  {
    hide Leads, Booted, StepsLeft, StepsOf, JobsInv, TreeInv, PidsInv, ThreadsInv;
    BootInv(s0);
    RunInv(s0, es, s);
    HeldSteps(s, more, t, c);
    LeftBounds(s, c);
  }
}
