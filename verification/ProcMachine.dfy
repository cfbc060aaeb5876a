/**
 proc.c as a machine whose steps are taken by any number of CPUs in any order.  A CPU is either in
 scheduler(), with or without ptable.lock, or executes the kernel thread of one process.  A section
 under the lock that only loops over the table is one step; the switch into and out of a process
 is split into its single stores, because another CPU may look in between.
 */
module ProcMachine {
  import opened Common
  import opened ProcTable

  /** Why a thread has called sched(), which is also where it goes on afterwards. */
  datatype Reason = Yielding | Sleeping | Waiting | Dying

  datatype Pc =
    | Run                      // ptable.lock not held by this thread
    | Leave(why: Reason)       // state changed, lock held, about to swtch to the scheduler
    | Came(why: Reason)        // swtch has returned or will return here, with the lock
    | ExitMark                 // exit: lock held, children passed on
    | WaitLoop                 // wait: lock held, about to scan

  /** How far fork has come with the slot that it is filling. */
  datatype Job = Nothing | NoStack(np: nat) | NoParent(np: nat) | Ready(np: nat)

  datatype Thread = Thread(pc: Pc, job: Job)

  /** i is the scheduler's loop variable p. */
  datatype Phase =
    | Idle                     // between two rounds, lock not held
    | Scan(i: nat)             // about to look at slot i
    | Chose(i: nat)            // c->proc = p
    | Mapped(i: nat)           // switchuvm(p)
    | Marked(i: nat)           // p->state = RUNNING
    | InProc(i: nat)           // swtch has gone to p
    | Left(i: nat)             // swtch has come back
    | Unmapped(i: nat)         // switchkvm()

  /** The process, the page table and the kernel stack that a CPU uses. */
  datatype Cpu = Cpu(phase: Phase, proc: Option<nat>, pgdir: Option<nat>, stack: Option<nat>)

  /** on[i] records the CPU whose c->proc is slot i, maker[i] the process that is filling slot i. */
  datatype State = State(procs: seq<Proc>, threads: seq<Thread>, cpus: seq<Cpu>, lock: Option<nat>, nextpid: nat, init: nat,
                         reaped: seq<nat>, on: seq<Option<nat>>, maker: seq<nat>)

  /** One store of scheduler(). */
  datatype SchedStep = Acquire | Skip | Release | Choose | MapIn | Mark | SwitchIn | MapOut | Clear

  /** One step of the process that a CPU executes. */
  datatype ThreadStep =
    | SwitchOut | Resume | Yield | Sleep(ch: Chan) | Kill(pid: nat, i: nat)
    | Alloc(i: nat) | GotStack | GiveUp | SetParent | ForkDone
    | Exit | ExitZombie
    | WaitStart | WaitReap(i: nat) | WaitNone | WaitSleep

  datatype Event = Sched(c: nat, st: SchedStep) | InThread(c: nat, th: ThreadStep) | Wakeup(ch: Chan)

  // ---- Shape ----

  predicate Shape(s: State) {
    && |s.threads| == |s.procs| == |s.on| == |s.maker| && s.init < |s.procs|
    && forall c :: 0 <= c < |s.cpus| ==> PhaseOk(s.cpus[c], |s.procs|)
  }

  /** What a CPU uses, phase by phase. */
  predicate PhaseOk(u: Cpu, n: nat) {
    match u.phase
    case Idle => u.proc == u.pgdir == u.stack == None
    case Scan(i) => i <= n && u.proc == u.pgdir == u.stack == None
    case Chose(i) => i < n && u.proc == Some(i) && u.pgdir == u.stack == None
    case Mapped(i) => i < n && u.proc == u.pgdir == Some(i) && u.stack == None
    case Marked(i) => i < n && u.proc == u.pgdir == Some(i) && u.stack == None
    case InProc(i) => i < n && u.proc == u.pgdir == u.stack == Some(i)
    case Left(i) => i < n && u.proc == u.pgdir == Some(i) && u.stack == None
    case Unmapped(i) => i < n && u.proc == Some(i) && u.pgdir == u.stack == None
  }

  // ---- Steps of the scheduler ----

  predicate CanSched(s: State, c: nat, st: SchedStep) {
    && c < |s.cpus|
    && var ph := s.cpus[c].phase;
       match st
       case Acquire => ph == Idle && s.lock == None
       case Skip => ph.Scan? && ph.i < |s.procs| && s.procs[ph.i].state != RUNNABLE
       case Release => ph == Scan(|s.procs|)
       case Choose => ph.Scan? && ph.i < |s.procs| && s.procs[ph.i].state == RUNNABLE
       case MapIn => ph.Chose?
       case Mark => ph.Mapped?
       case SwitchIn => ph.Marked?
       case MapOut => ph.Left?
       case Clear => ph.Unmapped?
  }

  function Moved(u: Cpu, st: SchedStep): Cpu
    requires st.Acquire? || !u.phase.Idle?
  {
    match st
    case Acquire => u.(phase := Scan(0))
    case Skip => u.(phase := Scan(u.phase.i + 1))
    case Release => u.(phase := Idle)
    case Choose => u.(phase := Chose(u.phase.i), proc := Some(u.phase.i))
    case MapIn => u.(phase := Mapped(u.phase.i), pgdir := Some(u.phase.i))
    case Mark => u.(phase := Marked(u.phase.i))
    case SwitchIn => u.(phase := InProc(u.phase.i), stack := Some(u.phase.i))
    case MapOut => u.(phase := Unmapped(u.phase.i), pgdir := None)
    case Clear => u.(phase := Scan(u.phase.i + 1), proc := None)
  }

  function SchedNext(s: State, c: nat, st: SchedStep): State
    requires Shape(s) && CanSched(s, c, st)
  {
    var u := s.cpus[c];
    s.(cpus := s.cpus[c := Moved(u, st)],
       lock := if st.Acquire? then Some(c) else if st.Release? then None else s.lock,
       procs := if st.Mark? then s.procs[u.phase.i := s.procs[u.phase.i].(state := RUNNING)] else s.procs,
       on := if st.Choose? then s.on[u.phase.i := Some(c)] else if st.Clear? then s.on[u.phase.i := None] else s.on)
  }

  // ---- Steps of a process ----

  /** Process p is executed by some CPU and takes step th. */
  predicate CanThread(s: State, p: nat, th: ThreadStep)
    requires |s.threads| == |s.procs| && p < |s.procs|
  {
    var t := s.threads[p];
    match th
    case SwitchOut => t.pc.Leave?
    case Resume => t.pc.Came?
    case Yield => t.pc == Run && s.lock == None
    case Sleep(_) => t == Thread(Run, Nothing) && s.lock == None
    case Kill(pid, i) => t.pc == Run && s.lock == None && FirstPid(s.procs, pid, i)
    case Alloc(i) => t == Thread(Run, Nothing) && s.lock == None && FirstUnused(s.procs, i)
    case GotStack => t.pc == Run && t.job.NoStack? && t.job.np < |s.procs|
    case GiveUp => t.pc == Run && (t.job.NoStack? || t.job.NoParent?) && t.job.np < |s.procs|
    case SetParent => t.pc == Run && t.job.NoParent? && t.job.np < |s.procs|
    case ForkDone => t.pc == Run && t.job.Ready? && t.job.np < |s.procs| && s.lock == None
    case Exit => t == Thread(Run, Nothing) && s.lock == None && p != s.init && s.procs[p].parent.Some?
    case ExitZombie => t.pc == ExitMark
    case WaitStart => t == Thread(Run, Nothing) && s.lock == None
    case WaitReap(i) => t.pc == WaitLoop && FirstZombie(s.procs, p, i)
    case WaitNone => t.pc == WaitLoop && !HasZombieChild(s.procs, p, |s.procs|) && (!HasChild(s.procs, p) || s.procs[p].killed)
    case WaitSleep => t.pc == WaitLoop && !HasZombieChild(s.procs, p, |s.procs|) && HasChild(s.procs, p) && !s.procs[p].killed
  }

  /** Where p's thread stands after the step. */
  function PcAfter(t: Thread, th: ThreadStep): Pc
  {
    match th
    case SwitchOut => if t.pc.Leave? then Came(t.pc.why) else t.pc
    case Resume => if t.pc == Came(Waiting) then WaitLoop else if t.pc == Came(Dying) then t.pc else Run
    case Yield => Leave(Yielding)
    case Sleep(_) => Leave(Sleeping)
    case Exit => ExitMark
    case ExitZombie => Leave(Dying)
    case WaitStart => WaitLoop
    case WaitSleep => Leave(Waiting)
    case _ => Run
  }

  function JobAfter(t: Thread, th: ThreadStep): Job
  {
    match th
    case Alloc(i) => NoStack(i)
    case GotStack => if t.job.NoStack? then NoParent(t.job.np) else t.job
    case SetParent => if t.job.NoParent? then Ready(t.job.np) else t.job
    case GiveUp => Nothing
    case ForkDone => Nothing
    case _ => t.job
  }

  /** What the step stores into the table. */
  function ProcsAfter(s: State, p: nat, th: ThreadStep): (procs: seq<Proc>)
    requires |s.threads| == |s.procs| && p < |s.procs| && CanThread(s, p, th)
    ensures |procs| == |s.procs|
  {
    var me, job := s.procs[p], s.threads[p].job;
    match th
    case Resume => if s.threads[p].pc.why == Sleeping || s.threads[p].pc.why == Waiting then s.procs[p := me.(chan := Null)] else s.procs
    case Yield => s.procs[p := me.(state := RUNNABLE)]
    case Sleep(ch) => s.procs[p := me.(state := SLEEPING, chan := ch)]
    case Kill(pid, i) => s.procs[i := KilledProc(s.procs[i])]
    case Alloc(i) => s.procs[i := s.procs[i].(state := EMBRYO, pid := s.nextpid)]
    case GotStack => s.procs[job.np := s.procs[job.np].(hasStack := true)]
    case GiveUp => s.procs[job.np := s.procs[job.np].(state := UNUSED, hasStack := false)]
    case SetParent => s.procs[job.np := s.procs[job.np].(parent := Some(p))]
    case ForkDone => s.procs[job.np := s.procs[job.np].(state := RUNNABLE)]
    case Exit => Reparented(Woken(s.procs, OfProc(me.parent.value)), p, s.init)
    case ExitZombie => s.procs[p := me.(state := ZOMBIE)]
    case WaitReap(i) => s.procs[i := Cleared(s.procs[i])]
    case WaitSleep => s.procs[p := me.(state := SLEEPING, chan := OfProc(p))]
    case _ => s.procs
  }

  predicate Takes(th: ThreadStep) {
    th.Yield? || th.Sleep? || th.Exit? || th.WaitStart?
  }

  /** A thread lets ptable.lock go whenever a step takes it from inside a section to outside. */
  predicate Drops(t: Thread, th: ThreadStep) {
    t.pc != Run && PcAfter(t, th) == Run
  }

  function ThreadNext(s: State, c: nat, p: nat, th: ThreadStep): State
    requires Shape(s) && c < |s.cpus| && p < |s.procs| && CanThread(s, p, th)
  {
    var t := s.threads[p];
    var mine := s.threads[p := Thread(PcAfter(t, th), JobAfter(t, th))];
    s.(procs := ProcsAfter(s, p, th),
       threads := if th.ForkDone? then mine[t.job.np := Thread(Came(Yielding), Nothing)] else mine,
       cpus := if th.SwitchOut? then s.cpus[c := s.cpus[c].(phase := Left(p), stack := None)] else s.cpus,
       lock := if Takes(th) then Some(c) else if Drops(t, th) then None else s.lock,
       nextpid := if th.Alloc? then s.nextpid + 1 else s.nextpid,
       maker := if th.Alloc? then s.maker[th.i := p] else s.maker,
       reaped := if th.WaitReap? then s.reaped + [s.procs[th.i].pid] else s.reaped)
  }

  // ---- All steps ----

  predicate Enabled(s: State, e: Event)
    requires |s.threads| == |s.procs|
  {
    match e
    case Sched(c, st) => CanSched(s, c, st)
    case InThread(c, th) => c < |s.cpus| && s.cpus[c].phase.InProc? && s.cpus[c].phase.i < |s.procs| && CanThread(s, s.cpus[c].phase.i, th)
    case Wakeup(_) => s.lock == None
  }

  function Next(s: State, e: Event): State
    requires Shape(s) && Enabled(s, e)
  {
    match e
    case Sched(c, st) => SchedNext(s, c, st)
    case InThread(c, th) => ThreadNext(s, c, s.cpus[c].phase.i, th)
    case Wakeup(ch) => s.(procs := Woken(s.procs, ch))
  }
}
