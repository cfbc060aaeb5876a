/**
 The calls of a process: what its thread is in the middle of, how wait ends, and that the loops over
 the table compute the steps that the machine takes under ptable.lock.
 */
module ProcCalls {
  import opened Common
  import opened ProcTable
  import opened ProcMachine
  import opened ProcInvariant
  import opened ProcSteps
  import opened ProcTree
  import opened ProcLife

  // ---- What a thread is doing ----

  datatype Call = Outside | InYield | InSleep | InWait | InExit

  function Doing(pc: Pc): Call
  {
    match pc
    case Run => Outside
    case Leave(why) => CallOf(why)
    case Came(why) => CallOf(why)
    case ExitMark => InExit
    case WaitLoop => InWait
  }

  function CallOf(why: Reason): Call
  {
    match why
    case Yielding => InYield
    case Sleeping => InSleep
    case Waiting => InWait
    case Dying => InExit
  }

  /** How a step of its own moves a process between its calls: only a child or its absence ends wait, and nothing ends exit. */
  function Then(now: Call, th: ThreadStep): Call
  {
    match th
    case Yield => InYield
    case Sleep(_) => InSleep
    case WaitStart => InWait
    case Exit => InExit
    case WaitReap(_) => Outside
    case WaitNone => Outside
    case Resume => if now == InYield || now == InSleep then Outside else now
    case _ => now
  }

  lemma CallLaw(s: State, e: Event, p: nat)
    requires Inv(s) && Enabled(s, e) && p < |s.procs| && Active(s.procs[p])
    ensures p < |Next(s, e).threads|
    ensures var now, after := Doing(s.threads[p].pc), Doing(Next(s, e).threads[p].pc);
      after == if By(s, e, p) then Then(now, e.th) else now
  {
    hide ThreadsInv, TreeInv, PidsInv, HasZombieChild, HasChild, ProcsAfter;
    if e.InThread? {
      assert JobInv(s.procs, s.threads, s.maker, s.cpus[e.c].phase.i);
      assert CpuInv(s.cpus[e.c], e.c, s.lock, s.procs, s.threads, s.on);
    }
  }

  // ---- Nobody gets stuck ----

  /** Event e is a step of CPU c. */
  predicate OfCpu(e: Event, c: nat) {
    (e.Sched? || e.InThread?) && e.c == c
  }

  /** In every reachable state a CPU can take a step unless another CPU holds ptable.lock. */
  lemma NeverStuck(s0: State, es: seq<Event>, s: State, c: nat)
    requires Booted(s0) && Leads(s0, es, s) && c < |s.cpus| && (s.lock == None || s.lock == Some(c))
    ensures |s.threads| == |s.procs| && exists e :: OfCpu(e, c) && Enabled(s, e)
  {
    hide Inv, Leads, Booted, Enabled;
    BootInv(s0);
    RunInv(s0, es, s);
    InvShape(s);
    var e := StepOf(s, c);
    assert OfCpu(e, c) && Enabled(s, e);
  }

  lemma StepOf(s: State, c: nat) returns (e: Event)
    requires Inv(s) && c < |s.cpus| && (s.lock == None || s.lock == Some(c))
    ensures OfCpu(e, c) && Enabled(s, e)
  {
    hide ThreadsInv, JobsInv, TreeInv, PidsInv, CanThread;
    assert CpuInv(s.cpus[c], c, s.lock, s.procs, s.threads, s.on);
    match s.cpus[c].phase
    case Idle => e := Sched(c, Acquire);
    case Scan(i) => e := Sched(c, if i == |s.procs| then Release else if s.procs[i].state == RUNNABLE then Choose else Skip);
    case Chose(_) => e := Sched(c, MapIn);
    case Mapped(_) => e := Sched(c, Mark);
    case Marked(_) => e := Sched(c, SwitchIn);
    case Left(_) => e := Sched(c, MapOut);
    case Unmapped(_) => e := Sched(c, Clear);
    case InProc(p) =>
      var th := StepIn(s, p);
      e := InThread(c, th);
  }

  lemma StepIn(s: State, p: nat) returns (th: ThreadStep)
    requires |s.threads| == |s.procs| && p < |s.procs| && (s.threads[p].pc == Run ==> s.lock == None)
    ensures CanThread(s, p, th)
  {
    hide HasZombieChild, HasChild, FirstZombie;
    match s.threads[p].pc
    case Run => th := Yield;
    case Leave(_) => th := SwitchOut;
    case Came(_) => th := Resume;
    case ExitMark => th := ExitZombie;
    case WaitLoop => th := WaitStep(s, p);
  }

  lemma WaitStep(s: State, p: nat) returns (th: ThreadStep)
    requires |s.threads| == |s.procs| && p < |s.procs| && s.threads[p].pc == WaitLoop
    ensures CanThread(s, p, th)
  {
    WaitDecides(s, p);
    if CanThread(s, p, WaitNone) {
      th := WaitNone;
    } else if CanThread(s, p, WaitSleep) {
      th := WaitSleep;
    } else {
      var i: nat :| CanThread(s, p, WaitReap(i));
      th := WaitReap(i);
    }
  }

  /** With the lock free, a process outside its calls can be preempted, also inside fork, and can make any call when it
      is not in fork; killed or not. */
  lemma AnyCall(s: State, p: nat, ch: Chan)
    requires |s.threads| == |s.procs| && p < |s.procs| && s.lock == None && Doing(s.threads[p].pc) == Outside
    ensures CanThread(s, p, Yield)
    ensures s.threads[p].job == Nothing ==> CanThread(s, p, Sleep(ch)) && CanThread(s, p, WaitStart)
    ensures s.threads[p].job == Nothing && p != s.init && s.procs[p].parent.Some? ==> CanThread(s, p, Exit)
    ensures s.threads[p].job.NoStack? && s.threads[p].job.np < |s.procs| ==> CanThread(s, p, GotStack) && CanThread(s, p, GiveUp)
    ensures s.threads[p].job.NoParent? && s.threads[p].job.np < |s.procs| ==> CanThread(s, p, SetParent) && CanThread(s, p, GiveUp)
    ensures s.threads[p].job.Ready? && s.threads[p].job.np < |s.procs| ==> CanThread(s, p, ForkDone)
  {
  }

  // ---- How wait ends ----

  /** At the head of its loop, wait has exactly one way to go on: with the first zombie child, with -1, or asleep. */
  lemma WaitDecides(s: State, p: nat)
    requires |s.threads| == |s.procs| && p < |s.procs| && s.threads[p].pc == WaitLoop
    ensures CanThread(s, p, WaitNone) <==> !(exists i: nat :: CanThread(s, p, WaitReap(i))) && !CanThread(s, p, WaitSleep)
    ensures CanThread(s, p, WaitSleep) ==> !exists i: nat :: CanThread(s, p, WaitReap(i))
    ensures forall i: nat, j: nat :: CanThread(s, p, WaitReap(i)) && CanThread(s, p, WaitReap(j)) ==> i == j
  {
    if HasZombieChild(s.procs, p, |s.procs|) {
      var i := FirstOne(s.procs, p, |s.procs|);
      assert CanThread(s, p, WaitReap(i));
    }
  }

  lemma {:induction false} FirstOne(procs: seq<Proc>, p: nat, n: nat) returns (i: nat)
    requires n <= |procs| && HasZombieChild(procs, p, n)
    ensures FirstZombie(procs, p, i)
  {
    if HasZombieChild(procs, p, n - 1) {
      i := FirstOne(procs, p, n - 1);
    } else {
      i := n - 1;
    }
  }

  lemma ReapedStep(s: State, e: Event)
    requires Shape(s) && Enabled(s, e)
    ensures s.reaped <= Next(s, e).reaped
    ensures e.InThread? && e.th.WaitReap? ==> e.th.i < |s.procs| && s.procs[e.th.i].pid in Next(s, e).reaped
  {
    if e.InThread? && e.th.WaitReap? {
      assert Next(s, e).reaped[|s.reaped|] == s.procs[e.th.i].pid;
    }
  }

  lemma {:induction false} ReapedGrows(s: State, es: seq<Event>, s': State)
    requires Leads(s, es, s')
    ensures s.reaped <= s'.reaped
    decreases |es|
  {
    hide Next, Enabled, Shape;
    if es != [] {
      ReapedStep(s, es[0]);
      ReapedGrows(Next(s, es[0]), es[1..], s');
    }
  }

  /** In every run: what wait has returned for one child it returns for no other, ever after. */
  lemma ReportedOnce(s0: State, es: seq<Event>, s: State, c: nat, i: nat, more: seq<Event>, t: State, d: nat, j: nat)
    requires Booted(s0) && Leads(s0, es, s) && Shape(s) && Enabled(s, InThread(c, WaitReap(i)))
    requires Leads(Next(s, InThread(c, WaitReap(i))), more, t) && Shape(t) && Enabled(t, InThread(d, WaitReap(j)))
    ensures i < |s.procs| && j < |t.procs| && t.procs[j].pid != s.procs[i].pid
  {
    hide Leads, Booted, Next, CpusInv, ThreadsInv, JobsInv, TreeInv;
    BootInv(s0);
    RunInv(s0, es, s);
    StepInv(s, InThread(c, WaitReap(i)));
    RunInv(Next(s, InThread(c, WaitReap(i))), more, t);
    ReapedStep(s, InThread(c, WaitReap(i)));
    ReapedGrows(Next(s, InThread(c, WaitReap(i))), more, t);
  }

  // ---- The code takes the machine's steps ----

  method KillIsStep(t: Table, ghost s: State, ghost p: nat, pid: nat) returns (found: bool)
    requires t.procs[..] == s.procs && |s.threads| == |s.procs| && p < |s.procs| && s.threads[p].pc == Run && s.lock == None
    modifies t.procs
    ensures found <==> exists i: nat :: CanThread(s, p, Kill(pid, i))
    ensures forall i: nat :: CanThread(s, p, Kill(pid, i)) ==> t.procs[..] == ProcsAfter(s, p, Kill(pid, i))
    ensures !found ==> t.procs[..] == s.procs
  {
    found := t.Kill(pid);
    if found {
      ghost var k: nat :| FirstPid(s.procs, pid, k) && t.procs[..] == s.procs[k := t.procs[..][k]] && IsKilled(s.procs[k], t.procs[..][k]);
      assert CanThread(s, p, Kill(pid, k));
      assert t.procs[..][k] == KilledProc(s.procs[k]);
    }
  }

  method AllocIsStep(t: Table, ghost s: State, ghost p: nat) returns (r: Option<nat>)
    requires t.procs[..] == s.procs && t.nextpid == s.nextpid && |s.threads| == |s.procs| && p < |s.procs|
    requires s.threads[p] == Thread(Run, Nothing) && s.lock == None
    modifies t.procs, t`nextpid
    ensures r.Some? <==> exists i: nat :: CanThread(s, p, Alloc(i))
    ensures r.Some? ==> CanThread(s, p, Alloc(r.value)) && t.procs[..] == ProcsAfter(s, p, Alloc(r.value)) && t.nextpid == s.nextpid + 1
    ensures r.None? ==> t.procs[..] == s.procs && t.nextpid == s.nextpid
  {
    r := t.AllocProc();
    assert r.Some? ==> CanThread(s, p, Alloc(r.value));
  }

  method ExitIsStep(t: Table, ghost s: State, p: nat)
    requires t.procs[..] == s.procs && t.init == s.init && |s.threads| == |s.procs| && p < |s.procs| && CanThread(s, p, Exit)
    modifies t.procs
    ensures t.procs[..] == ProcsAfter(s, p, Exit)
  {
    assert t.procs[p] == s.procs[p];
    t.PassChildren(p);
  }

  method WaitIsStep(t: Table, ghost s: State, p: nat) returns (r: WaitResult)
    requires t.procs[..] == s.procs && |s.threads| == |s.procs| && p < |s.procs| && s.threads[p].pc == WaitLoop
    modifies t.procs
    ensures r.NoChild? <==> CanThread(s, p, WaitNone)
    ensures r.MustSleep? <==> CanThread(s, p, WaitSleep)
    ensures !r.Reaped? ==> t.procs[..] == s.procs
    ensures r.Reaped? ==> exists i: nat :: CanThread(s, p, WaitReap(i)) && t.procs[..] == ProcsAfter(s, p, WaitReap(i)) && r.pid == s.procs[i].pid
  {
    assert t.procs[p] == s.procs[p];
    r := t.WaitScan(p);
    if r.Reaped? {
      ghost var k: nat :| FirstZombie(s.procs, p, k) && r.pid == s.procs[k].pid && t.procs[..] == s.procs[k := t.procs[..][k]]
                          && IsFreed(s.procs[k], t.procs[..][k]);
      assert CanThread(s, p, WaitReap(k));
      assert t.procs[..][k] == Cleared(s.procs[k]);
    }
  }
}
