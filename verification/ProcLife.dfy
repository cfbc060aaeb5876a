/**
 What happens to a slot of the process table, read off the events of a run: who has killed it, which
 pid it has, and which step takes it from one state to the next.
 */
module ProcLife {
  import opened Common
  import opened ProcTable
  import opened ProcMachine
  import opened ProcInvariant
  import opened ProcSteps
  import opened ProcTree

  lemma {:induction false} LeadsSplit(s: State, es: seq<Event>, e: Event, s': State)
    requires Leads(s, es + [e], s')
    ensures exists m :: Leads(s, es, m) && Shape(m) && Enabled(m, e) && s' == Next(m, e)
    decreases |es|
  {
    hide Next, Enabled;
    if es == [] {
      assert [] + [e] == [e] && [e][1..] == [];
      assert Leads(s, [], s);
    } else {
      assert (es + [e])[1..] == es[1..] + [e];
      LeadsSplit(Next(s, es[0]), es[1..], e, s');
      var m :| Leads(Next(s, es[0]), es[1..], m) && Shape(m) && Enabled(m, e) && s' == Next(m, e);
      assert Leads(s, es, m);
    }
  }

  // ---- killed and pid ----

  predicate Kills(e: Event, i: nat) {
    e.InThread? && e.th.Kill? && e.th.i == i
  }

  predicate Reaps(e: Event, i: nat) {
    e.InThread? && e.th.WaitReap? && e.th.i == i
  }

  predicate Fills(e: Event, i: nat) {
    e.InThread? && e.th.Alloc? && e.th.i == i
  }

  /** Slot i has been hit by a kill since boot or since it was last reaped. */
  predicate KilledSince(es: seq<Event>, i: nat) {
    if es == [] then false
    else
      var e := es[|es| - 1];
      Kills(e, i) || (!Reaps(e, i) && KilledSince(es[..|es| - 1], i))
  }

  function Allocs(es: seq<Event>): nat
  {
    if es == [] then 0 else Allocs(es[..|es| - 1]) + if es[|es| - 1].InThread? && es[|es| - 1].th.Alloc? then 1 else 0
  }

  /** The pid of slot i: that of its latest allocproc, in the order of all of them, and 0 once it is reaped. */
  function PidSince(es: seq<Event>, i: nat, boot: nat): nat
  {
    if es == [] then boot
    else
      var front, e := es[..|es| - 1], es[|es| - 1];
      if Fills(e, i) then 2 + Allocs(front) else if Reaps(e, i) then 0 else PidSince(front, i, boot)
  }

  lemma FieldsStep(s: State, e: Event, i: nat)
    requires Shape(s) && Enabled(s, e) && i < |s.procs|
    ensures var s' := Next(s, e);
      && |s'.procs| == |s.procs|
      && s'.procs[i].killed == (Kills(e, i) || (!Reaps(e, i) && s.procs[i].killed))
      && s'.procs[i].pid == (if Fills(e, i) then s.nextpid else if Reaps(e, i) then 0 else s.procs[i].pid)
      && s'.nextpid == s.nextpid + if e.InThread? && e.th.Alloc? then 1 else 0
  {
  }

  ghost predicate HistoryOk(s: State, es: seq<Event>, i: nat, boot: nat) {
    && i < |s.procs| && s.nextpid == 2 + Allocs(es)
    && (s.procs[i].killed <==> KilledSince(es, i)) && s.procs[i].pid == PidSince(es, i, boot)
  }

  lemma HistoryStep(s: State, es: seq<Event>, e: Event, i: nat, boot: nat)
    requires HistoryOk(s, es, i, boot) && Shape(s) && Enabled(s, e)
    ensures HistoryOk(Next(s, e), es + [e], i, boot)
  {
    hide Next, Enabled, Shape;
    FieldsStep(s, e, i);
    assert (es + [e])[..|es|] == es;
  }

  lemma {:induction false} HistoryRun(s0: State, es: seq<Event>, s: State, i: nat)
    requires Booted(s0) && Leads(s0, es, s) && i < |s0.procs|
    ensures HistoryOk(s, es, i, if i == s0.init then 1 else 0)
    decreases |es|
  {
    hide HistoryOk, Next, Enabled, Leads, Booted;
    if es == [] {
      HistoryStart(s0, es, s, i);
    } else {
      var front, e := es[..|es| - 1], es[|es| - 1];
      assert es == front + [e];
      LeadsSplit(s0, front, e, s);
      var m :| Leads(s0, front, m) && Shape(m) && Enabled(m, e) && s == Next(m, e);
      HistoryRun(s0, front, m, i);
      HistoryStep(m, front, e, i, if i == s0.init then 1 else 0);
    }
  }

  lemma HistoryStart(s0: State, es: seq<Event>, s: State, i: nat)
    requires Booted(s0) && es == [] && Leads(s0, es, s) && i < |s0.procs|
    ensures HistoryOk(s, es, i, if i == s0.init then 1 else 0)
  {
  }

  /** In every run: a slot is marked killed exactly if a kill has hit it since boot or since it was last reaped. */
  lemma KilledLaw(s0: State, es: seq<Event>, s: State, i: nat)
    requires Booted(s0) && Leads(s0, es, s) && i < |s0.procs|
    ensures i < |s.procs| && (s.procs[i].killed <==> KilledSince(es, i))
  {
    hide Leads, KilledSince, PidSince, Allocs, Booted;
    HistoryRun(s0, es, s, i);
  }

  /** In every run: pids are handed out in order, and a slot has the one of its latest allocproc, or 0 once it is reaped. */
  lemma PidLaw(s0: State, es: seq<Event>, s: State, i: nat)
    requires Booted(s0) && Leads(s0, es, s) && i < |s0.procs|
    ensures i < |s.procs| && s.nextpid == 2 + Allocs(es) && s.procs[i].pid == PidSince(es, i, if i == s0.init then 1 else 0)
  {
    hide Leads, KilledSince, PidSince, Allocs, Booted;
    HistoryRun(s0, es, s, i);
  }

  /** The child that fork makes RUNNABLE starts out killed exactly if a kill hit its slot, free or not, since it was reaped. */
  lemma BornKilledExactly(s0: State, es: seq<Event>, s: State, c: nat)
    requires Booted(s0) && Leads(s0, es, s) && Shape(s) && Enabled(s, InThread(c, ForkDone))
    ensures var np := s.threads[s.cpus[c].phase.i].job.np;
      && np < |s.procs| && Next(s, InThread(c, ForkDone)).procs[np].state == RUNNABLE
      && (Next(s, InThread(c, ForkDone)).procs[np].killed <==> KilledSince(es, np))
  {
    hide Leads, KilledSince, Booted;
    var np := s.threads[s.cpus[c].phase.i].job.np;
    SameSize(s0, es, s);
    KilledLaw(s0, es, s, np);
  }

  lemma {:induction false} SameSize(s: State, es: seq<Event>, s': State)
    requires Leads(s, es, s')
    ensures |s'.procs| == |s.procs|
    decreases |es|
  {
    hide Next, Enabled, Shape;
    if es != [] {
      SizeStep(s, es[0]);
      SameSize(Next(s, es[0]), es[1..], s');
    }
  }

  lemma SizeStep(s: State, e: Event)
    requires Shape(s) && Enabled(s, e)
    ensures |Next(s, e).procs| == |s.procs|
  {
  }

  // ---- From state to state ----

  /** Step e is taken by process p. */
  predicate By(s: State, e: Event, p: nat) {
    e.InThread? && e.c < |s.cpus| && s.cpus[e.c].phase == InProc(p)
  }

  /** Step e makes the sleepers on ch RUNNABLE: wakeup, or exit of a child, or exit of a process with a zombie child. */
  predicate Wakes(s: State, e: Event, ch: Chan) {
    || e == Wakeup(ch)
    || (e.InThread? && e.th.Exit? && e.c < |s.cpus| && s.cpus[e.c].phase.InProc?
        && var p := s.cpus[e.c].phase.i;
        && p < |s.procs| && s.procs[p].parent.Some?
        && (ch == OfProc(s.procs[p].parent.value) || (ch == OfProc(s.init) && HasZombieChild(s.procs, p, |s.procs|))))
  }

  /** The step that takes slot i out of its state, and the state it goes to. */
  predicate Moves(s: State, e: Event, i: nat, to: PState)
    requires |s.threads| == |s.procs| == |s.maker| && i < |s.procs|
  {
    match s.procs[i].state
    case UNUSED => to == EMBRYO && Fills(e, i)
    case EMBRYO => By(s, e, s.maker[i]) && ((to == UNUSED && e.th.GiveUp?) || (to == RUNNABLE && e.th.ForkDone?))
    case RUNNABLE => to == RUNNING && e.Sched? && e.st.Mark? && e.c < |s.cpus| && s.cpus[e.c].proc == Some(i)
    case RUNNING => By(s, e, i) && ((to == RUNNABLE && e.th.Yield?) || (to == SLEEPING && (e.th.Sleep? || e.th.WaitSleep?)) || (to == ZOMBIE && e.th.ExitZombie?))
    case SLEEPING => to == RUNNABLE && (Kills(e, i) || Wakes(s, e, s.procs[i].chan))
    case ZOMBIE => to == UNUSED && Reaps(e, i) && s.procs[i].parent.Some? && By(s, e, s.procs[i].parent.value)
  }

  lemma SchedMoves(s: State, c: nat, st: SchedStep, i: nat)
    requires Inv(s) && CanSched(s, c, st) && i < |s.procs|
    ensures FollowsLaw(s, Sched(c, st), i, SchedNext(s, c, st).procs[i].state)
  {
    hide ThreadsInv, JobsInv, TreeInv, PidsInv;
    assert CpuInv(s.cpus[c], c, s.lock, s.procs, s.threads, s.on);
  }

  ghost predicate FollowsLaw(s: State, e: Event, i: nat, to: PState)
    requires |s.threads| == |s.procs| == |s.maker| && i < |s.procs|
  {
    if to == s.procs[i].state then forall t :: !Moves(s, e, i, t) else Moves(s, e, i, to)
  }

  /** Steps of a process that change its own slot or none. */
  lemma OwnMoves(s: State, c: nat, p: nat, th: ThreadStep, i: nat)
    requires Inv(s) && Executing(s, c, p) && CanThread(s, p, th) && i < |s.procs|
    requires !th.Kill? && !th.Alloc? && !th.GotStack? && !th.GiveUp? && !th.SetParent? && !th.ForkDone?
    requires !th.Exit? && !th.WaitReap?
    ensures FollowsLaw(s, InThread(c, th), i, ThreadNext(s, c, p, th).procs[i].state)
  {
    hide ThreadsInv, JobsInv, TreeInv, PidsInv, HasZombieChild, HasChild, FirstZombie;
    assert CpuInv(s.cpus[c], c, s.lock, s.procs, s.threads, s.on);
  }

  /** Steps of fork on the slot that it fills. */
  lemma ForkMoves(s: State, c: nat, p: nat, th: ThreadStep, i: nat)
    requires Inv(s) && Executing(s, c, p) && CanThread(s, p, th) && i < |s.procs|
    requires th.Alloc? || th.GotStack? || th.GiveUp? || th.SetParent? || th.ForkDone?
    ensures FollowsLaw(s, InThread(c, th), i, ThreadNext(s, c, p, th).procs[i].state)
  {
    hide ThreadsInv, TreeInv, PidsInv, HasZombieChild, HasChild, FirstZombie;
    assert CpuInv(s.cpus[c], c, s.lock, s.procs, s.threads, s.on);
    assert JobInv(s.procs, s.threads, s.maker, p);
    assert SlotInv(s.procs, s.threads, s.maker, i);
  }

  /** kill and the reaping of a child. */
  lemma OtherMoves(s: State, c: nat, p: nat, th: ThreadStep, i: nat)
    requires Inv(s) && Executing(s, c, p) && CanThread(s, p, th) && i < |s.procs| && (th.Kill? || th.WaitReap?)
    ensures FollowsLaw(s, InThread(c, th), i, ThreadNext(s, c, p, th).procs[i].state)
  {
    hide ThreadsInv, JobsInv, TreeInv, PidsInv, HasZombieChild, HasChild;
    assert CpuInv(s.cpus[c], c, s.lock, s.procs, s.threads, s.on);
  }

  lemma ExitMoves(s: State, c: nat, p: nat, i: nat)
    requires Inv(s) && Executing(s, c, p) && CanThread(s, p, Exit) && i < |s.procs|
    ensures FollowsLaw(s, InThread(c, Exit), i, ThreadNext(s, c, p, Exit).procs[i].state)
  {
    hide ThreadsInv, JobsInv, TreeInv, PidsInv, HasChild;
    assert CpuInv(s.cpus[c], c, s.lock, s.procs, s.threads, s.on);
    var w := ProcTable.Woken(s.procs, OfProc(s.procs[p].parent.value));
    assert HasZombieChild(w, p, |w|) <==> HasZombieChild(s.procs, p, |s.procs|) by {
      ZombiesSame(s.procs, OfProc(s.procs[p].parent.value), p);
    }
  }

  lemma ZombiesSame(procs: seq<Proc>, ch: Chan, p: nat)
    ensures HasZombieChild(ProcTable.Woken(procs, ch), p, |procs|) <==> HasZombieChild(procs, p, |procs|)
  {
    var w := ProcTable.Woken(procs, ch);
    assert forall i :: 0 <= i < |procs| ==> w[i].parent == procs[i].parent && (w[i].state == ZOMBIE <==> procs[i].state == ZOMBIE);
  }

  /** The states of a process: in every reachable state a step takes slot i from its state to another exactly as the law says. */
  lemma Lifecycle(s0: State, es: seq<Event>, s: State, e: Event, i: nat)
    requires Booted(s0) && Leads(s0, es, s) && Shape(s) && Enabled(s, e) && i < |s.procs|
    ensures i < |Next(s, e).procs| && FollowsLaw(s, e, i, Next(s, e).procs[i].state)
  {
    hide Inv, Leads, Booted, FollowsLaw, ThreadNext, SchedNext, CanThread, CanSched;
    BootInv(s0);
    RunInv(s0, es, s);
    SizeStep(s, e);
    match e
    case Sched(c, st) => SchedMoves(s, c, st, i);
    case Wakeup(ch) => WakeMoves(s, ch, i);
    case InThread(c, th) =>
      var p := s.cpus[c].phase.i;
      if th.Kill? || th.WaitReap? {
        OtherMoves(s, c, p, th, i);
      } else if th.Exit? {
        ExitMoves(s, c, p, i);
      } else if th.Alloc? || th.GotStack? || th.GiveUp? || th.SetParent? || th.ForkDone? {
        ForkMoves(s, c, p, th, i);
      } else {
        OwnMoves(s, c, p, th, i);
      }
  }

  lemma WakeMoves(s: State, ch: Chan, i: nat)
    requires Shape(s) && i < |s.procs|
    ensures FollowsLaw(s, Wakeup(ch), i, ProcTable.Woken(s.procs, ch)[i].state)
  {
  }

  // ---- Parents and channels ----

  /** Slot i gets a parent from fork, passes to init when that parent exits, and loses it when it is reaped. */
  lemma ParentLaw(s: State, e: Event, i: nat)
    requires Inv(s) && Enabled(s, e) && i < |s.procs|
    ensures i < |Next(s, e).procs|
    ensures var before, after := s.procs[i].parent, Next(s, e).procs[i].parent;
      && (By(s, e, s.maker[i]) && e.th.SetParent? && s.procs[i].state == EMBRYO ==> after == Some(s.maker[i]))
      && (before.Some? && By(s, e, before.value) && e.th.Exit? ==> after == Some(s.init))
      && (Reaps(e, i) ==> after == None)
      && (after != before ==> Reaps(e, i) || (before.Some? && By(s, e, before.value) && e.th.Exit?) || (By(s, e, s.maker[i]) && e.th.SetParent?))
  {
    hide CpusInv, ThreadsInv, TreeInv, PidsInv, HasZombieChild, HasChild;
    SizeStep(s, e);
    assert SlotInv(s.procs, s.threads, s.maker, i);
    if e.InThread? {
      assert JobInv(s.procs, s.threads, s.maker, s.cpus[e.c].phase.i);
    }
  }

  /** A process sleeps on the channel that it gave, in wait on itself, until it is back from sched. */
  lemma ChanLaw(s: State, e: Event, i: nat)
    requires Shape(s) && Enabled(s, e) && i < |s.procs|
    ensures i < |Next(s, e).procs|
    ensures var before, after := s.procs[i].chan, Next(s, e).procs[i].chan;
      && (By(s, e, i) && e.th.Sleep? ==> after == e.th.ch)
      && (By(s, e, i) && e.th.WaitSleep? ==> after == OfProc(i))
      && (By(s, e, i) && e.th.Resume? && s.threads[i].pc in {Came(Sleeping), Came(Waiting)} ==> after == Null)
      && (after != before ==> By(s, e, i) && (e.th.Sleep? || e.th.WaitSleep? || e.th.Resume?))
  {
    hide HasZombieChild, HasChild;
    SizeStep(s, e);
  }

  // ---- A process that is born killed ----

  function BootState(): State
  {
    var thread := Thread(Came(Yielding), Nothing);
    State([Proc(RUNNABLE, 1, None, Null, false, true), Proc(UNUSED, 0, None, Null, false, false)], [thread, thread],
          [Cpu(Idle, None, None, None)], None, 2, 0, [], [None, None], [0, 0])
  }

  lemma OneMore(s: State, e: Event, es: seq<Event>, s': State)
    requires Shape(s) && Enabled(s, e) && Leads(Next(s, e), es, s')
    ensures Leads(s, [e] + es, s')
  {
    hide Shape, Enabled, Next;
    assert ([e] + es)[1..] == es;
  }

  /** init calls kill(0), which hits a free slot, and then forks: the child is killed before it has run. */
  lemma BornKilled() returns (es: seq<Event>, s: State)
    ensures Booted(BootState()) && Leads(BootState(), es, s)
    ensures |s.procs| == 2 && s.procs[1].state == RUNNABLE && s.procs[1].pid == 2 && s.procs[1].killed
  {
    hide Leads;
    var s0 := BootState();
    var s1 := Next(s0, Sched(0, Acquire));
    var s2 := Next(s1, Sched(0, Choose));
    var s3 := Next(s2, Sched(0, MapIn));
    var s4 := Next(s3, Sched(0, Mark));
    var s5 := Next(s4, Sched(0, SwitchIn));
    var s6 := Next(s5, InThread(0, Resume));
    var rest;
    rest, s := KillThenFork(s6);
    es := rest;
    OneMore(s5, InThread(0, Resume), es, s);
    es := [InThread(0, Resume)] + es;
    OneMore(s4, Sched(0, SwitchIn), es, s);
    es := [Sched(0, SwitchIn)] + es;
    OneMore(s3, Sched(0, Mark), es, s);
    es := [Sched(0, Mark)] + es;
    OneMore(s2, Sched(0, MapIn), es, s);
    es := [Sched(0, MapIn)] + es;
    OneMore(s1, Sched(0, Choose), es, s);
    es := [Sched(0, Choose)] + es;
    OneMore(s0, Sched(0, Acquire), es, s);
    es := [Sched(0, Acquire)] + es;
  }

  lemma KillThenFork(s0: State) returns (es: seq<Event>, s: State)
    requires s0 == State([Proc(RUNNING, 1, None, Null, false, true), Proc(UNUSED, 0, None, Null, false, false)],
                         [Thread(Run, Nothing), Thread(Came(Yielding), Nothing)],
                         [Cpu(InProc(0), Some(0), Some(0), Some(0))], None, 2, 0, [], [Some(0), None], [0, 0])
    ensures Leads(s0, es, s)
    ensures |s.procs| == 2 && s.procs[1].state == RUNNABLE && s.procs[1].pid == 2 && s.procs[1].killed
  {
    hide Leads;
    var s1 := Next(s0, InThread(0, Kill(0, 1)));
    var s2 := Next(s1, InThread(0, Alloc(1)));
    var s3 := Next(s2, InThread(0, GotStack));
    var s4 := Next(s3, InThread(0, SetParent));
    s := Next(s4, InThread(0, ForkDone));
    es := [];
    NoSteps(s);
    OneMore(s4, InThread(0, ForkDone), es, s);
    es := [InThread(0, ForkDone)] + es;
    OneMore(s3, InThread(0, SetParent), es, s);
    es := [InThread(0, SetParent)] + es;
    OneMore(s2, InThread(0, GotStack), es, s);
    es := [InThread(0, GotStack)] + es;
    OneMore(s1, InThread(0, Alloc(1)), es, s);
    es := [InThread(0, Alloc(1))] + es;
    OneMore(s0, InThread(0, Kill(0, 1)), es, s);
    es := [InThread(0, Kill(0, 1))] + es;
  }

  lemma NoSteps(s: State)
    ensures Leads(s, [], s)
  {
  }
}
