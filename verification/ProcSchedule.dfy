/**
 Round robin waits are bounded: while a slot is RUNNABLE and no CPU has chosen it, each CPU chooses
 every other slot at most once, because its scan cannot pass the waiting slot.
 */
module ProcSchedule {
  import opened ProcTable
  import opened ProcMachine
  import opened ProcInvariant
  import opened ProcTree

  /** The slot that CPU u looks at next. */
  function NextSlot(u: Cpu): nat
  {
    match u.phase
    case Idle => 0
    case Scan(i) => i
    case _ => u.phase.i + 1
  }

  /** How many slots the scan meets from k before it meets t. */
  function Ahead(n: nat, t: nat, k: nat): int
  {
    if k <= t then t - k else n - k + t
  }

  ghost predicate Chooses(s: State, e: Event, i: nat) {
    e.Sched? && e.st.Choose? && e.c < |s.cpus| && s.cpus[e.c].phase == Scan(i)
  }

  /** Along es slot t is RUNNABLE and not chosen. */
  ghost predicate Waits(s: State, es: seq<Event>, t: nat)
    decreases |es|
  {
    && t < |s.procs| && s.procs[t].state == RUNNABLE
    && (es != [] ==> Shape(s) && Enabled(s, es[0]) && !Chooses(s, es[0], t) && Waits(Next(s, es[0]), es[1..], t))
  }

  /** The slots that CPU c chooses along es. */
  ghost function Choices(s: State, es: seq<Event>, c: nat, t: nat): seq<nat>
    requires Waits(s, es, t) && c < |s.cpus|
    decreases |es|
  {
    if es == [] then []
    else
      (if es[0] == Sched(c, Choose) then [s.cpus[c].phase.i] else []) + Choices(Next(s, es[0]), es[1..], c, t)
  }

  lemma ScanStep(s: State, e: Event, c: nat, t: nat)
    requires Shape(s) && Enabled(s, e) && c < |s.cpus| && t < |s.procs| && s.procs[t].state == RUNNABLE && !Chooses(s, e, t)
    ensures |Next(s, e).cpus| == |s.cpus| && |Next(s, e).procs| == |s.procs|
    ensures NextSlot(s.cpus[c]) <= |s.procs| && 0 <= Ahead(|s.procs|, t, NextSlot(s.cpus[c])) < |s.procs|
    ensures Ahead(|s.procs|, t, NextSlot(Next(s, e).cpus[c])) <= Ahead(|s.procs|, t, NextSlot(s.cpus[c]))
    ensures e == Sched(c, Choose) ==> s.cpus[c].phase.i == NextSlot(s.cpus[c]) < |s.procs| && s.cpus[c].phase.i != t
    ensures e == Sched(c, Choose) ==> Ahead(|s.procs|, t, NextSlot(Next(s, e).cpus[c])) == Ahead(|s.procs|, t, NextSlot(s.cpus[c])) - 1
  {
    hide ProcsAfter, PcAfter, JobAfter, Woken;
  }

  /** Each choice is nearer to t than the one before. */
  lemma {:induction false} ChoicesApproach(s: State, es: seq<Event>, c: nat, t: nat)
    requires Inv(s) && Waits(s, es, t) && c < |s.cpus|
    ensures var l := Choices(s, es, c, t);
      && |l| <= Ahead(|s.procs|, t, NextSlot(s.cpus[c])) < |s.procs|
      && (forall k :: 0 <= k < |l| ==> l[k] < |s.procs| && l[k] != t && Ahead(|s.procs|, t, l[k]) <= Ahead(|s.procs|, t, NextSlot(s.cpus[c])))
      && (forall k, m :: 0 <= k < m < |l| ==> Ahead(|s.procs|, t, l[m]) < Ahead(|s.procs|, t, l[k]))
    decreases |es|
  {
    hide Inv, Next, Enabled, NextSlot, Ahead, Chooses;
    if es == [] {
      AheadRange(s, c, t);
    } else {
      StepInv(s, es[0]);
      ScanStep(s, es[0], c, t);
      ChoicesApproach(Next(s, es[0]), es[1..], c, t);
    }
  }

  lemma AheadRange(s: State, c: nat, t: nat)
    requires Inv(s) && c < |s.cpus| && t < |s.procs|
    ensures 0 <= Ahead(|s.procs|, t, NextSlot(s.cpus[c])) < |s.procs|
  {
    hide ThreadsInv, JobsInv, TreeInv, PidsInv;
    assert PhaseOk(s.cpus[c], |s.procs|);
  }

  /** So no other slot is chosen twice by the same CPU, and there are at most NPROC - 1 choices. */
  lemma BoundedWaiting(s: State, es: seq<Event>, c: nat, t: nat)
    requires Inv(s) && Waits(s, es, t) && c < |s.cpus|
    ensures var l := Choices(s, es, c, t);
      && |l| <= |s.procs| - 1 && t !in l
      && forall k, m :: 0 <= k < m < |l| ==> l[k] != l[m]
  {
    hide Inv, Choices, Waits, Ahead;
    ChoicesApproach(s, es, c, t);
  }
}
