/**
 begin_op and end_op over every run: outstanding counts exactly the processes inside an operation,
 a commit runs only when there is none, and the blocks they log never overflow the log.
 */
module SleepGate {
  import opened Common
  import opened SleepWakeup
  import opened SleepClients
  import LogDisk
  import LogMachine
  import SleepProgress

  type Lasts = seq<Option<GateOp>>

  ghost function Insiders(last: Lasts): set<nat>
  {
    set i: nat | i < |last| && Inside(last[i])
  }

  /** The blocks that operations still running have logged. */
  function Logged(last: Lasts): nat
  {
    if last == [] then 0 else Logged(last[..|last| - 1]) + Charge(last[|last| - 1])
  }

  /** The blocks that they may still log. */
  function Unused(last: Lasts): nat
  {
    if last == [] then 0 else Unused(last[..|last| - 1]) + Allowance(last[|last| - 1])
  }

  function Allowance(last: Option<GateOp>): nat
  {
    if Inside(last) && Charge(last) <= LogDisk.MAXOPBLOCKS then LogDisk.MAXOPBLOCKS - Charge(last) else 0
  }

  lemma InsiderAt(last: Lasts, i: nat)
    ensures i in Insiders(last) <==> i < |last| && Inside(last[i])
  {
  }

  lemma InsidersUpdate(last: Lasts, i: nat, op: GateOp)
    requires i < |last|
    ensures Insiders(last[i := Some(op)]) == if Inside(Some(op)) then Insiders(last) + {i} else Insiders(last) - {i}
  {
    hide Insiders, Inside;
    var was, now := Insiders(last), Insiders(last[i := Some(op)]);
    var want := if Inside(Some(op)) then was + {i} else was - {i};
    forall j: nat
      ensures j in now <==> j in want
    {
      InsiderAt(last, j);
      InsiderAt(last[i := Some(op)], j);
    }
    SameMembers(now, want);
  }

  lemma SameMembers(a: set<nat>, b: set<nat>)
    requires forall j: nat :: j in a <==> j in b
    ensures a == b
  {
  }

  lemma InsidersCount(last: Lasts, i: nat, op: GateOp)
    requires i < |last|
    ensures |Insiders(last[i := Some(op)])| == |Insiders(last)| + (if Inside(Some(op)) then 1 else 0) - (if Inside(last[i]) then 1 else 0)
  {
    hide Insiders, Inside;
    InsidersUpdate(last, i, op);
    InsiderAt(last, i);
    OneMember(Insiders(last), i);
  }

  lemma OneMember(a: set<nat>, i: nat)
    ensures |a + {i}| == |a| + if i in a then 0 else 1
    ensures |a - {i}| == |a| - if i in a then 1 else 0
  {
    if i in a {
      assert a + {i} == a && a == (a - {i}) + {i};
    } else {
      assert a - {i} == a;
    }
  }

  lemma {:induction false} LoggedUpdate(last: Lasts, i: nat, x: Option<GateOp>)
    requires i < |last|
    ensures Logged(last[i := x]) == Logged(last) - Charge(last[i]) + Charge(x)
    ensures Unused(last[i := x]) == Unused(last) - Allowance(last[i]) + Allowance(x)
    decreases |last|
  {
    var n := |last| - 1;
    if i == n {
      assert last[i := x][..n] == last[..n];
    } else {
      assert last[i := x][..n] == last[..n][i := x];
      LoggedUpdate(last[..n], i, x);
    }
  }

  lemma {:induction false} UnusedBound(last: Lasts)
    ensures Unused(last) <= |Insiders(last)| * LogDisk.MAXOPBLOCKS
  {
    if last != [] {
      var n := |last| - 1;
      UnusedBound(last[..n]);
      InsidersGrow(last);
    }
  }

  lemma InsidersGrow(last: Lasts)
    requires last != []
    ensures |Insiders(last)| == |Insiders(last[..|last| - 1])| + if Inside(last[|last| - 1]) then 1 else 0
  {
    hide Insiders;
    var n := |last| - 1;
    forall j: nat
      ensures j in Insiders(last) <==> j in Insiders(last[..n]) || (j == n && Inside(last[n]))
    {
      InsiderAt(last, j);
      InsiderAt(last[..n], j);
    }
    InsiderAt(last[..n], n);
    assert Insiders(last) == Insiders(last[..n]) + if Inside(last[n]) then {n} else {};
  }

  // ---- The law ----

  ghost predicate GateOk(v: Gate, last: Lasts) {
    && v.outstanding == |Insiders(last)|
    && (v.committer.Some? ==> v.outstanding == 0 && v.committer.value < |last| && last[v.committer.value] == Some(End(v.committer.value)))
    && Logged(last) <= v.n && v.n + Unused(last) <= LogDisk.LOGSIZE
    && (v.outstanding == 0 && v.committer.None? ==> v.n == 0)
  }

  /** The value and the latest operations change together, when a process with the lock is ready. */
  lemma Changes(s: State<Gate, GateOp>, e: Event<GateOp>)
    requires OpsOk(GateClient(), s) && Enabled(GateClient(), s, e)
    ensures var s', i := Step(GateClient(), s, e), e.i;
      if e.Go? && s.pcs[i].HaveLk? && GateReady(s.v, s.pcs[i].op) then
        i < |s.last| && GateMay(s.last[i], i, s.pcs[i].op) && s'.v == GateUpdate(s.v, s.pcs[i].op) && s'.last == s.last[i := Some(s.pcs[i].op)]
      else s'.v == s.v && s'.last == s.last
  {
  }

  lemma UpdateKeeps(v: Gate, last: Lasts, i: nat, op: GateOp)
    requires GateOk(v, last) && i < |last| && GateMay(last[i], i, op) && GateReady(v, op)
    ensures GateOk(GateUpdate(v, op), last[i := Some(op)])
  {
    hide Insiders, Logged, Unused;
    InsidersCount(last, i, op);
    LoggedUpdate(last, i, Some(op));
    UnusedBound(last);
    InsiderAt(last, i);
    if Inside(last[i]) {
      Member(Insiders(last), i);
    }
    NoneLogged(last);
  }

  lemma Member(s: set<nat>, i: nat)
    requires i in s
    ensures |s| > 0
  {
  }

  lemma {:induction false} NoneLogged(last: Lasts)
    ensures |Insiders(last)| == 0 ==> Logged(last) == 0
  {
    hide Insiders;
    if last != [] {
      NoneLogged(last[..|last| - 1]);
      InsidersGrow(last);
    }
  }

  lemma InRange(s: State<Gate, GateOp>, e: Event<GateOp>)
    requires Enabled(GateClient(), s, e)
    ensures e.i < |s.pcs|
  {
  }

  lemma GateStep(s: State<Gate, GateOp>, e: Event<GateOp>)
    requires GateOk(s.v, s.last) && OpsOk(GateClient(), s) && Enabled(GateClient(), s, e)
    ensures GateOk(Step(GateClient(), s, e).v, Step(GateClient(), s, e).last)
  {
    hide GateOk, Enabled, Step, OpsOk, GateMay, GateUpdate;
    Changes(s, e);
    InRange(s, e);
    if e.Go? && s.pcs[e.i].HaveLk? && GateReady(s.v, s.pcs[e.i].op) {
      UpdateKeeps(s.v, s.last, e.i, s.pcs[e.i].op);
    }
  }

  lemma {:induction false} GateRun(s: State<Gate, GateOp>, es: seq<Event<GateOp>>)
    requires GateOk(s.v, s.last) && Inv(GateClient(), s) && Legal(GateClient(), s, es)
    ensures GateOk(Exec(GateClient(), s, es).v, Exec(GateClient(), s, es).last)
    decreases |es|
  {
    hide GateOk, Inv, Enabled, Step, GateClient, Promise;
    if es != [] {
      GatePromise();
      InvOps(GateClient(), s);
      GateStep(s, es[0]);
      StepInv(GateClient(), s, es[0]);
      GateRun(Step(GateClient(), s, es[0]), es[1..]);
    }
  }

  lemma {:induction false} NobodyInside(last: Lasts)
    requires forall i: nat :: i < |last| ==> last[i].None?
    ensures Insiders(last) == {} && Logged(last) == 0 && Unused(last) == 0
  {
    if last != [] {
      NobodyInside(last[..|last| - 1]);
    }
  }

  /**
   In every run: outstanding is the number of processes inside an operation; while a commit runs there is
   none, and the committer is a process that has just ended its operation; the log holds at least what the
   running operations have logged, has room for all that they may still log, and is empty at rest.
   */
  lemma EveryRun(s0: State<Gate, GateOp>, es: seq<Event<GateOp>>)
    requires Init(s0) && s0.v == Gate(0, 0, None) && Legal(GateClient(), s0, es)
    ensures var s := Exec(GateClient(), s0, es);
      && s.v.outstanding == |Insiders(s.last)|
      && (s.v.committer.Some? ==> Insiders(s.last) == {} && s.v.committer.value < |s.last| && s.last[s.v.committer.value] == Some(End(s.v.committer.value)))
      && Logged(s.last) <= s.v.n && s.v.n + Unused(s.last) <= LogDisk.LOGSIZE
      && (Insiders(s.last) == {} && s.v.committer.None? ==> s.v.n == 0)
  {
    hide Legal, Exec, Insiders, Logged, Unused;
    InitInv(GateClient(), s0);
    NobodyInside(s0.last);
    GateRun(s0, es);
  }

  /** begin_op's condition is the one of the log under crashes. */
  lemma BeginIsLogBegin(g: LogDisk.Geometry, s: LogMachine.State, who: nat)
    ensures LogMachine.Enabled(g, s, LogMachine.Begin) <==>
      GateReady(Gate(s.outstanding, |s.lh|, if s.phase.Running? then None else Some(who)), Begin)
  {
  }

  /** At most LOGSIZE / MAXOPBLOCKS operations run at once. */
  lemma AtMostThree(s0: State<Gate, GateOp>, es: seq<Event<GateOp>>)
    requires Init(s0) && s0.v == Gate(0, 0, None) && Legal(GateClient(), s0, es)
    ensures |Insiders(Exec(GateClient(), s0, es).last)| <= 3
  {
    hide Legal, Exec, Insiders, Logged, Unused;
    EveryRun(s0, es);
    AllAccounted(Exec(GateClient(), s0, es).last);
  }

  lemma {:induction false} AllAccounted(last: Lasts)
    ensures Logged(last) + Unused(last) >= |Insiders(last)| * LogDisk.MAXOPBLOCKS
  {
    hide Insiders;
    if last != [] {
      AllAccounted(last[..|last| - 1]);
      InsidersGrow(last);
    } else {
      NobodyInside(last);
    }
  }

  /** A process starts an operation, from rest to rest. */
  lemma OneBegins(s: State<Gate, GateOp>, i: nat) returns (es: seq<Event<GateOp>>)
    requires i < |s.pcs| == |s.last| == |s.killed| && s.pcs[i].Idle? && s.lk.None? && !Inside(s.last[i]) && GateReady(s.v, Begin)
    ensures Legal(GateClient(), s, es)
    ensures Exec(GateClient(), s, es) == s.(v := s.v.(outstanding := s.v.outstanding + 1), last := s.last[i := Some(Begin)])
  {
    hide Legal, Exec;
    var c := GateClient();
    var s1 := Step(c, s, Start(i, Begin));
    var s2 := Step(c, s1, Go(i));
    var s3 := Step(c, s2, Go(i));
    var s4 := Step(c, s3, Go(i));
    assert s4.pcs == s.pcs;
    NoStep(c, s4);
    es := OneMore(c, s3, Go(i), []);
    es := OneMore(c, s2, Go(i), es);
    es := OneMore(c, s1, Go(i), es);
    es := OneMore(c, s, Start(i, Begin), es);
  }

  lemma NoStep<V(!new), Op(!new)>(c: Client<V, Op>, s: State<V, Op>)
    ensures Legal(c, s, []) && Exec(c, s, []) == s
  {
  }

  /** And three do: begin_op lets as many in as the log has room for. */
  lemma ThreeAtOnce(s0: State<Gate, GateOp>) returns (es: seq<Event<GateOp>>)
    requires Init(s0) && s0.v == Gate(0, 0, None) && |s0.pcs| >= 3
    ensures Legal(GateClient(), s0, es) && Exec(GateClient(), s0, es).v.outstanding == 3
  {
    hide Legal, Exec;
    var c := GateClient();
    var one := OneBegins(s0, 0);
    var s1 := Exec(c, s0, one);
    var two := OneBegins(s1, 1);
    var s2 := Exec(c, s1, two);
    var three := OneBegins(s2, 2);
    SleepProgress.ThenRun(c, s1, two, three);
    SleepProgress.ThenRun(c, s0, one, two + three);
    es := one + (two + three);
  }

  /** When a run stops with a process asleep in begin_op, an operation or a commit is still under way. */
  lemma BeginWaitsForOthers(s0: State<Gate, GateOp>, es: seq<Event<GateOp>>, p: nat)
    requires Init(s0) && s0.v == Gate(0, 0, None) && Legal(GateClient(), s0, es)
    requires Stuck(GateClient(), Exec(GateClient(), s0, es))
    requires p < |Exec(GateClient(), s0, es).pcs| && Exec(GateClient(), s0, es).pcs[p].Asleep?
    ensures var s := Exec(GateClient(), s0, es); Insiders(s.last) != {} || s.v.committer.Some?
  {
    hide Legal, Exec, Insiders, Logged, Unused, Stuck, Init;
    GatePromise();
    NoDeadlock(GateClient(), s0, es, p);
    EveryRun(s0, es);
  }
}
