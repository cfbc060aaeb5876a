/**
 The history fields of the log machine, read off the events of a run: which operations there are,
 which of them are under way, and what they have written.
 */
module LogHistory {
  import opened LogDisk
  import opened LogMachine
  import opened LogRefinement

  function Begins(es: seq<Event>): nat
  {
    if es == [] then 0 else Begins(es[..|es| - 1]) + if es[|es| - 1].Begin? then 1 else 0
  }

  /** The log_writes of a run in order. */
  function Writes(es: seq<Event>): seq<Write>
  {
    if es == [] then []
    else
      var e := es[|es| - 1];
      Writes(es[..|es| - 1]) + if e.LogWrite? then [Write(e.op, e.b, e.v)] else []
  }

  /** Operation o has begun, and neither ended nor been cut off by a crash. */
  predicate UnderWay(es: seq<Event>, o: nat) {
    if es == [] then false
    else
      var front, e := es[..|es| - 1], es[|es| - 1];
      match e
      case Begin => o == Begins(front) || UnderWay(front, o)
      case End(op) => op != o && UnderWay(front, o)
      case Crash => false
      case _ => UnderWay(front, o)
  }

  /** Operation o has ended. */
  predicate HasEnded(es: seq<Event>, o: nat) {
    End(o) in es
  }

  ghost predicate HistoryIs(s: State, es: seq<Event>) {
    && |s.ops| == Begins(es) && s.issued == Writes(es)
    && (forall o: nat :: o < |s.ops| ==> (s.ops[o].Active? <==> UnderWay(es, o)))
    && (forall o: nat :: o < |s.ops| && s.ops[o].Ended? ==> HasEnded(es, o))
    && (forall o: nat :: o < |s.ops| && s.ops[o].Lost? ==> Crash in es)
    && (forall o: nat :: HasEnded(es, o) ==> o < |s.ops| && !s.ops[o].Active?)
  }

  lemma {:induction false} LegalSplit(g: Geometry, s: State, es: seq<Event>, e: Event)
    requires Legal(g, s, es + [e])
    ensures Legal(g, s, es) && Enabled(g, Exec(g, s, es), e) && Exec(g, s, es + [e]) == Next(g, Exec(g, s, es), e)
    decreases |es|
  {
    hide Enabled, Next;
    if es == [] {
      assert [] + [e] == [e] && [e][1..] == [];
      assert Legal(g, s, []) && Exec(g, s, []) == s;
      var s' := Next(g, s, e);
      assert Exec(g, s', []) == s';
    } else {
      assert (es + [e])[1..] == es[1..] + [e];
      LegalSplit(g, Next(g, s, es[0]), es[1..], e);
    }
  }

  lemma OpStep(g: Geometry, s: State, e: Event, o: nat)
    requires Enabled(g, s, e) && o < |s.ops| && forall d :: d in s.durable ==> d < |s.ops| && s.ops[d].Ended?
    ensures var s' := Next(g, s, e);
      && o < |s'.ops| && (s'.ops[o].Active? <==> s.ops[o].Active? && e != End(o) && !e.Crash?)
      && (s'.ops[o].Ended? ==> s.ops[o].Ended? || e == End(o)) && (s'.ops[o].Lost? ==> s.ops[o].Lost? || e.Crash?)
  {
    hide GoodLog, GoodDisk, GoodList;
  }

  lemma SizeStep(g: Geometry, s: State, e: Event)
    requires Enabled(g, s, e)
    ensures var s' := Next(g, s, e);
      && |s'.ops| == |s.ops| + (if e.Begin? then 1 else 0) && (e.Begin? ==> s'.ops[|s.ops|].Active?)
      && s'.issued == s.issued + (if e.LogWrite? then [Write(e.op, e.b, e.v)] else []) && (e.End? ==> e.op < |s.ops|)
  {
    hide GoodLog, GoodDisk, GoodList;
  }

  lemma HistoryStep(g: Geometry, s: State, es: seq<Event>, e: Event)
    requires HistoryIs(s, es) && Enabled(g, s, e) && forall d :: d in s.durable ==> d < |s.ops| && s.ops[d].Ended?
    ensures HistoryIs(Next(g, s, e), es + [e])
  {
    hide Next, Enabled;
    SizeStep(g, s, e);
    assert (es + [e])[..|es|] == es;
    var s' := Next(g, s, e);
    forall o: nat | o < |s.ops|
      ensures o < |s'.ops| && (s'.ops[o].Active? <==> s.ops[o].Active? && e != End(o) && !e.Crash?)
      ensures (s'.ops[o].Ended? ==> s.ops[o].Ended? || e == End(o)) && (s'.ops[o].Lost? ==> s.ops[o].Lost? || e.Crash?)
    {
      OpStep(g, s, e, o);
    }
    NotBegun(es, |s.ops|);
    assert forall x :: x in es + [e] <==> x in es || x == e;
    assert forall o: nat :: HasEnded(es + [e], o) <==> HasEnded(es, o) || e == End(o);
    forall o: nat | o < |s'.ops|
      ensures s'.ops[o].Active? <==> UnderWay(es + [e], o)
    {
      if o == |s.ops| {
        assert e.Begin?;
      }
    }
  }

  /** What has not begun is not under way. */
  lemma {:induction false} NotBegun(es: seq<Event>, o: nat)
    requires o >= Begins(es)
    ensures !UnderWay(es, o)
  {
    if es != [] {
      NotBegun(es[..|es| - 1], o);
    }
  }

  lemma {:induction false} HistoryRun(g: Geometry, s0: State, es: seq<Event>)
    requires Init(g, s0) && Legal(g, s0, es)
    ensures HistoryIs(Exec(g, s0, es), es)
    decreases |es|
  {
    hide Next, Enabled, Legal, Exec, Init, HistoryIs, Recovered, Promised;
    if es == [] {
      NoHistory(g, s0);
    } else {
      var front, e := es[..|es| - 1], es[|es| - 1];
      assert es == front + [e];
      LegalSplit(g, s0, front, e);
      HistoryRun(g, s0, front);
      Refinement(g, s0, front);
      HistoryStep(g, Exec(g, s0, front), front, e);
    }
  }

  lemma NoHistory(g: Geometry, s0: State)
    requires Init(g, s0)
    ensures Legal(g, s0, []) && HistoryIs(Exec(g, s0, []), [])
  {
  }

  /** In every run: the operations and their writes are those of the events, in order, and an operation is active exactly
      while it is under way; only a crash loses one. */
  lemma HistoryLaw(g: Geometry, s0: State, es: seq<Event>, o: nat)
    requires Init(g, s0) && Legal(g, s0, es)
    ensures var s := Exec(g, s0, es);
      && |s.ops| == Begins(es) && s.issued == Writes(es)
      && (o < |s.ops| ==> (s.ops[o].Active? <==> UnderWay(es, o)))
      && (o < |s.ops| && Crash !in es ==> (s.ops[o].Ended? <==> HasEnded(es, o)))
      && (o in s.durable ==> HasEnded(es, o))
  {
    hide Legal, Exec, Begins, Writes, UnderWay, Init, Recovered, Promised;
    HistoryRun(g, s0, es);
    Refinement(g, s0, es);
  }

  /** An operation under way can end at any time. */
  lemma MayEnd(g: Geometry, s0: State, es: seq<Event>, o: nat)
    requires Init(g, s0) && Legal(g, s0, es) && UnderWay(es, o)
    ensures Exec(g, s0, es).phase.Running? && Enabled(g, Exec(g, s0, es), End(o))
  {
    hide Legal, Exec, UnderWay, PhaseOk, Promised, Recovered, LogCode.RecoversTo, HistoryOk, HistoryIs, Begins;
    InitInv(g, s0);
    RunInv(g, Recovered(g, s0.disk), s0, es);
    HistoryRun(g, s0, es);
    ActiveIs(Exec(g, s0, es), es, o);
    NoneActive(Exec(g, s0, es).ops);
  }

  lemma ActiveIs(s: State, es: seq<Event>, o: nat)
    requires HistoryIs(s, es) && UnderWay(es, o)
    ensures o < |s.ops| && s.ops[o].Active?
  {
    hide UnderWay;
    if o >= |s.ops| {
      NotBegun(es, o);
    }
  }

  /** In every run without a crash the running system reads exactly what has been written so far. */
  lemma ReadsAllWrites(g: Geometry, s0: State, es: seq<Event>)
    requires Init(g, s0) && Legal(g, s0, es) && Crash !in es && Exec(g, s0, es).phase.Running?
    ensures var s := Exec(g, s0, es);
      GoodDisk(g, s.disk) && HomeOf(g, s.disk) + s.cache == Replay(Recovered(g, s0.disk), Writes(es))
  {
    hide Legal, Exec, Init, Recovered, HomeOf, Replay, UnderWay, HasEnded;
    ReadsSeeEverything(g, s0, es);
    InitInv(g, s0);
    RunInv(g, Recovered(g, s0.disk), s0, es);
    HistoryRun(g, s0, es);
    var s := Exec(g, s0, es);
    AllKept(s.ops, s.issued, s.first, s.durable);
    ReplayConcat(Recovered(g, s0.disk), s.issued[..s.first], s.issued[s.first..]);
    assert s.issued[..s.first] + s.issued[s.first..] == s.issued;
  }

  lemma AllKept(ops: seq<OpState>, issued: seq<Write>, first: nat, durable: set<nat>)
    requires HistoryOk(ops, issued, first, durable) && forall o: nat :: o < |ops| ==> !ops[o].Lost?
    ensures Only(issued, durable) == issued[..first]
  {
    hide Only;
    var past, open := issued[..first], issued[first..];
    assert issued == past + open;
    OnlyConcat(past, open, durable);
    OnlyAll(past, durable);
    OnlyNone(open, durable);
  }

  // ---- Commit and recovery end ----

  /** The steps until log.committing is 0, each of at most one block write. */
  ghost function StepsLeft(g: Geometry, s: State): int
  {
    match s.phase
    case Running => 0
    case Finishing => 1
    case Installing(i) => |s.lh| - i + 2
    case Logging(i) => 2 * |s.lh| - i + 3
    case Committing => 2 * |s.lh| + 4
    case Redoing(i) => |s.lh| - i + 1
    case Down => if GoodLog(g, s.disk) then |Header(g, s.disk)| + 2 else 2
  }

  lemma AdvanceSpends(g: Geometry, init: Home, s: State)
    requires Inv(g, init, s) && !s.phase.Running?
    ensures Enabled(g, s, Advance) && 0 <= StepsLeft(g, Next(g, s, Advance)) < StepsLeft(g, s) <= 2 * LOGSIZE + 4
  {
    hide Promised, Recovered, HomeOf, Replay, HistoryOk, Reserved, Settled;
    CommitUndisturbed(g, init, s);
  }

  /** Nothing but steps of the commit or of recovery. */
  function Advances(n: nat): seq<Event>
  {
    if n == 0 then [] else [Advance] + Advances(n - 1)
  }

  lemma {:induction false} RunOut(g: Geometry, init: Home, s: State) returns (n: nat)
    requires Inv(g, init, s)
    ensures n <= StepsLeft(g, s) && Legal(g, s, Advances(n)) && Exec(g, s, Advances(n)).phase.Running?
    decreases StepsLeft(g, s)
  {
    hide Inv, Enabled, Next;
    if s.phase.Running? {
      n := 0;
    } else {
      AdvanceSpends(g, init, s);
      StepInv(g, init, s, Advance);
      var m := RunOut(g, init, Next(g, s, Advance));
      n := m + 1;
      assert Advances(n)[1..] == Advances(m);
    }
  }

  /** From every reachable state, also one just after a crash, at most 2 * LOGSIZE + 4 steps of the commit or of recovery lead back
      to a running system. */
  lemma BackToRunning(g: Geometry, s0: State, es: seq<Event>) returns (n: nat)
    requires Init(g, s0) && Legal(g, s0, es)
    ensures n <= 2 * LOGSIZE + 4 && Legal(g, Exec(g, s0, es), Advances(n)) && Exec(g, Exec(g, s0, es), Advances(n)).phase.Running?
  {
    hide Legal, Exec, Inv, StepsLeft;
    var s := Exec(g, s0, es);
    InitInv(g, s0);
    RunInv(g, Recovered(g, s0.disk), s0, es);
    n := RunOut(g, Recovered(g, s0.disk), s);
    if !s.phase.Running? {
      AdvanceSpends(g, Recovered(g, s0.disk), s);
    } else {
      AtRest(g, s);
    }
  }

  lemma AtRest(g: Geometry, s: State)
    requires s.phase.Running?
    ensures StepsLeft(g, s) == 0
  {
  }
}
