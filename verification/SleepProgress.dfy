/**
 sleep and wakeup make progress: every step of a process uses up part of a finite stock, to which
 only new operations and kills add, so that left alone every run settles.
 */
module SleepProgress {
  import opened Common
  import opened SleepWakeup

  /** More than a woken sleeper can use up before it sleeps again. */
  const WAKE: nat := 8

  /** The steps that a process of n can still take or cause by waking others. */
  function Stock<Op>(p: Pc<Op>, n: nat): nat
  {
    match p
    case Idle => 0
    case Leaving(_, _) => 1
    case Scanning(_, _, k) => if k <= n then 2 + (n - k) * WAKE else 2
    case WantScan(_, _) => 3 + n * WAKE
    case Updated(_, _) => 4 + n * WAKE
    case Asleep(_) => 5 + n * WAKE
    case Dropping(_) => 6 + n * WAKE
    case HavePt(_) => 7 + n * WAKE
    case WantPt(_) => 8 + n * WAKE
    case HaveLk(_) => 9 + n * WAKE
    case WantLk(_) => 10 + n * WAKE
    case Resumed(_) => 11 + n * WAKE
    case Runnable(_) => 12 + n * WAKE
  }

  function Total<Op>(pcs: seq<Pc<Op>>, n: nat): nat
  {
    if pcs == [] then 0 else Total(pcs[..|pcs| - 1], n) + Stock(pcs[|pcs| - 1], n)
  }

  lemma {:induction false} TotalUpdate<Op>(pcs: seq<Pc<Op>>, n: nat, i: nat, p: Pc<Op>)
    requires i < |pcs|
    ensures Total(pcs[i := p], n) == Total(pcs, n) - Stock(pcs[i], n) + Stock(p, n)
    decreases |pcs|
  {
    hide Stock;
    var m := |pcs| - 1;
    if i == m {
      assert pcs[i := p][..m] == pcs[..m];
    } else {
      assert pcs[i := p][..m] == pcs[..m][i := p];
      TotalUpdate(pcs[..m], n, i, p);
    }
  }

  lemma WokenStock<V, Op(!new)>(c: Client<V, Op>, p: Pc<Op>, how: Wakes, n: nat)
    ensures Stock(Woken(c, p, how), n) < Stock(p, n) + WAKE
    ensures p.Scanning? ==> Woken(c, p, how) == p
  {
  }

  /** Every step of a process uses up part of the stock. */
  lemma GoSpends<V, Op(!new)>(c: Client<V, Op>, s: State<V, Op>, i: nat)
    requires Enabled(c, s, Go(i))
    ensures |Step(c, s, Go(i)).pcs| == |s.pcs|
    ensures Total(Step(c, s, Go(i)).pcs, |s.pcs|) < Total(s.pcs, |s.pcs|)
  {
    hide Total, Woken;
    var n, s' := |s.pcs|, Step(c, s, Go(i));
    if s.pcs[i].Scanning? && s.pcs[i].k < n {
      var k, how := s.pcs[i].k, s.pcs[i].how;
      var mid := s.pcs[k := Woken(c, s.pcs[k], how)];
      WokenStock(c, s.pcs[k], how, n);
      TotalUpdate(s.pcs, n, k, Woken(c, s.pcs[k], how));
      TotalUpdate(mid, n, i, s'.pcs[i]);
    } else {
      TotalUpdate(s.pcs, n, i, s'.pcs[i]);
      assert s'.pcs == s.pcs[i := s'.pcs[i]];
    }
  }

  /** Nothing but steps of processes: no new operation, no kill. */
  ghost predicate LeftAlone<Op>(es: seq<Event<Op>>) {
    forall k :: 0 <= k < |es| ==> es[k].Go?
  }

  /** Left alone, no run is longer than the stock. */
  lemma {:induction false} RunsEnd<V(!new), Op(!new)>(c: Client<V, Op>, s: State<V, Op>, es: seq<Event<Op>>)
    requires Legal(c, s, es) && LeftAlone(es)
    ensures |es| <= Total(s.pcs, |s.pcs|)
    decreases |es|
  {
    hide Enabled, Step, Total;
    if es != [] {
      GoSpends(c, s, es[0].i);
      RunsEnd(c, Step(c, s, es[0]), es[1..]);
    }
  }

  lemma {:induction false} ThenRun<V(!new), Op(!new)>(c: Client<V, Op>, s: State<V, Op>, es: seq<Event<Op>>, more: seq<Event<Op>>)
    requires Legal(c, s, es) && Legal(c, Exec(c, s, es), more)
    ensures Legal(c, s, es + more) && Exec(c, s, es + more) == Exec(c, Exec(c, s, es), more)
    decreases |es|
  {
    hide Enabled, Step;
    if es == [] {
      assert es + more == more;
    } else {
      ThenRun(c, Step(c, s, es[0]), es[1..], more);
      assert (es + more)[1..] == es[1..] + more;
    }
  }

  lemma {:induction false} RunDown<V(!new), Op(!new)>(c: Client<V, Op>, s: State<V, Op>) returns (es: seq<Event<Op>>)
    ensures Legal(c, s, es) && LeftAlone(es) && Stuck(c, Exec(c, s, es))
    decreases Total(s.pcs, |s.pcs|)
  {
    hide Enabled, Step, Total;
    if i: nat :| Enabled(c, s, Go(i)) {
      GoSpends(c, s, i);
      var rest := RunDown(c, Step(c, s, Go(i)));
      es := [Go(i)] + rest;
      assert es[1..] == rest;
    } else {
      es := [];
    }
  }

  /** Every run, whatever has happened in it, can only go on for so long by itself, and then every process has finished its
      operation or sleeps on a condition that is false. */
  lemma Settles<V(!new), Op(!new)>(c: Client<V, Op>, s0: State<V, Op>, es: seq<Event<Op>>) returns (more: seq<Event<Op>>)
    requires Init(s0) && Promise(c) && Legal(c, s0, es)
    ensures Legal(c, s0, es + more) && LeftAlone(more) && |more| <= Total(Exec(c, s0, es).pcs, |Exec(c, s0, es).pcs|)
    ensures var s := Exec(c, s0, es + more);
      forall p: nat :: p < |s.pcs| ==> s.pcs[p].Idle? || (s.pcs[p].Asleep? && !c.ready(s.v, s.pcs[p].op))
  {
    hide Legal, Exec, Init, Promise, Total, Stuck, LeftAlone;
    more := RunDown(c, Exec(c, s0, es));
    RunsEnd(c, Exec(c, s0, es), more);
    ThenRun(c, s0, es, more);
    var s := Exec(c, s0, es + more);
    forall p: nat | p < |s.pcs|
      ensures s.pcs[p].Idle? || (s.pcs[p].Asleep? && !c.ready(s.v, s.pcs[p].op))
    {
      NoDeadlock(c, s0, es + more, p);
    }
  }
}
