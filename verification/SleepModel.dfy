/**
 The Promela model that sleep1.p keeps of sleep and wakeup, in the form that wakes after the
 release: n consumers and n producers of iter items each.  A consumer tests value > 0 once and takes
 an item after it has been woken without testing again, and value is a byte.
 */
module SleepModel {
  import opened Common

  const BYTE: nat := 256

  /** i is the number of rounds completed. */
  datatype Pc =
    | CTop(i: nat)            // before acquire(lk)
    | CTest(i: nat)           // in sleep, tests its condition
    | CWait(i: nat)           // waits for sleeping[_pid] == 0
    | CAgain(i: nat)          // in sleep, before acquire(lk)
    | CTake(i: nat)
    | CRel(i: nat)            // before release(lk)
    | PTop(i: nat)
    | PPut(i: nat)
    | PRel(i: nat)
    | PScan(i: nat, w: nat)   // in wakeup

  /** lk is 1 where a process holds it. */
  datatype State = State(lk: Option<Event>, value: nat, sleeping: seq<bool>, cons: seq<Pc>, prods: seq<Pc>)

  /** The next step of a consumer or of a producer. */
  datatype Event = C(k: nat) | P(k: nat)

  ghost predicate Enabled(iter: nat, s: State, e: Event) {
    match e
    case C(k) =>
      k < |s.cons| == |s.sleeping| &&
      (match s.cons[k]
       case CTop(i) => i < iter && s.lk.None?
       case CWait(_) => !s.sleeping[k]
       case CAgain(_) => s.lk.None?
       case CTest(_) => true
       case CTake(_) => true
       case CRel(_) => true
       case _ => false)
    case P(k) =>
      k < |s.prods| &&
      (match s.prods[k]
       case PTop(i) => i < iter && s.lk.None?
       case PPut(_) => true
       case PRel(_) => true
       case PScan(_, _) => true
       case _ => false)
  }

  function ToC(s: State, k: nat, pc: Pc): State
    requires k < |s.cons|
  {
    s.(cons := s.cons[k := pc])
  }

  function ToP(s: State, k: nat, pc: Pc): State
    requires k < |s.prods|
  {
    s.(prods := s.prods[k := pc])
  }

  ghost function Step(iter: nat, s: State, e: Event): State
    requires Enabled(iter, s, e)
  {
    match e
    case C(k) =>
      (match s.cons[k]
       case CTop(i) => ToC(s, k, CTest(i)).(lk := Some(e))
       case CTest(i) =>
         if s.value > 0 then ToC(s, k, CTake(i)) else ToC(s, k, CWait(i)).(lk := None, sleeping := s.sleeping[k := true])
       case CWait(i) => ToC(s, k, CAgain(i))
       case CAgain(i) => ToC(s, k, CTake(i)).(lk := Some(e))
       case CTake(i) => ToC(s, k, CRel(i)).(value := (s.value - 1) % BYTE)
       case CRel(i) => ToC(s, k, CTop(i + 1)).(lk := None)
       case _ => s)
    case P(k) =>
      (match s.prods[k]
       case PTop(i) => ToP(s, k, PPut(i)).(lk := Some(e))
       case PPut(i) => ToP(s, k, PRel(i)).(value := (s.value + 1) % BYTE)
       case PRel(i) => ToP(s, k, PScan(i, 0)).(lk := None)
       case PScan(i, w) =>
         if w < |s.sleeping| then ToP(s, k, PScan(i, w + 1)).(sleeping := s.sleeping[w := false])
         else ToP(s, k, PTop(i + 1))
       case _ => s)
  }

  // ---- Sums over processes ----

  function Sum(pcs: seq<Pc>, f: Pc -> nat): nat
  {
    if pcs == [] then 0 else Sum(pcs[..|pcs| - 1], f) + f(pcs[|pcs| - 1])
  }

  lemma {:induction false} SumUpdate(pcs: seq<Pc>, f: Pc -> nat, k: nat, pc: Pc)
    requires k < |pcs|
    ensures Sum(pcs[k := pc], f) == Sum(pcs, f) - f(pcs[k]) + f(pc)
    decreases |pcs|
  {
    var n := |pcs| - 1;
    if k == n {
      assert pcs[k := pc][..n] == pcs[..n];
    } else {
      assert pcs[k := pc][..n] == pcs[..n][k := pc];
      SumUpdate(pcs[..n], f, k, pc);
    }
  }

  /** k times m. */
  function Times(k: nat, m: nat): nat
  {
    if k == 0 then 0 else Times(k - 1, m) + m
  }

  lemma {:induction false} TimesIs(k: nat, m: nat)
    ensures Times(k, m) == k * m
  {
    if k > 0 {
      TimesIs(k - 1, m);
    }
  }

  lemma {:induction false} SumBound(pcs: seq<Pc>, f: Pc -> nat, m: nat)
    requires forall k :: 0 <= k < |pcs| ==> f(pcs[k]) <= m
    ensures Sum(pcs, f) <= Times(|pcs|, m)
    ensures (exists k :: 0 <= k < |pcs| && f(pcs[k]) < m) ==> Sum(pcs, f) < Times(|pcs|, m)
    ensures (forall k :: 0 <= k < |pcs| ==> f(pcs[k]) == m) ==> Sum(pcs, f) == Times(|pcs|, m)
    decreases |pcs|
  {
    if pcs != [] {
      var front := pcs[..|pcs| - 1];
      assert forall k :: 0 <= k < |front| ==> front[k] == pcs[k];
      SumBound(front, f, m);
      if k :| 0 <= k < |pcs| && f(pcs[k]) < m {
        assert k < |front| ==> f(front[k]) < m;
      }
    }
  }

  // ---- What is kept ----

  /** Items put or taken. */
  function Did(pc: Pc): nat
  {
    if pc.CRel? || pc.PRel? || pc.PScan? then pc.i + 1 else pc.i
  }

  predicate IsC(pc: Pc) {
    pc.CTop? || pc.CTest? || pc.CWait? || pc.CAgain? || pc.CTake? || pc.CRel?
  }

  predicate Locked(pc: Pc) {
    pc.CTest? || pc.CTake? || pc.CRel? || pc.PPut? || pc.PRel?
  }

  predicate PcOk(iter: nat, n: nat, pc: Pc) {
    (if pc.CTop? || pc.PTop? then pc.i <= iter else pc.i < iter) && (pc.PScan? ==> pc.w <= n)
  }

  ghost predicate Shape(iter: nat, n: nat, s: State) {
    && |s.cons| == |s.prods| == |s.sleeping| == n
    && (forall k: nat :: k < n ==> IsC(s.cons[k]) && PcOk(iter, n, s.cons[k]))
    && (forall k: nat :: k < n ==> !IsC(s.prods[k]) && PcOk(iter, n, s.prods[k]))
  }

  ghost predicate LockOk(s: State) {
    && (s.lk.Some? ==> s.lk.value.k < if s.lk.value.C? then |s.cons| else |s.prods|)
    && (forall k: nat :: k < |s.cons| ==> (Locked(s.cons[k]) <==> s.lk == Some(C(k))))
    && (forall k: nat :: k < |s.prods| ==> (Locked(s.prods[k]) <==> s.lk == Some(P(k))))
  }

  ghost predicate ValueOk(s: State) {
    s.value == (Sum(s.prods, Did) - Sum(s.cons, Did)) % BYTE
  }

  /** A producer has still to pass slot c. */
  ghost predicate Coming(prods: seq<Pc>, c: nat) {
    exists k: nat :: k < |prods| && (prods[k].PRel? || (prods[k].PScan? && prods[k].w <= c))
  }

  /** Whoever sleeps is woken again: an item is still to be made, or a wakeup is on its way. */
  ghost predicate SleepersOk(iter: nat, s: State) {
    forall c: nat :: c < |s.sleeping| && s.sleeping[c] ==> Sum(s.prods, Did) < Times(|s.prods|, iter) || Coming(s.prods, c)
  }

  ghost predicate FlagsOk(s: State) {
    |s.sleeping| == |s.cons| && forall c: nat :: c < |s.sleeping| && s.sleeping[c] ==> s.cons[c].CWait?
  }

  ghost predicate Inv(iter: nat, n: nat, s: State) {
    Shape(iter, n, s) && LockOk(s) && ValueOk(s) && FlagsOk(s)
  }

  /** The model's assertions: the lock is held where it is released, and who goes to sleep is not asleep. */
  lemma AssertsHold(iter: nat, n: nat, s: State, k: nat)
    requires Inv(iter, n, s) && k < n
    ensures s.cons[k].CTest? ==> !s.sleeping[k] && s.lk.Some?
    ensures s.cons[k].CRel? || s.prods[k].PRel? ==> s.lk.Some?
  {
  }

  lemma FlagsStep(iter: nat, s: State, e: Event)
    requires FlagsOk(s) && Enabled(iter, s, e)
    ensures FlagsOk(Step(iter, s, e))
  {
  }

  lemma ShapeStep(iter: nat, n: nat, s: State, e: Event)
    requires Shape(iter, n, s) && Enabled(iter, s, e)
    ensures Shape(iter, n, Step(iter, s, e))
  {
  }

  lemma LockStep(iter: nat, s: State, e: Event)
    requires LockOk(s) && Enabled(iter, s, e)
    ensures LockOk(Step(iter, s, e))
  {
  }

  /** Only the two stores to value count. */
  lemma SumsStep(iter: nat, s: State, e: Event)
    requires Enabled(iter, s, e)
    ensures var s', take, put := Step(iter, s, e), e.C? && s.cons[e.k].CTake?, e.P? && s.prods[e.k].PPut?;
      && Sum(s'.cons, Did) == Sum(s.cons, Did) + (if take then 1 else 0)
      && Sum(s'.prods, Did) == Sum(s.prods, Did) + (if put then 1 else 0)
      && s'.value == if take then (s.value - 1) % BYTE else if put then (s.value + 1) % BYTE else s.value
  {
    hide Sum;
    var s' := Step(iter, s, e);
    match e
    case C(k) => SumUpdate(s.cons, Did, k, s'.cons[k]);
    case P(k) => SumUpdate(s.prods, Did, k, s'.prods[k]);
  }

  lemma ModIs(q: int, r: nat)
    requires r < BYTE
    ensures (BYTE * q + r) % BYTE == r
  {
  }

  lemma Mod(a: int)
    ensures (a % BYTE + 1) % BYTE == (a + 1) % BYTE && (a % BYTE - 1) % BYTE == (a - 1) % BYTE
  {
    var q, r := a / BYTE, a % BYTE;
    assert a == BYTE * q + r;
    if r == BYTE - 1 {
      ModIs(q + 1, 0);
    } else {
      ModIs(q, r + 1);
    }
    if r == 0 {
      ModIs(q - 1, BYTE - 1);
      ModIs(-1, BYTE - 1);
    } else {
      ModIs(q, r - 1);
    }
  }

  lemma ValueStep(iter: nat, s: State, e: Event)
    requires ValueOk(s) && Enabled(iter, s, e)
    ensures ValueOk(Step(iter, s, e))
  {
    hide Sum, Step, Enabled;
    SumsStep(iter, s, e);
    Mod(Sum(s.prods, Did) - Sum(s.cons, Did));
  }

  lemma InvStep(iter: nat, n: nat, s: State, e: Event)
    requires Inv(iter, n, s) && Enabled(iter, s, e)
    ensures Inv(iter, n, Step(iter, s, e))
  {
    hide Shape, LockOk, ValueOk, FlagsOk, Step, Enabled;
    ShapeStep(iter, n, s, e);
    FlagsStep(iter, s, e);
    LockStep(iter, s, e);
    ValueStep(iter, s, e);
  }

  // ---- Who sleeps is woken ----

  lemma {:induction false} SumLess(pcs: seq<Pc>, iter: nat, n: nat, k: nat)
    requires k < |pcs| == n && (forall j :: 0 <= j < |pcs| ==> PcOk(iter, n, pcs[j])) && Did(pcs[k]) < iter
    ensures Sum(pcs, Did) < Times(n, iter)
  {
    hide Sum, Times;
    SumBound(pcs, Did, iter);
  }

  /** A consumer that is about to sleep finds value 0 only if something is still to be made. */
  lemma SleepsEarly(iter: nat, n: nat, s: State, k: nat)
    requires Inv(iter, n, s) && Times(n, iter) < BYTE && k < n && s.cons[k].CTest? && s.value == 0
    ensures Sum(s.prods, Did) < Times(n, iter)
  {
    hide Sum, Times;
    SumLess(s.cons, iter, n, k);
    SumBound(s.prods, Did, iter);
    SmallMod(Sum(s.prods, Did) - Sum(s.cons, Did));
  }

  lemma SmallMod(a: int)
    ensures 0 < a + BYTE && a < BYTE && a % BYTE == 0 ==> a == 0
  {
  }

  /** The slots of sleepers, and who passes them. */
  lemma FlagStep(iter: nat, n: nat, s: State, e: Event, c: nat)
    requires Shape(iter, n, s) && Enabled(iter, s, e) && c < n
    ensures var s' := Step(iter, s, e);
      && (s'.sleeping[c] && !s.sleeping[c] ==> e == C(c) && s.cons[c].CTest? && s.value == 0 && s'.prods == s.prods)
      && (s'.sleeping[c] && s.sleeping[c] && Coming(s.prods, c) ==> Coming(s'.prods, c))
      && (e.P? && s.prods[e.k].PPut? ==> Coming(s'.prods, c))
  {
    hide Sum, Times;
    var s' := Step(iter, s, e);
    if s'.sleeping[c] && s.sleeping[c] && Coming(s.prods, c) {
      var k: nat :| k < |s.prods| && (s.prods[k].PRel? || (s.prods[k].PScan? && s.prods[k].w <= c));
      assert s'.prods[k].PRel? || (s'.prods[k].PScan? && s'.prods[k].w <= c);
    }
    if e.P? && s.prods[e.k].PPut? {
      assert s'.prods[e.k].PRel?;
    }
  }

  lemma SleepersStep(iter: nat, n: nat, s: State, e: Event)
    requires Inv(iter, n, s) && SleepersOk(iter, s) && Enabled(iter, s, e) && Times(n, iter) < BYTE
    ensures SleepersOk(iter, Step(iter, s, e))
  {
    hide Sum, Times, LockOk, ValueOk, Coming, Step, Enabled;
    var s' := Step(iter, s, e);
    ShapeStep(iter, n, s, e);
    SumsStep(iter, s, e);
    forall c: nat | c < n
      ensures s'.sleeping[c] ==> (Sum(s'.prods, Did) < Times(n, iter) || Coming(s'.prods, c))
    {
      FlagStep(iter, n, s, e, c);
      if s'.sleeping[c] && !s.sleeping[c] {
        SleepsEarly(iter, n, s, c);
      }
    }
  }

  // ---- Whole runs ----

  ghost predicate Legal(iter: nat, s: State, es: seq<Event>)
    decreases |es|
  {
    es == [] || (Enabled(iter, s, es[0]) && Legal(iter, Step(iter, s, es[0]), es[1..]))
  }

  ghost function Exec(iter: nat, s: State, es: seq<Event>): State
    requires Legal(iter, s, es)
    decreases |es|
  {
    if es == [] then s else Exec(iter, Step(iter, s, es[0]), es[1..])
  }

  function Init(n: nat): State
  {
    State(None, 0, seq(n, _ => false), seq(n, _ => CTop(0)), seq(n, _ => PTop(0)))
  }

  lemma InitOk(iter: nat, n: nat)
    ensures Inv(iter, n, Init(n)) && SleepersOk(iter, Init(n))
  {
    hide Sum, Times;
    SumBound(Init(n).cons, Did, 0);
    SumBound(Init(n).prods, Did, 0);
  }

  ghost predicate Stuck(iter: nat, s: State) {
    forall e: Event :: !Enabled(iter, s, e)
  }

  ghost predicate Finished(iter: nat, s: State) {
    (forall k: nat :: k < |s.cons| ==> s.cons[k] == CTop(iter)) && (forall k: nat :: k < |s.prods| ==> s.prods[k] == PTop(iter))
  }

  lemma {:induction false} RunOk(iter: nat, n: nat, s: State, es: seq<Event>)
    requires Inv(iter, n, s) && Legal(iter, s, es)
    ensures Inv(iter, n, Exec(iter, s, es))
    ensures SleepersOk(iter, s) && Times(n, iter) < BYTE ==> SleepersOk(iter, Exec(iter, s, es))
    decreases |es|
  {
    hide Inv, SleepersOk, Step, Enabled, Times;
    if es != [] {
      InvStep(iter, n, s, es[0]);
      if SleepersOk(iter, s) && Times(n, iter) < BYTE {
        SleepersStep(iter, n, s, es[0]);
      }
      RunOk(iter, n, Step(iter, s, es[0]), es[1..]);
    }
  }

  /** Nobody holds the lock when the model stops, and all producers are through. */
  lemma StuckProducers(iter: nat, n: nat, s: State)
    requires Shape(iter, n, s) && LockOk(s) && Stuck(iter, s)
    ensures s.lk.None? && forall k: nat :: k < n ==> s.prods[k] == PTop(iter)
    ensures forall k: nat :: k < n ==> s.cons[k] == CTop(iter) || (s.cons[k].CWait? && s.sleeping[k])
  {
    if s.lk.Some? {
      assert Enabled(iter, s, s.lk.value);
    }
    forall k: nat | k < n
      ensures s.prods[k] == PTop(iter) && (s.cons[k] == CTop(iter) || (s.cons[k].CWait? && s.sleeping[k]))
    {
      assert !Enabled(iter, s, P(k)) && !Enabled(iter, s, C(k));
    }
  }

  /** With fewer than 256 items in all, the model stops only when everyone is through. */
  lemma StopsFinished(iter: nat, n: nat, es: seq<Event>)
    requires n * iter < BYTE && Legal(iter, Init(n), es) && Stuck(iter, Exec(iter, Init(n), es))
    ensures Finished(iter, Exec(iter, Init(n), es))
  {
    hide Sum, Times, Legal, Exec, Stuck;
    var s := Exec(iter, Init(n), es);
    TimesIs(n, iter);
    InitOk(iter, n);
    RunOk(iter, n, Init(n), es);
    StuckProducers(iter, n, s);
    SumBound(s.prods, Did, iter);
    forall c: nat | c < n
      ensures !s.sleeping[c]
    {
      assert !Coming(s.prods, c);
    }
  }

  // ---- Every run ends ----

  /** Steps that a process has gone in its round. */
  function Gone(pc: Pc): nat
  {
    match pc
    case CTop(_) => 0
    case CTest(_) => 1
    case CWait(_) => 2
    case CAgain(_) => 3
    case CTake(_) => 4
    case CRel(_) => 5
    case PTop(_) => 0
    case PPut(_) => 1
    case PRel(_) => 2
    case PScan(_, w) => 3 + w
  }

  /** Steps that a process still has to go at most. */
  function Left(iter: nat, n: nat, pc: Pc): nat
  {
    var all := Times(if pc.i <= iter then iter - pc.i else 0, if IsC(pc) then 6 else n + 4);
    if Gone(pc) <= all then all - Gone(pc) else 0
  }

  ghost function Total(iter: nat, n: nat, s: State): nat
  {
    Sum(s.cons, pc => Left(iter, n, pc)) + Sum(s.prods, pc => Left(iter, n, pc))
  }

  lemma LeftLess(iter: nat, n: nat, s: State, e: Event)
    requires Shape(iter, n, s) && Enabled(iter, s, e)
    ensures e.C? ==> Left(iter, n, Step(iter, s, e).cons[e.k]) < Left(iter, n, s.cons[e.k]) && Step(iter, s, e).prods == s.prods
    ensures e.P? ==> Left(iter, n, Step(iter, s, e).prods[e.k]) < Left(iter, n, s.prods[e.k]) && Step(iter, s, e).cons == s.cons
  {
    var pc := if e.C? then s.cons[e.k] else s.prods[e.k];
    assert Times(iter - pc.i, if IsC(pc) then 6 else n + 4) == Times(iter - pc.i - 1, if IsC(pc) then 6 else n + 4) + if IsC(pc) then 6 else n + 4;
  }

  lemma OnlyOne(iter: nat, s: State, e: Event)
    requires Enabled(iter, s, e)
    ensures e.C? ==> e.k < |s.cons| == |Step(iter, s, e).cons| && Step(iter, s, e).cons == s.cons[e.k := Step(iter, s, e).cons[e.k]]
    ensures e.P? ==> e.k < |s.prods| == |Step(iter, s, e).prods| && Step(iter, s, e).prods == s.prods[e.k := Step(iter, s, e).prods[e.k]]
  {
  }

  lemma TotalLess(iter: nat, n: nat, s: State, e: Event)
    requires Shape(iter, n, s) && Enabled(iter, s, e)
    ensures Total(iter, n, Step(iter, s, e)) < Total(iter, n, s)
  {
    hide Sum, Left, Step, Enabled, Shape;
    LeftLess(iter, n, s, e);
    OnlyOne(iter, s, e);
    var s', f := Step(iter, s, e), pc => Left(iter, n, pc);
    if e.C? {
      SumUpdate(s.cons, f, e.k, s'.cons[e.k]);
    } else {
      SumUpdate(s.prods, f, e.k, s'.prods[e.k]);
    }
  }

  lemma {:induction false} RunsEnd(iter: nat, n: nat, s: State, es: seq<Event>)
    requires Shape(iter, n, s) && Legal(iter, s, es)
    ensures |es| <= Total(iter, n, s)
    decreases |es|
  {
    hide Shape, Step, Enabled, Total;
    if es != [] {
      ShapeStep(iter, n, s, es[0]);
      TotalLess(iter, n, s, es[0]);
      RunsEnd(iter, n, Step(iter, s, es[0]), es[1..]);
    }
  }

  lemma OneMore(iter: nat, s: State, e: Event, es: seq<Event>) returns (es': seq<Event>)
    requires Enabled(iter, s, e) && Legal(iter, Step(iter, s, e), es)
    ensures Legal(iter, s, es') && Exec(iter, s, es') == Exec(iter, Step(iter, s, e), es)
  {
    hide Enabled, Step;
    es' := [e] + es;
    assert es'[1..] == es;
  }

  lemma {:induction false} Then(iter: nat, s: State, es: seq<Event>, more: seq<Event>)
    requires Legal(iter, s, es) && Legal(iter, Exec(iter, s, es), more)
    ensures Legal(iter, s, es + more) && Exec(iter, s, es + more) == Exec(iter, Exec(iter, s, es), more)
    decreases |es|
  {
    hide Enabled, Step;
    if es == [] {
      assert es + more == more;
    } else {
      Then(iter, Step(iter, s, es[0]), es[1..], more);
      assert (es + more)[1..] == es[1..] + more;
    }
  }

  lemma {:induction false} RunOn(iter: nat, n: nat, s: State) returns (es: seq<Event>)
    requires Shape(iter, n, s)
    ensures Legal(iter, s, es) && Stuck(iter, Exec(iter, s, es))
    decreases Total(iter, n, s)
  {
    hide Shape, Step, Enabled, Total;
    if e: Event :| Enabled(iter, s, e) {
      ShapeStep(iter, n, s, e);
      TotalLess(iter, n, s, e);
      var rest := RunOn(iter, n, Step(iter, s, e));
      es := OneMore(iter, s, e, rest);
    } else {
      es := [];
    }
  }

  // ---- 256 items or more ----

  /** No consumer has moved, and no producer is in a round. */
  ghost predicate Unstarted(iter: nat, n: nat, s: State) {
    && Shape(iter, n, s) && s.lk.None?
    && (forall k: nat :: k < n ==> s.cons[k] == CTop(0) && !s.sleeping[k] && s.prods[k].PTop?)
  }

  /** A wakeup that finds nobody asleep. */
  lemma {:induction false} ScanOut(iter: nat, n: nat, s: State, k: nat) returns (es: seq<Event>)
    requires |s.sleeping| == n && k < |s.prods| && s.prods[k].PScan? && s.prods[k].w <= n && forall c: nat :: c < n ==> !s.sleeping[c]
    ensures Legal(iter, s, es) && Exec(iter, s, es) == ToP(s, k, PTop(s.prods[k].i + 1))
    decreases n - s.prods[k].w
  {
    var s' := Step(iter, s, P(k));
    if s.prods[k].w < n {
      assert s.sleeping[s.prods[k].w := false] == s.sleeping;
      assert s' == ToP(s, k, PScan(s.prods[k].i, s.prods[k].w + 1));
      es := ScanOut(iter, n, s', k);
      assert ToP(s', k, PTop(s.prods[k].i + 1)) == ToP(s, k, PTop(s.prods[k].i + 1));
      es := OneMore(iter, s, P(k), es);
    } else {
      es := OneMore(iter, s, P(k), []);
    }
  }

  lemma OneRound(iter: nat, n: nat, s: State, k: nat) returns (es: seq<Event>)
    requires Unstarted(iter, n, s) && k < n && s.prods[k].i < iter
    ensures es != [] && Legal(iter, s, es) && Unstarted(iter, n, Exec(iter, s, es))
  {
    hide Legal, Exec;
    var i := s.prods[k].i;
    var s1 := Step(iter, s, P(k));
    var s2 := Step(iter, s1, P(k));
    var s3 := Step(iter, s2, P(k));
    es := ScanOut(iter, n, s3, k);
    assert Unstarted(iter, n, ToP(s3, k, PTop(i + 1)));
    es := OneMore(iter, s2, P(k), es);
    es := OneMore(iter, s1, P(k), es);
    es := OneMore(iter, s, P(k), es);
    if es == [] {
      NoSteps(iter, s);
    }
  }

  lemma NoSteps(iter: nat, s: State)
    ensures Legal(iter, s, []) && Exec(iter, s, []) == s
  {
  }

  lemma {:induction false} RunTotal(iter: nat, n: nat, s: State, es: seq<Event>)
    requires Shape(iter, n, s) && Legal(iter, s, es)
    ensures Total(iter, n, Exec(iter, s, es)) <= Total(iter, n, s)
    ensures es != [] ==> Total(iter, n, Exec(iter, s, es)) < Total(iter, n, s)
    decreases |es|
  {
    hide Shape, Step, Enabled, Total;
    if es != [] {
      ShapeStep(iter, n, s, es[0]);
      TotalLess(iter, n, s, es[0]);
      RunTotal(iter, n, Step(iter, s, es[0]), es[1..]);
    }
  }

  ghost predicate AllMade(iter: nat, s: State) {
    forall k: nat :: k < |s.prods| ==> s.prods[k] == PTop(iter)
  }

  /** All producers can be through before a consumer moves. */
  lemma {:induction false} ProduceAll(iter: nat, n: nat, s: State) returns (es: seq<Event>)
    requires Unstarted(iter, n, s)
    ensures Legal(iter, s, es) && Unstarted(iter, n, Exec(iter, s, es)) && AllMade(iter, Exec(iter, s, es))
    decreases Total(iter, n, s)
  {
    hide Legal, Exec, Total, Step, Enabled;
    if k: nat :| k < n && s.prods[k].i < iter {
      var round := OneRound(iter, n, s, k);
      RunTotal(iter, n, s, round);
      var rest := ProduceAll(iter, n, Exec(iter, s, round));
      Then(iter, s, round, rest);
      es := round + rest;
    } else {
      es := [];
      NoSteps(iter, s);
    }
  }

  /** From then on m items are there to be taken, and nobody is woken. */
  ghost predicate Spent(iter: nat, n: nat, s: State, m: nat) {
    && Shape(iter, n, s) && LockOk(s) && AllMade(iter, s) && m < BYTE && s.value + Sum(s.cons, Did) == m
    && forall k: nat :: k < n ==> !s.cons[k].CAgain? && (s.cons[k].CWait? ==> s.sleeping[k]) && (s.cons[k].CTake? ==> s.value > 0)
  }

  lemma SpentStep(iter: nat, n: nat, s: State, e: Event, m: nat)
    requires Spent(iter, n, s, m) && Enabled(iter, s, e)
    ensures Spent(iter, n, Step(iter, s, e), m)
  {
    hide Sum, Did;
    ShapeStep(iter, n, s, e);
    LockStep(iter, s, e);
    SumsStep(iter, s, e);
    var s' := Step(iter, s, e);
    assert e.C?;
    assert forall k: nat :: k < n && s.cons[k].CTake? ==> s.lk == Some(C(k));
  }

  lemma {:induction false} SpentRun(iter: nat, n: nat, s: State, es: seq<Event>, m: nat)
    requires Spent(iter, n, s, m) && Legal(iter, s, es)
    ensures Spent(iter, n, Exec(iter, s, es), m)
    decreases |es|
  {
    hide Spent, Step, Enabled;
    if es != [] {
      SpentStep(iter, n, s, es[0], m);
      SpentRun(iter, n, Step(iter, s, es[0]), es[1..], m);
    }
  }

  /** With 256 items or more the model can stop with a consumer asleep for good. */
  lemma CanHang(iter: nat, n: nat) returns (es: seq<Event>)
    requires n * iter >= BYTE
    ensures Legal(iter, Init(n), es) && Stuck(iter, Exec(iter, Init(n), es)) && !Finished(iter, Exec(iter, Init(n), es))
  {
    hide Legal, Exec, Stuck, Step, Enabled, Sum, Times;
    InitOk(iter, n);
    var making := ProduceAll(iter, n, Init(n));
    RunOk(iter, n, Init(n), making);
    var s := Exec(iter, Init(n), making);
    SumBound(s.prods, Did, iter);
    SumBound(s.cons, Did, 0);
    TimesIs(n, iter);
    TimesIs(n, 0);
    var m := Times(n, iter) % BYTE;
    assert Spent(iter, n, s, m);
    var rest := RunOn(iter, n, s);
    SpentRun(iter, n, s, rest, m);
    Then(iter, Init(n), making, rest);
    es := making + rest;
    NotFinished(iter, n, Exec(iter, s, rest), m);
  }

  lemma NotFinished(iter: nat, n: nat, s: State, m: nat)
    requires Spent(iter, n, s, m) && Times(n, iter) >= BYTE
    ensures !Finished(iter, s)
  {
    hide Sum, Times;
    if Finished(iter, s) {
      SumBound(s.cons, Did, iter);
    }
  }

  /** Every run ends, and every run ends with everyone through exactly if there are fewer than 256 items. */
  lemma StopsFinishedExactly(iter: nat, n: nat)
    ensures (forall es :: Legal(iter, Init(n), es) && Stuck(iter, Exec(iter, Init(n), es)) ==> Finished(iter, Exec(iter, Init(n), es))) <==> n * iter < BYTE
    ensures forall es :: Legal(iter, Init(n), es) ==> |es| <= Total(iter, n, Init(n))
  {
    hide Legal, Exec, Stuck, Finished, Init, Total, Inv, SleepersOk;
    if n * iter < BYTE {
      forall es | Legal(iter, Init(n), es) && Stuck(iter, Exec(iter, Init(n), es))
        ensures Finished(iter, Exec(iter, Init(n), es))
      {
        StopsFinished(iter, n, es);
      }
    } else {
      var es := CanHang(iter, n);
    }
    forall es | Legal(iter, Init(n), es)
      ensures |es| <= Total(iter, n, Init(n))
    {
      InitShape(iter, n);
      RunsEnd(iter, n, Init(n), es);
    }
  }

  lemma InitShape(iter: nat, n: nat)
    ensures Shape(iter, n, Init(n))
  {
  }

  /** Whatever the numbers of processes and rounds, no run breaks an assertion of the model. */
  lemma NoAssertFails(iter: nat, n: nat, es: seq<Event>, k: nat)
    requires Legal(iter, Init(n), es) && k < n
    ensures var s := Exec(iter, Init(n), es);
      && |s.cons| == |s.prods| == |s.sleeping| == n
      && (s.cons[k].CTest? ==> !s.sleeping[k] && s.lk.Some?) && (s.cons[k].CRel? || s.prods[k].PRel? ==> s.lk.Some?)
  {
    InitOk(iter, n);
    RunOk(iter, n, Init(n), es);
    AssertsHold(iter, n, Exec(iter, Init(n), es), k);
  }
}
