/**
 Every reachable state of the concurrent log, crashes included, recovers to exactly the
 writes of a set of finished operations, replayed in order: group commit is atomic,
 nothing covered by a commit is lost, nothing unfinished is ever visible after a crash.
 */
module LogRefinement {
  import opened LogDisk
  import opened LogMachine
  import LogCode

  // ---- Counting ----

  function Unused(o: OpState): nat
  {
    if o.Active? && o.charged <= MAXOPBLOCKS then MAXOPBLOCKS - o.charged else 0
  }

  /** Log space that the active operations may still claim. */
  function Budget(ops: seq<OpState>): nat
  {
    if ops == [] then 0 else Budget(ops[..|ops| - 1]) + Unused(ops[|ops| - 1])
  }

  function CountActive(ops: seq<OpState>): nat
  {
    if ops == [] then 0 else CountActive(ops[..|ops| - 1]) + (if ops[|ops| - 1].Active? then 1 else 0)
  }

  function ActiveBit(o: OpState): nat
  {
    if o.Active? then 1 else 0
  }

  lemma {:induction false} UpdateCounts(ops: seq<OpState>, k: nat, o: OpState)
    requires k < |ops|
    ensures Budget(ops[k := o]) == Budget(ops) - Unused(ops[k]) + Unused(o)
    ensures CountActive(ops[k := o]) == CountActive(ops) - ActiveBit(ops[k]) + ActiveBit(o)
  {
    var n := |ops| - 1;
    if k < n {
      UpdateCounts(ops[..n], k, o);
      assert ops[k := o][..n] == ops[..n][k := o];
    } else {
      assert ops[k := o][..n] == ops[..n];
    }
  }

  lemma {:induction false} NoneActive(ops: seq<OpState>)
    ensures CountActive(ops) == 0 <==> forall k :: 0 <= k < |ops| ==> !ops[k].Active?
    ensures CountActive(ops) == 0 ==> Budget(ops) == 0
    ensures Budget(ops) <= CountActive(ops) * MAXOPBLOCKS
  {
    if ops != [] {
      NoneActive(ops[..|ops| - 1]);
    }
  }

  lemma {:induction false} MemberBudget(ops: seq<OpState>, k: nat)
    requires k < |ops|
    ensures Unused(ops[k]) <= Budget(ops)
    ensures ops[k].Active? ==> CountActive(ops) >= 1
  {
    var n := |ops| - 1;
    if k < n {
      MemberBudget(ops[..n], k);
    }
  }

  // ---- The invariant, by the fields that each part reads ----

  /** The reservation of begin_op: what is logged plus what may still be claimed fits. */
  ghost predicate Reserved(ops: seq<OpState>, outstanding: nat, n: nat) {
    && outstanding == CountActive(ops)
    && n + Budget(ops) <= LOGSIZE
    && forall o :: 0 <= o < |ops| && ops[o].Active? ==> ops[o].charged <= MAXOPBLOCKS
  }

  /** Writes before `first` belong to covered or lost operations, those after it to the open transaction. */
  ghost predicate HistoryOk(ops: seq<OpState>, issued: seq<Write>, first: nat, durable: set<nat>) {
    && first <= |issued|
    && (forall o :: o in durable ==> o < |ops| && ops[o].Ended?)
    && (forall k :: 0 <= k < |issued| ==> issued[k].op < |ops|)
    && (forall k :: 0 <= k < first ==> ops[issued[k].op].Lost? || issued[k].op in durable)
    && (forall k :: first <= k < |issued| ==> !ops[issued[k].op].Lost? && issued[k].op !in durable)
  }

  /** No finished operation is waiting for a commit. */
  ghost predicate Settled(ops: seq<OpState>, durable: set<nat>) {
    forall o :: 0 <= o < |ops| ==> !ops[o].Ended? || o in durable
  }

  /** The open transaction lives in the cache only, and bread shows its replay. */
  ghost predicate OpenOk(g: Geometry, disk: Disk, cache: Home, lh: seq<nat>, open: seq<Write>) {
    && GoodLog(g, disk) && Header(g, disk) == []
    && GoodList(g, lh)
    && cache.Keys == (set b | b in lh)
    && HomeOf(g, disk) + cache == Replay(HomeOf(g, disk), open)
  }

  /** A committed transaction is being copied home. */
  ghost predicate CopyOk(g: Geometry, disk: Disk, lh: seq<nat>, i: nat) {
    && GoodLog(g, disk) && lh == Header(g, disk)
    && i <= |lh| && Installed(g, disk, lh, i)
  }

  ghost predicate CacheIs(cache: Home, blocks: seq<nat>) {
    forall b :: b in cache <==> b in blocks
  }

  ghost predicate PhaseOk(g: Geometry, s: State) {
    s.first <= |s.issued| &&
    var open := s.issued[s.first..];
    match s.phase
    case Running => OpenOk(g, s.disk, s.cache, s.lh, open) && (s.outstanding == 0 ==> Settled(s.ops, s.durable))
    case Committing => OpenOk(g, s.disk, s.cache, s.lh, open)
    case Logging(i) => OpenOk(g, s.disk, s.cache, s.lh, open) && i <= |s.lh| && SlotsHold(g, s.disk, s.lh, s.cache, i)
    case Installing(i) => CopyOk(g, s.disk, s.lh, i) && CacheIs(s.cache, s.lh[i..]) && open == [] && Settled(s.ops, s.durable)
    case Redoing(i) => CopyOk(g, s.disk, s.lh, i) && s.cache == map[] && open == [] && Settled(s.ops, s.durable)
    case Finishing => OpenOk(g, s.disk, s.cache, s.lh, open) && s.lh == [] && Settled(s.ops, s.durable)
    case Down => GoodLog(g, s.disk) && s.cache == map[] && s.lh == [] && open == [] && Settled(s.ops, s.durable)
  }

  ghost predicate Inv(g: Geometry, init: Home, s: State) {
    && Reserved(s.ops, s.outstanding, |s.lh|)
    && (!s.phase.Running? ==> s.outstanding == 0)
    && HistoryOk(s.ops, s.issued, s.first, s.durable)
    && PhaseOk(g, s)
    && LogCode.RecoversTo(g, s.disk, Promised(init, s.issued, s.durable))
  }

  /** A machine that boots on any disk that recovery can read, with no operation yet. */
  ghost predicate Init(g: Geometry, s: State) {
    && GoodLog(g, s.disk)
    && s == State(s.disk, map[], [], 0, Down, [], [], 0, {})
  }

  lemma InitInv(g: Geometry, s: State)
    requires Init(g, s)
    ensures Inv(g, Recovered(g, s.disk), s)
  {
  }

  // ---- Steps of the operations ----

  lemma BeginStep(g: Geometry, init: Home, s: State)
    requires Inv(g, init, s) && Enabled(g, s, Begin)
    ensures Inv(g, init, Next(g, s, Begin))
  {
    hide OpenOk, Promised, LogCode.RecoversTo;
    assert (s.ops + [Active(0)])[..|s.ops|] == s.ops;
    NoneActive(s.ops);
  }

  /** log_write keeps the cache equal to the replay of the open transaction. */
  lemma LogWriteOpen(g: Geometry, disk: Disk, cache: Home, lh: seq<nat>, open: seq<Write>, w: Write)
    requires OpenOk(g, disk, cache, lh, open) && g.IsHome(w.b)
    requires |lh| < LOGSIZE && |lh| < g.size - 1
    ensures OpenOk(g, disk, cache[w.b := w.v], LogCode.LogAppend(lh, w.b), open + [w])
  {
    LogCode.LogAppendGood(g, lh, w.b);
    hide GoodList, HomeOf, DecodeHeader;
    var h := HomeOf(g, disk);
    assert (open + [w])[..|open|] == open;
    assert h + cache[w.b := w.v] == (h + cache)[w.b := w.v];
  }

  lemma LogWritePromise(init: Home, ops: seq<OpState>, issued: seq<Write>, first: nat, durable: set<nat>, w: Write)
    requires HistoryOk(ops, issued, first, durable) && w.op < |ops| && ops[w.op].Active?
    ensures HistoryOk(ops, issued + [w], first, durable)
    ensures Promised(init, issued + [w], durable) == Promised(init, issued, durable)
  {
    assert w.op !in durable;
    hide Only, Replay;
    OnlyConcat(issued, [w], durable);
    OnlyNone([w], durable);
    assert Only(issued + [w], durable) == Only(issued, durable);
  }

  lemma OpChanges(ops: seq<OpState>, issued: seq<Write>, first: nat, durable: set<nat>, op: nat, o: OpState)
    requires HistoryOk(ops, issued, first, durable) && op < |ops| && ops[op].Active? && !o.Lost?
    ensures HistoryOk(ops[op := o], issued, first, durable)
  {
  }

  lemma Charge(ops: seq<OpState>, outstanding: nat, n: nat, op: nat)
    requires Reserved(ops, outstanding, n) && op < |ops| && ops[op].Active? && ops[op].charged < MAXOPBLOCKS
    ensures Reserved(ops[op := Active(ops[op].charged + 1)], outstanding, n + 1)
  {
    hide CountActive, Budget;
    UpdateCounts(ops, op, Active(ops[op].charged + 1));
  }

  lemma Retire(ops: seq<OpState>, outstanding: nat, n: nat, op: nat)
    requires Reserved(ops, outstanding, n) && op < |ops| && ops[op].Active?
    ensures outstanding >= 1 && Reserved(ops[op := Ended], outstanding - 1, n)
  {
    hide CountActive, Budget;
    UpdateCounts(ops, op, Ended);
    MemberBudget(ops, op);
  }

  lemma LogWriteStep(g: Geometry, init: Home, s: State, op: nat, b: nat, v: Block)
    requires Inv(g, init, s) && Enabled(g, s, LogWrite(op, b, v))
    ensures Inv(g, init, Next(g, s, LogWrite(op, b, v)))
  {
    hide OpenOk, Promised, Reserved, HistoryOk, Settled, LogCode.RecoversTo, CopyOk, CacheIs, SlotsHold;
    var w := Write(op, b, v);
    Retire(s.ops, s.outstanding, |s.lh|, op);
    LogWriteOpen(g, s.disk, s.cache, s.lh, s.issued[s.first..], w);
    LogWritePromise(init, s.ops, s.issued, s.first, s.durable, w);
    assert (s.issued + [w])[s.first..] == s.issued[s.first..] + [w];
    if b !in s.lh {
      Charge(s.ops, s.outstanding, |s.lh|, op);
      OpChanges(s.ops, s.issued + [w], s.first, s.durable, op, Active(s.ops[op].charged + 1));
    }
  }

  lemma EndStep(g: Geometry, init: Home, s: State, op: nat)
    requires Inv(g, init, s) && Enabled(g, s, End(op))
    ensures Inv(g, init, Next(g, s, End(op)))
  {
    hide OpenOk, Promised, Reserved, HistoryOk, Settled, LogCode.RecoversTo, CopyOk, CacheIs, SlotsHold;
    Retire(s.ops, s.outstanding, |s.lh|, op);
    OpChanges(s.ops, s.issued, s.first, s.durable, op, Ended);
  }

  lemma CrashStep(g: Geometry, init: Home, s: State)
    requires Inv(g, init, s)
    ensures Inv(g, init, Next(g, s, Crash))
  {
    hide Promised;
    var s' := Next(g, s, Crash);
    forall o | 0 <= o < |s'.ops|
      ensures !s'.ops[o].Active?
    {
      assert s'.ops[o] == Lose(s.ops[o], o in s.durable);
    }
    NoneActive(s'.ops);
    hide Budget, CountActive, OpenOk, CopyOk, Recovered;
  }

  // ---- Steps of the commit ----

  /** The operations that a commit newly covers are exactly those of the open transaction. */
  lemma CommitOnly(ops: seq<OpState>, issued: seq<Write>, first: nat, durable: set<nat>)
    requires HistoryOk(ops, issued, first, durable) && forall k :: 0 <= k < |ops| ==> !ops[k].Active?
    ensures Only(issued, EndedOps(ops)) == Only(issued, durable) + issued[first..]
  {
    hide Only;
    var past, open, E := issued[..first], issued[first..], EndedOps(ops);
    assert issued == past + open;
    OnlyConcat(past, open, durable);
    OnlyConcat(past, open, E);
    OnlyAgree(past, durable, E);
    OnlyNone(open, durable);
    OnlyAll(open, E);
  }

  lemma CommitHistory(init: Home, ops: seq<OpState>, issued: seq<Write>, first: nat, durable: set<nat>)
    requires HistoryOk(ops, issued, first, durable) && CountActive(ops) == 0
    ensures HistoryOk(ops, issued, |issued|, EndedOps(ops)) && Settled(ops, EndedOps(ops))
    ensures Promised(init, issued, EndedOps(ops)) == Replay(Promised(init, issued, durable), issued[first..])
  {
    NoneActive(ops);
    CommitOnly(ops, issued, first, durable);
    hide Only, CountActive, Replay;
    ReplayConcat(init, Only(issued, durable), issued[first..]);
  }

  /** Committing an empty transaction leaves the disk alone. */
  lemma EmptyCommit(g: Geometry, disk: Disk, cache: Home, open: seq<Write>)
    requires OpenOk(g, disk, cache, [], open)
    ensures OpenOk(g, disk, cache, [], [])
    ensures Replay(Recovered(g, disk), open) == Recovered(g, disk)
  {
    CleanRecovers(g, disk);
    hide GoodLog, GoodList, HomeOf, Recovered;
    assert cache == map[];
    assert HomeOf(g, disk) + cache == HomeOf(g, disk);
  }

  lemma CommittingStep(g: Geometry, init: Home, s: State)
    requires Inv(g, init, s) && s.phase.Committing? && Enabled(g, s, Advance)
    ensures Inv(g, init, Next(g, s, Advance))
  {
    hide Budget, CountActive, HistoryOk, Settled, OpenOk, Recovered, Promised;
    if s.lh == [] {
      CommitHistory(init, s.ops, s.issued, s.first, s.durable);
      EmptyCommit(g, s.disk, s.cache, s.issued[s.first..]);
      assert s.issued[|s.issued|..] == [];
    } else {
      OpenList(g, s.disk, s.cache, s.lh, s.issued[s.first..]);
    }
  }

  lemma OpenList(g: Geometry, disk: Disk, cache: Home, lh: seq<nat>, open: seq<Write>)
    requires OpenOk(g, disk, cache, lh, open)
    ensures GoodLog(g, disk) && GoodList(g, lh)
  {
  }

  lemma LoggingOpen(g: Geometry, disk: Disk, cache: Home, lh: seq<nat>, open: seq<Write>, i: nat)
    requires OpenOk(g, disk, cache, lh, open) && i < |lh| && SlotsHold(g, disk, lh, cache, i)
    ensures var d' := disk[g.start + 1 + i := cache[lh[i]]];
      && OpenOk(g, d', cache, lh, open) && SlotsHold(g, d', lh, cache, i + 1)
      && Recovered(g, d') == Recovered(g, disk)
  {
    hide HomeOf, Replay, Recovered, GoodHeader, DecodeHeader;
    SlotWriteInvisible(g, disk, g.start + 1 + i, cache[lh[i]]);
  }

  lemma LoggingStep(g: Geometry, init: Home, s: State)
    requires Inv(g, init, s) && s.phase.Logging? && s.phase.i < |s.lh| && Enabled(g, s, Advance)
    ensures Inv(g, init, Next(g, s, Advance))
  {
    hide Reserved, HistoryOk, OpenOk, Recovered, Promised, SlotsHold, GoodList, GoodHeader, CopyOk, CacheIs, Settled;
    LoggingOpen(g, s.disk, s.cache, s.lh, s.issued[s.first..], s.phase.i);
    OpenList(g, Next(g, s, Advance).disk, s.cache, s.lh, s.issued[s.first..]);
  }

  /** The header write: the disk takes up the open transaction as a whole. */
  lemma HeadingCopy(g: Geometry, disk: Disk, cache: Home, lh: seq<nat>, open: seq<Write>)
    requires OpenOk(g, disk, cache, lh, open) && SlotsHold(g, disk, lh, cache, |lh|)
    ensures var d' := disk[g.start := EncodeHeader(disk[g.start], lh)];
      && CopyOk(g, d', lh, 0) && CacheIs(cache, lh)
      && Recovered(g, d') == Replay(Recovered(g, disk), open)
  {
    hide HomeOf, Replay, Recovered, GoodHeader, DecodeHeader;
    CleanRecovers(g, disk);
    HeaderWriteCommits(g, disk, lh, cache);
  }

  lemma HeadingStep(g: Geometry, init: Home, s: State)
    requires Inv(g, init, s) && s.phase.Logging? && s.phase.i == |s.lh| && Enabled(g, s, Advance)
    ensures Inv(g, init, Next(g, s, Advance))
  {
    hide Budget, CountActive, HistoryOk, Settled, OpenOk, CopyOk, CacheIs, Recovered, Promised, SlotsHold, GoodList, GoodHeader;
    CommitHistory(init, s.ops, s.issued, s.first, s.durable);
    HeadingCopy(g, s.disk, s.cache, s.lh, s.issued[s.first..]);
    CopyDisk(g, Next(g, s, Advance).disk, s.lh, 0);
    assert s.lh[0..] == s.lh;
    assert s.issued[|s.issued|..] == [];
  }

  lemma CopyDisk(g: Geometry, disk: Disk, lh: seq<nat>, i: nat)
    requires CopyOk(g, disk, lh, i)
    ensures GoodLog(g, disk) && GoodList(g, lh) && |lh| <= LOGSIZE && i <= |lh|
  {
  }

  lemma CopyOne(g: Geometry, disk: Disk, lh: seq<nat>, i: nat)
    requires CopyOk(g, disk, lh, i) && i < |lh|
    ensures var d' := disk[lh[i] := disk[g.start + 1 + i]];
      CopyOk(g, d', lh, i + 1) && Recovered(g, d') == Recovered(g, disk)
  {
    hide Recovered, GoodHeader, DecodeHeader, Installed;
    CopyDisk(g, disk, lh, i);
    InstallInvisible(g, disk, i);
    InstallOneMore(g, disk, lh, i);
  }

  lemma CopyDone(g: Geometry, disk: Disk, lh: seq<nat>)
    requires CopyOk(g, disk, lh, |lh|)
    ensures var d' := disk[g.start := EncodeHeader(disk[g.start], [])];
      && OpenOk(g, d', map[], [], []) && Recovered(g, d') == Recovered(g, disk)
  {
    hide Recovered, GoodHeader, DecodeHeader, HomeOf, Installed;
    ClearInvisible(g, disk);
    var h := HomeOf(g, disk);
    assert h + map[] == h;
  }

  lemma CacheShrinks(g: Geometry, cache: Home, lh: seq<nat>, i: nat)
    requires GoodList(g, lh) && i <= |lh| && CacheIs(cache, lh[i..])
    ensures i < |lh| ==> CacheIs(cache - {lh[i]}, lh[i + 1..])
    ensures i == |lh| ==> cache == map[]
  {
    if i < |lh| {
      assert lh[i..] == [lh[i]] + lh[i + 1..];
      assert lh[i] !in lh[i + 1..];
    }
  }

  lemma InstallingStep(g: Geometry, init: Home, s: State, i: nat)
    requires Inv(g, init, s) && s.phase == Installing(i) && Enabled(g, s, Advance)
    ensures Inv(g, init, Next(g, s, Advance))
  {
    hide Reserved, HistoryOk, Settled, OpenOk, CopyOk, CacheIs, Recovered, Promised, GoodHeader, GoodList;
    CopyDisk(g, s.disk, s.lh, i);
    CacheShrinks(g, s.cache, s.lh, i);
    var s' := Next(g, s, Advance);
    if i < |s.lh| {
      CopyOne(g, s.disk, s.lh, i);
      CopyDisk(g, s'.disk, s.lh, i + 1);
    } else {
      CopyDone(g, s.disk, s.lh);
      OpenList(g, s'.disk, map[], [], []);
      ReservedLess(s.ops, s.outstanding, |s.lh|);
    }
  }

  lemma ReservedLess(ops: seq<OpState>, outstanding: nat, n: nat)
    requires Reserved(ops, outstanding, n)
    ensures Reserved(ops, outstanding, 0)
  {
  }

  lemma RedoingStep(g: Geometry, init: Home, s: State, i: nat)
    requires Inv(g, init, s) && s.phase == Redoing(i) && Enabled(g, s, Advance)
    ensures Inv(g, init, Next(g, s, Advance))
  {
    hide Reserved, HistoryOk, Settled, OpenOk, CopyOk, CacheIs, Recovered, Promised, GoodHeader, GoodList;
    CopyDisk(g, s.disk, s.lh, i);
    var s' := Next(g, s, Advance);
    if i < |s.lh| {
      CopyOne(g, s.disk, s.lh, i);
      CopyDisk(g, s'.disk, s.lh, i + 1);
    } else {
      CopyDone(g, s.disk, s.lh);
      OpenList(g, s'.disk, map[], [], []);
      ReservedLess(s.ops, s.outstanding, |s.lh|);
    }
  }

  /** Boot reads the header back. */
  lemma BootStep(g: Geometry, init: Home, s: State)
    requires Inv(g, init, s) && s.phase.Down? && Enabled(g, s, Advance)
    ensures Inv(g, init, Next(g, s, Advance))
  {
    NoneActive(s.ops);
    hide Promised, HistoryOk, Budget, CountActive, Recovered, Settled;
  }

  lemma AdvanceInv(g: Geometry, init: Home, s: State)
    requires Inv(g, init, s) && Enabled(g, s, Advance)
    ensures Inv(g, init, Next(g, s, Advance))
  {
    hide Reserved, HistoryOk, OpenOk, Promised, Settled, LogCode.RecoversTo, CopyOk, CacheIs;
    match s.phase
    case Committing => CommittingStep(g, init, s);
    case Logging(i) => if i < |s.lh| { LoggingStep(g, init, s); } else { HeadingStep(g, init, s); }
    case Installing(i) => InstallingStep(g, init, s, i);
    case Redoing(i) => RedoingStep(g, init, s, i);
    case Finishing =>
    case Down => BootStep(g, init, s);
  }

  lemma StepInv(g: Geometry, init: Home, s: State, e: Event)
    requires Inv(g, init, s) && Enabled(g, s, e)
    ensures Inv(g, init, Next(g, s, e))
  {
    hide *;
    match e
    case Begin => BeginStep(g, init, s);
    case LogWrite(op, b, v) => LogWriteStep(g, init, s, op, b, v);
    case End(op) => EndStep(g, init, s, op);
    case Advance => AdvanceInv(g, init, s);
    case Crash => CrashStep(g, init, s);
  }

  // ---- Whole runs ----

  ghost predicate Legal(g: Geometry, s: State, es: seq<Event>)
    decreases |es|
  {
    es == [] || (Enabled(g, s, es[0]) && Legal(g, Next(g, s, es[0]), es[1..]))
  }

  ghost function Exec(g: Geometry, s: State, es: seq<Event>): State
    requires Legal(g, s, es)
    decreases |es|
  {
    if es == [] then s else Exec(g, Next(g, s, es[0]), es[1..])
  }

  lemma {:induction false} RunInv(g: Geometry, init: Home, s: State, es: seq<Event>)
    requires Inv(g, init, s) && Legal(g, s, es)
    ensures Inv(g, init, Exec(g, s, es))
    decreases |es|
  {
    if es != [] {
      StepInv(g, init, s, es[0]);
      RunInv(g, init, Next(g, s, es[0]), es[1..]);
    }
  }

  /** Main theorem.  After any interleaving of operations, commit steps, crashes and recovery
      steps, a boot would find exactly the writes of a set of finished operations, replayed
      in the order they were issued. */
  lemma Refinement(g: Geometry, s0: State, es: seq<Event>)
    requires Init(g, s0) && Legal(g, s0, es)
    ensures var s := Exec(g, s0, es);
      && LogCode.RecoversTo(g, s.disk, Promised(Recovered(g, s0.disk), s.issued, s.durable))
      && forall o :: o in s.durable ==> o < |s.ops| && s.ops[o].Ended?
  {
    InitInv(g, s0);
    RunInv(g, Recovered(g, s0.disk), s0, es);
  }

  /** The running system reads the promised blocks overlaid with the open transaction. */
  lemma ReadsSeeEverything(g: Geometry, s0: State, es: seq<Event>)
    requires Init(g, s0) && Legal(g, s0, es) && Exec(g, s0, es).phase.Running?
    ensures var s := Exec(g, s0, es);
      && GoodDisk(g, s.disk) && s.first <= |s.issued|
      && HomeOf(g, s.disk) + s.cache
         == Replay(Promised(Recovered(g, s0.disk), s.issued, s.durable), s.issued[s.first..])
  {
    InitInv(g, s0);
    RunInv(g, Recovered(g, s0.disk), s0, es);
    CleanRecovers(g, Exec(g, s0, es).disk);
    hide Exec, Legal, Promised, HomeOf, Recovered;
  }

  lemma StepKeeps(g: Geometry, s: State, e: Event)
    requires Reserved(s.ops, s.outstanding, |s.lh|) && HistoryOk(s.ops, s.issued, s.first, s.durable) && Enabled(g, s, e)
    ensures s.durable <= Next(g, s, e).durable && s.issued <= Next(g, s, e).issued
  {
  }

  /** What a commit has covered stays covered, through every later step and crash. */
  lemma {:induction false} NothingLost(g: Geometry, init: Home, s: State, es: seq<Event>)
    requires Inv(g, init, s) && Legal(g, s, es)
    ensures s.durable <= Exec(g, s, es).durable && s.issued <= Exec(g, s, es).issued
    decreases |es|
  {
    hide PhaseOk, Promised, LogCode.RecoversTo, Reserved, HistoryOk, Next;
    if es != [] {
      StepInv(g, init, s, es[0]);
      StepKeeps(g, s, es[0]);
      NothingLost(g, init, Next(g, s, es[0]), es[1..]);
    }
  }

  /** When the last operation's end_op has run its commit, every finished operation is covered. */
  lemma QuietIsDurable(g: Geometry, s0: State, es: seq<Event>)
    requires Init(g, s0) && Legal(g, s0, es)
    requires Exec(g, s0, es).phase.Running? && Exec(g, s0, es).outstanding == 0
    ensures var s := Exec(g, s0, es); forall o :: 0 <= o < |s.ops| ==> s.ops[o].Lost? || o in s.durable
  {
    hide Legal, Exec, Recovered, Promised, OpenOk;
    InitInv(g, s0);
    RunInv(g, Recovered(g, s0.disk), s0, es);
    NoneActive(Exec(g, s0, es).ops);
  }

  /** The commit never gets stuck, and the list it works on is frozen: while it runs no
      operation is active, so neither the panic at line 153 nor a log_write can happen. */
  lemma CommitUndisturbed(g: Geometry, init: Home, s: State)
    requires Inv(g, init, s) && !s.phase.Running?
    ensures Enabled(g, s, Advance)
    ensures !Enabled(g, s, Begin)
    ensures forall op: nat :: !Enabled(g, s, End(op))
    ensures forall op: nat, b: nat, v: Block :: !Enabled(g, s, LogWrite(op, b, v))
  {
    hide Promised, Recovered, HomeOf, Replay;
    NoneActive(s.ops);
  }
}
