/**
 The log under concurrency: any number of file-system operations share one transaction,
 the commit proceeds one block write at a time, and the machine may crash between any two
 steps, also inside recovery.
 */
module LogMachine {
  import opened LogDisk
  import LogCode

  /** One log_write: operation number, block, new content. */
  datatype Write = Write(op: nat, b: nat, v: Block)

  /** Active carries the number of blocks the operation has added to the log. */
  datatype OpState = Active(charged: nat) | Ended | Lost

  /** Running is log.committing == 0; Committing .. Finishing is the body of end_op's commit,
      Logging(i) and Installing(i) with i == n being about to write the header; Down and
      Redoing(i) are the boot after a crash. */
  datatype Phase =
    | Running | Committing | Logging(i: nat) | Installing(i: nat) | Finishing
    | Down | Redoing(i: nat)

  /** The fields of log.c, then the history: which operations ran, what they logged in order,
      where the open transaction starts in it, which operations a commit has covered. */
  datatype State = State(
    disk: Disk, cache: Home, lh: seq<nat>, outstanding: nat, phase: Phase,
    ops: seq<OpState>, issued: seq<Write>, first: nat, durable: set<nat>)

  datatype Event = Begin | LogWrite(op: nat, b: nat, v: Block) | End(op: nat) | Advance | Crash

  /** Line 218 of log.c. */
  predicate TooBig(g: Geometry, s: State) {
    |s.lh| >= LOGSIZE || |s.lh| >= g.size - 1
  }

  function EndedOps(ops: seq<OpState>): (r: set<nat>)
  {
    set o: nat | o < |ops| && ops[o].Ended?
  }

  function Lose(o: OpState, kept: bool): OpState
  {
    if kept then o else Lost
  }

  ghost predicate Enabled(g: Geometry, s: State, e: Event)
  {
    match e
    case Begin =>
      s.phase.Running? && |s.lh| + (s.outstanding + 1) * MAXOPBLOCKS <= LOGSIZE
    case LogWrite(op, b, v) =>
      && op < |s.ops| && s.ops[op].Active?
      && g.IsHome(b) && !TooBig(g, s)
      && (b in s.lh || s.ops[op].charged < MAXOPBLOCKS)
    case End(op) =>
      op < |s.ops| && s.ops[op].Active?
    case Advance =>
      && !s.phase.Running?
      && GoodDisk(g, s.disk)
      && match s.phase {
           case Logging(i) => i <= |s.lh| && GoodList(g, s.lh) && (i < |s.lh| ==> s.lh[i] in s.cache)
           case Installing(i) => i <= |s.lh| && GoodList(g, s.lh)
           case Redoing(i) => i <= |s.lh| && GoodList(g, s.lh)
           case Down => GoodLog(g, s.disk)
           case _ => true
         }
    case Crash => true
  }

  function CommitPoint(s: State): State
  {
    s.(durable := EndedOps(s.ops), first := |s.issued|)
  }

  /** One step of the commit or of recovery: at most one block write. */
  function AdvanceStep(g: Geometry, s: State): State
    requires Enabled(g, s, Advance)
  {
    match s.phase
    case Committing =>
      if s.lh == [] then CommitPoint(s).(phase := Finishing) else s.(phase := Logging(0))
    case Logging(i) =>
      if i < |s.lh| then
        s.(disk := s.disk[g.start + 1 + i := s.cache[s.lh[i]]], phase := Logging(i + 1))
      else
        CommitPoint(s).(disk := s.disk[g.start := EncodeHeader(s.disk[g.start], s.lh)], phase := Installing(0))
    case Installing(i) =>
      if i < |s.lh| then
        s.(disk := s.disk[s.lh[i] := s.disk[g.start + 1 + i]], cache := s.cache - {s.lh[i]}, phase := Installing(i + 1))
      else
        s.(disk := s.disk[g.start := EncodeHeader(s.disk[g.start], [])], lh := [], phase := Finishing)
    case Finishing =>
      s.(phase := Running)
    case Down =>
      s.(lh := Header(g, s.disk), phase := Redoing(0))
    case Redoing(i) =>
      if i < |s.lh| then
        s.(disk := s.disk[s.lh[i] := s.disk[g.start + 1 + i]], phase := Redoing(i + 1))
      else
        s.(disk := s.disk[g.start := EncodeHeader(s.disk[g.start], [])], lh := [], phase := Running)
    case Running =>
      s
  }

  function Next(g: Geometry, s: State, e: Event): State
    requires Enabled(g, s, e)
  {
    match e
    case Begin =>
      s.(ops := s.ops + [Active(0)], outstanding := s.outstanding + 1)
    case LogWrite(op, b, v) =>
      s.(lh := LogCode.LogAppend(s.lh, b), cache := s.cache[b := v],
         issued := s.issued + [Write(op, b, v)],
         ops := if b in s.lh then s.ops else s.ops[op := Active(s.ops[op].charged + 1)])
    case End(op) =>
      var left := if s.outstanding == 0 then 0 else s.outstanding - 1;
      s.(ops := s.ops[op := Ended], outstanding := left,
         phase := if left == 0 then Committing else s.phase)
    case Advance =>
      AdvanceStep(g, s)
    case Crash =>
      // memory is gone; operations that no commit covers are lost
      s.(cache := map[], lh := [], outstanding := 0, phase := Down,
         ops := seq(|s.ops|, i requires 0 <= i < |s.ops| => Lose(s.ops[i], i in s.durable)),
         first := |s.issued|)
  }

  // ---- What the disk should hold ----

  /** The home blocks after the writes ws, in order. */
  ghost function Replay(h: Home, ws: seq<Write>): Home
  {
    if ws == [] then h
    else Replay(h, ws[..|ws| - 1])[ws[|ws| - 1].b := ws[|ws| - 1].v]
  }

  /** The writes of the operations in D, in order. */
  ghost function Only(ws: seq<Write>, D: set<nat>): seq<Write>
  {
    if ws == [] then []
    else Only(ws[..|ws| - 1], D) + (if ws[|ws| - 1].op in D then [ws[|ws| - 1]] else [])
  }

  lemma {:induction false} ReplayConcat(h: Home, a: seq<Write>, b: seq<Write>)
    ensures Replay(h, a + b) == Replay(Replay(h, a), b)
    decreases |b|
  {
    if b == [] {
      assert a + b == a;
    } else {
      assert (a + b)[..|a + b| - 1] == a + b[..|b| - 1];
      ReplayConcat(h, a, b[..|b| - 1]);
    }
  }

  lemma {:induction false} OnlyConcat(a: seq<Write>, b: seq<Write>, D: set<nat>)
    ensures Only(a + b, D) == Only(a, D) + Only(b, D)
    decreases |b|
  {
    if b == [] {
      assert a + b == a;
    } else {
      assert (a + b)[..|a + b| - 1] == a + b[..|b| - 1];
      OnlyConcat(a, b[..|b| - 1], D);
    }
  }

  lemma {:induction false} OnlyAgree(ws: seq<Write>, D: set<nat>, E: set<nat>)
    requires forall k :: 0 <= k < |ws| ==> (ws[k].op in D <==> ws[k].op in E)
    ensures Only(ws, D) == Only(ws, E)
  {
    if ws != [] {
      OnlyAgree(ws[..|ws| - 1], D, E);
    }
  }

  lemma {:induction false} OnlyAll(ws: seq<Write>, D: set<nat>)
    requires forall k :: 0 <= k < |ws| ==> ws[k].op in D
    ensures Only(ws, D) == ws
  {
    if ws != [] {
      OnlyAll(ws[..|ws| - 1], D);
      assert ws == ws[..|ws| - 1] + [ws[|ws| - 1]];
    }
  }

  lemma {:induction false} OnlyNone(ws: seq<Write>, D: set<nat>)
    requires forall k :: 0 <= k < |ws| ==> ws[k].op !in D
    ensures Only(ws, D) == []
  {
    if ws != [] {
      OnlyNone(ws[..|ws| - 1], D);
    }
  }

  /** The home blocks that the covered operations, and no others, have produced. */
  ghost function Promised(init: Home, issued: seq<Write>, durable: set<nat>): Home
  {
    Replay(init, Only(issued, durable))
  }
}
