/**
 The reservation arithmetic of begin_op against the guard of log_write.  Each operation adds
 at most MAXOPBLOCKS blocks.  The guard at line 218 then stops a new block exactly when the log
 region is too small for the reservation (log.size <= LOGSIZE, which is what mkfs lays out),
 and a rewrite of a block already logged exactly when the log is full.
 */
module LogReservation {
  import opened LogDisk
  import opened LogMachine
  import opened LogRefinement

  /** A region with LOGSIZE data slots never stops an operation that is within its budget. */
  lemma NewBlockFits(g: Geometry, init: Home, s: State, op: nat)
    requires Inv(g, init, s) && op < |s.ops| && s.ops[op].Active? && s.ops[op].charged < MAXOPBLOCKS
    requires g.size > LOGSIZE
    ensures !TooBig(g, s)
  {
    MemberBudget(s.ops, op);
    hide PhaseOk, HistoryOk, Budget, CountActive;
  }

  /** In such a region the guard fires exactly when the log is full, and then every active
      operation has spent its budget: only rewrites of logged blocks can meet it. */
  lemma GuardMeansFull(g: Geometry, init: Home, s: State)
    requires Inv(g, init, s) && g.size > LOGSIZE
    ensures TooBig(g, s) <==> |s.lh| == LOGSIZE
    ensures TooBig(g, s) ==> forall o :: 0 <= o < |s.ops| && s.ops[o].Active? ==> s.ops[o].charged == MAXOPBLOCKS
  {
    hide PhaseOk, HistoryOk, Budget, CountActive;
    forall o: nat | o < |s.ops|
      ensures Unused(s.ops[o]) <= Budget(s.ops)
    {
      MemberBudget(s.ops, o);
    }
  }

  /** Every slot that write_log and install_trans touch lies inside the log region. */
  lemma SlotsInside(g: Geometry, init: Home, s: State, tail: nat)
    requires Inv(g, init, s) && tail < |s.lh|
    ensures g.InLog(g.start + tail + 1) && g.IsHome(s.lh[tail])
  {
    hide Promised, Recovered, HomeOf, Replay;
  }

  /** log_write of a block that the transaction has logged needs no room, and is refused all the same once the log is
      full; one of a further block is never refused before the operation has logged MAXOPBLOCKS. */
  lemma WriteAccepted(g: Geometry, init: Home, s: State, op: nat, b: nat, v: Block)
    requires Inv(g, init, s) && op < |s.ops| && s.ops[op].Active? && g.IsHome(b) && g.size > LOGSIZE
    ensures s.ops[op].charged < MAXOPBLOCKS ==> Enabled(g, s, LogWrite(op, b, v))
    ensures b in s.lh ==> (Enabled(g, s, LogWrite(op, b, v)) <==> |s.lh| < LOGSIZE)
    ensures b in s.lh && |s.lh| < LOGSIZE ==> Next(g, s, LogWrite(op, b, v)).ops == s.ops && Next(g, s, LogWrite(op, b, v)).lh == s.lh
  {
    hide Inv;
    GuardMeansFull(g, init, s);
    if s.ops[op].charged < MAXOPBLOCKS {
      NewBlockFits(g, init, s, op);
    }
  }

  // ---- Runs that meet the guard ----

  lemma {:induction false} ExecAppend(g: Geometry, s: State, es: seq<Event>, e: Event)
    requires Legal(g, s, es) && Enabled(g, Exec(g, s, es), e)
    ensures Legal(g, s, es + [e]) && Exec(g, s, es + [e]) == Next(g, Exec(g, s, es), e)
    decreases |es|
  {
    hide Enabled, Next;
    if es == [] {
      assert [e][1..] == [];
      assert Legal(g, Next(g, s, e), []);
      assert es + [e] == [e];
    } else {
      ExecAppend(g, Next(g, s, es[0]), es[1..], e);
      assert (es + [e])[1..] == es[1..] + [e];
    }
  }

  /** The k-th home block of the device. */
  function HomeBlock(g: Geometry, k: nat): nat
  {
    if k < g.start then k else k + g.size
  }

  function FirstHomes(g: Geometry, m: nat): seq<nat>
  {
    seq(m, k requires 0 <= k < m => HomeBlock(g, k))
  }

  function Clamp(k: int): nat
  {
    if k < 0 then 0 else if k > MAXOPBLOCKS then MAXOPBLOCKS else k
  }

  function Zeroes(): Block
  {
    seq(BWORDS, _ => 0)
  }

  /** Three operations have begun and have together logged m distinct blocks, in turn. */
  ghost predicate Filled(g: Geometry, s: State, m: nat) {
    && s.phase.Running?
    && s.lh == FirstHomes(g, m)
    && s.ops == [Active(Clamp(m)), Active(Clamp(m - MAXOPBLOCKS)), Active(Clamp(m - 2 * MAXOPBLOCKS))]
  }

  /** A device whose blocks are all zero boots with an empty log. */
  lemma BootRun(g: Geometry) returns (s0: State, es: seq<Event>)
    requires g.Valid()
    ensures Init(g, s0) && Legal(g, s0, es)
    ensures var s := Exec(g, s0, es); s.phase.Running? && s.lh == [] && s.ops == [] && s.outstanding == 0
  {
    var d: Disk := seq(g.nblocks, _ => Zeroes());
    s0 := State(d, map[], [], 0, Down, [], [], 0, {});
    assert Header(g, d) == [];
    var s1 := Next(g, s0, Advance);
    var s2 := Next(g, s1, Advance);
    es := [Advance, Advance];
    assert es[1..] == [Advance] && es[1..][1..] == [];
    assert Legal(g, s2, []);
    assert Legal(g, s1, [Advance]);
  }

  lemma ThreeBegins(g: Geometry) returns (s0: State, es: seq<Event>)
    requires g.Valid()
    ensures Init(g, s0) && Legal(g, s0, es) && Filled(g, Exec(g, s0, es), 0)
  {
    s0, es := BootRun(g);
    ExecAppend(g, s0, es, Begin);
    es := es + [Begin];
    ExecAppend(g, s0, es, Begin);
    es := es + [Begin];
    ExecAppend(g, s0, es, Begin);
    es := es + [Begin];
  }

  lemma FillStep(g: Geometry, s: State, m: nat)
    requires g.Valid() && Filled(g, s, m) && m < LOGSIZE && m < g.size - 1 && m + g.size < g.nblocks
    ensures var e := LogWrite(m / MAXOPBLOCKS, HomeBlock(g, m), Zeroes());
      Enabled(g, s, e) && Filled(g, Next(g, s, e), m + 1)
  {
    var e := LogWrite(m / MAXOPBLOCKS, HomeBlock(g, m), Zeroes());
    assert HomeBlock(g, m) !in s.lh;
    var s' := Next(g, s, e);
    assert s'.lh == FirstHomes(g, m + 1);
  }

  lemma {:induction false} FillRun(g: Geometry, m: nat) returns (s0: State, es: seq<Event>)
    requires g.Valid() && m <= LOGSIZE && m <= g.size - 1 && m + g.size <= g.nblocks
    ensures Init(g, s0) && Legal(g, s0, es) && Filled(g, Exec(g, s0, es), m)
  {
    if m == 0 {
      s0, es := ThreeBegins(g);
    } else {
      s0, es := FillRun(g, m - 1);
      FillStep(g, Exec(g, s0, es), m - 1);
      var e := LogWrite((m - 1) / MAXOPBLOCKS, HomeBlock(g, m - 1), Zeroes());
      ExecAppend(g, s0, es, e);
      es := es + [e];
    }
  }

  /** The guard can stop an operation that is within its budget in a run from boot. */
  ghost predicate CanPanic(g: Geometry) {
    exists s0, es, op: nat :: StopsNewBlock(g, s0, es, op)
  }

  ghost predicate StopsNewBlock(g: Geometry, s0: State, es: seq<Event>, op: nat) {
    && Init(g, s0) && Legal(g, s0, es)
    && var s := Exec(g, s0, es);
      op < |s.ops| && s.ops[op].Active? && s.ops[op].charged < MAXOPBLOCKS && TooBig(g, s)
  }

  /** Exactly the regions with fewer than LOGSIZE data slots can panic on a new block. */
  lemma PanicIffSmallRegion(g: Geometry)
    requires g.Valid() && g.nblocks >= g.size + LOGSIZE
    ensures CanPanic(g) <==> g.size <= LOGSIZE
  {
    if g.size <= LOGSIZE {
      var s0, es := FillRun(g, g.size - 1);
      assert StopsNewBlock(g, s0, es, 2);
    } else if CanPanic(g) {
      var s0, es, op: nat :| StopsNewBlock(g, s0, es, op);
      InitInv(g, s0);
      RunInv(g, Recovered(g, s0.disk), s0, es);
      NewBlockFits(g, Recovered(g, s0.disk), Exec(g, s0, es), op);
      assert false;
    }
  }

  /** A region of any size can be filled so that a mere rewrite of a logged block panics. */
  lemma FullLogStopsRewrite(g: Geometry) returns (s0: State, es: seq<Event>)
    requires g.Valid() && g.size > LOGSIZE && g.nblocks >= g.size + LOGSIZE
    ensures Init(g, s0) && Legal(g, s0, es)
    ensures var s := Exec(g, s0, es);
      |s.ops| == 3 && s.ops[0].Active? && HomeBlock(g, 0) in s.lh && TooBig(g, s)
  {
    s0, es := FillRun(g, LOGSIZE);
    assert Exec(g, s0, es).lh[0] == HomeBlock(g, 0);
  }
}
