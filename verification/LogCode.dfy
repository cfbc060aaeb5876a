/**
 log.c as code: the in-memory log, the dirty buffers it has pinned, and the disk.
 `trace` records the disk after every single block write, so that a contract can speak
 about a crash between any two of them.
 */
module LogCode {
  import opened LogDisk

  datatype LogWriteResult = Logged | PanicTooBig | PanicOutside

  datatype EndResult = Ended | PanicCommitting

  /** The logged list after log_write of block b: absorbed when already there. */
  function LogAppend(lh: seq<nat>, b: nat): (r: seq<nat>)
    ensures b in r
    ensures forall x :: x in r <==> x in lh || x == b
  {
    if b in lh then lh else lh + [b]
  }

  lemma LogAppendGood(g: Geometry, lh: seq<nat>, b: nat)
    requires g.Valid() && GoodList(g, lh) && g.IsHome(b)
    requires b !in lh ==> |lh| < LOGSIZE && |lh| < g.size - 1
    ensures GoodList(g, LogAppend(lh, b))
  {
  }

  ghost predicate RecoversTo(g: Geometry, d: Disk, h: Home) {
    GoodLog(g, d) && Recovered(g, d) == h
  }

  /** Every disk state numbered lo .. hi of the trace recovers to h. */
  ghost predicate Span(g: Geometry, trace: seq<Disk>, lo: nat, hi: nat, h: Home) {
    lo <= hi <= |trace| && forall k :: lo <= k < hi ==> RecoversTo(g, trace[k], h)
  }

  /** All-old up to some write, all-new from there on. */
  ghost predicate OldThenNew(g: Geometry, trace: seq<Disk>, from: nat, before: Home, after: Home) {
    exists cut: nat :: Span(g, trace, from, cut, before) && Span(g, trace, cut, |trace|, after)
  }

  /** Write the log (all old), write the header (d), install and clear (all new). */
  lemma CommitSpans(g: Geometry, start: nat, logged: seq<Disk>, d: Disk, final: seq<Disk>, before: Home, after: Home)
    requires Span(g, logged, start, |logged|, before)
    requires RecoversTo(g, d, after)
    requires logged + [d] <= final && Span(g, final, |logged| + 1, |final|, after)
    ensures OldThenNew(g, final, start, before, after)
  {
    assert final[|logged|] == d;
    assert Span(g, final, start, |logged|, before) && Span(g, final, |logged|, |final|, after);
  }

  class Log {
    const g: Geometry
    var disk: Disk
    /** Contents of the buffers that carry B_DIRTY. */
    var cache: Home
    /** log.lh: n is the length. */
    var lh: seq<nat>
    var outstanding: nat
    var committing: bool
    ghost var trace: seq<Disk>

    /** Between operations: nothing committed is waiting on disk, the dirty buffers are
        exactly the logged blocks. */
    ghost predicate Valid()
      reads this
    {
      && GoodLog(g, disk) && Header(g, disk) == []
      && GoodList(g, lh)
      && cache.Keys == (set b | b in lh)
    }

    /** The home blocks as bread shows them. */
    ghost function View(): Home
      requires GoodDisk(g, disk)
      reads this
    {
      HomeOf(g, disk) + cache
    }

    /** initlog on a disk that an earlier run may have left at any point. */
    constructor Boot(g: Geometry, disk: Disk)
      requires GoodLog(g, disk)
      ensures this.g == g && Valid()
      ensures lh == [] && cache == map[] && outstanding == 0 && !committing
      ensures View() == HomeOf(g, this.disk) == Recovered(g, disk)
      // a crash anywhere in recovery leaves a disk that recovers to the same blocks
      ensures Span(g, trace, 0, |trace|, Recovered(g, disk))
    {
      this.g, this.disk, this.cache, this.lh := g, disk, map[], [];
      this.outstanding, this.committing, this.trace := 0, false, [];
      new;
      RecoverFromLog();
    }

    function Bread(b: nat): Block
      requires b in cache || b < |disk|
      reads this
    {
      if b in cache then cache[b] else disk[b]
    }

    /** One atomic block write; iderw then drops B_DIRTY. */
    method Bwrite(b: nat, v: Block)
      requires b < |disk|
      modifies `disk, `cache, `trace
      ensures disk == old(disk)[b := v]
      ensures cache == old(cache) - {b}
      ensures trace == old(trace) + [disk]
    {
      disk := disk[b := v];
      cache := cache - {b};
      trace := trace + [disk];
    }

    method ReadHead()
      requires GoodLog(g, disk) && cache == map[]
      modifies `lh
      ensures lh == Header(g, disk)
    {
      var hb := Bread(g.start);
      var n := hb[0];
      lh := [];
      for i := 0 to n
        invariant lh == hb[1..1 + i]
      {
        lh := lh + [hb[1 + i]];
      }
    }

    method WriteHead()
      requires GoodDisk(g, disk) && GoodList(g, lh) && g.start !in cache
      modifies `disk, `cache, `trace
      ensures disk == old(disk)[g.start := EncodeHeader(old(disk)[g.start], lh)]
      ensures cache == old(cache)
      ensures trace == old(trace) + [disk]
    {
      var hb := Bread(g.start);
      var nb: Block := hb[0 := |lh|];
      for i := 0 to |lh|
        invariant nb == [|lh|] + lh[..i] + hb[1 + i..]
      {
        nb := nb[1 + i := lh[i]];
      }
      assert nb == EncodeHeader(hb, lh);
      Bwrite(g.start, nb);
      assert cache == old(cache);
    }

    /** The body of install_trans: one log slot goes home, invisibly to recovery. */
    method InstallBlock(tail: nat)
      requires GoodLog(g, disk) && lh == Header(g, disk) && tail < |lh| && Installed(g, disk, lh, tail)
      requires forall b :: b in cache ==> g.IsHome(b)
      modifies `disk, `cache, `trace
      ensures GoodLog(g, disk) && Header(g, disk) == lh && Installed(g, disk, lh, tail + 1)
      ensures Recovered(g, disk) == old(Recovered(g, disk))
      ensures cache == old(cache) - {lh[tail]}
      ensures trace == old(trace) + [disk]
    {
      InstallInvisible(g, disk, tail);
      InstallOneMore(g, disk, lh, tail);
      assert g.InLog(g.start + tail + 1);
      var lbuf := Bread(g.start + tail + 1);
      Bwrite(lh[tail], lbuf);
    }

    /** Copies every listed log slot home; invisible to recovery at each write. */
    method InstallTrans()
      requires GoodLog(g, disk) && lh == Header(g, disk)
      requires forall b :: b in cache ==> g.IsHome(b)
      modifies `disk, `cache, `trace
      ensures GoodLog(g, disk) && Header(g, disk) == lh && Installed(g, disk, lh, |lh|)
      ensures Recovered(g, disk) == old(Recovered(g, disk))
      ensures forall b :: b in cache <==> b in old(cache) && b !in lh
      ensures old(trace) <= trace && Span(g, trace, |old(trace)|, |trace|, old(Recovered(g, disk)))
    {
      ghost var h := Recovered(g, disk);
      var tail := 0;
      while tail < |lh|
        invariant tail <= |lh|
        invariant GoodLog(g, disk) && Header(g, disk) == lh && Installed(g, disk, lh, tail)
        invariant Recovered(g, disk) == h
        invariant forall b :: b in cache <==> b in old(cache) && b !in lh[..tail]
        invariant old(trace) <= trace && Span(g, trace, |old(trace)|, |trace|, h)
      {
        InstallBlock(tail);
        assert lh[..tail + 1] == lh[..tail] + [lh[tail]];
        tail := tail + 1;
      }
    }

    /** The last three steps of both commit and recovery. */
    method InstallAndClear()
      requires GoodLog(g, disk) && lh == Header(g, disk)
      requires forall b :: b in cache ==> b in lh
      modifies `disk, `cache, `lh, `trace
      ensures lh == [] && cache == map[] && Valid()
      ensures HomeOf(g, disk) == old(Recovered(g, disk))
      ensures old(trace) <= trace && Span(g, trace, |old(trace)|, |trace|, old(Recovered(g, disk)))
    {
      InstallTrans();
      ClearInvisible(g, disk);
      lh := [];
      WriteHead();
    }

    method RecoverFromLog()
      requires GoodLog(g, disk) && cache == map[]
      modifies `disk, `cache, `lh, `trace
      ensures lh == [] && cache == map[] && Valid()
      ensures HomeOf(g, disk) == old(Recovered(g, disk))
      ensures old(trace) <= trace && Span(g, trace, |old(trace)|, |trace|, old(Recovered(g, disk)))
    {
      ReadHead();
      InstallAndClear();
    }

    /** The body of write_log: one logged block goes from the cache to its log slot. */
    method LogBlock(tail: nat)
      requires Valid() && tail < |lh| && SlotsHold(g, disk, lh, cache, tail)
      modifies `disk, `cache, `trace
      ensures Valid() && cache == old(cache)
      ensures SlotsHold(g, disk, lh, cache, tail + 1)
      ensures HomeOf(g, disk) == old(HomeOf(g, disk))
      ensures trace == old(trace) + [disk]
    {
      var from := Bread(lh[tail]);
      SlotWriteInvisible(g, disk, g.start + tail + 1, from);
      assert g.start + tail + 1 !in cache by {
        assert g.InLog(g.start + tail + 1);
      }
      Bwrite(g.start + tail + 1, from);
      assert cache == old(cache);
    }

    /** Copies the logged blocks from the cache into the log slots. */
    method WriteLog()
      requires Valid()
      modifies `disk, `cache, `trace
      ensures Valid() && cache == old(cache)
      ensures SlotsHold(g, disk, lh, cache, |lh|)
      ensures HomeOf(g, disk) == old(HomeOf(g, disk))
      ensures old(trace) <= trace && Span(g, trace, |old(trace)|, |trace|, old(HomeOf(g, disk)))
    {
      var tail := 0;
      while tail < |lh|
        invariant tail <= |lh|
        invariant Valid() && cache == old(cache)
        invariant SlotsHold(g, disk, lh, cache, tail)
        invariant HomeOf(g, disk) == old(HomeOf(g, disk))
        invariant old(trace) <= trace && Span(g, trace, |old(trace)|, |trace|, old(HomeOf(g, disk)))
      {
        LogBlock(tail);
        CleanRecovers(g, disk);
        tail := tail + 1;
      }
    }

    /** Crash atomicity of a whole group commit: after every block write the disk recovers
        to all of the old home blocks or to all of the new ones, old before new. */
    method Commit()
      requires Valid()
      modifies `disk, `cache, `lh, `trace
      ensures Valid() && lh == [] && cache == map[]
      ensures HomeOf(g, disk) == old(View())
      ensures old(trace) <= trace
      ensures OldThenNew(g, trace, |old(trace)|, old(HomeOf(g, disk)), old(View()))
    {
      ghost var before, after, start := HomeOf(g, disk), View(), |trace|;
      if |lh| > 0 {
        WriteLog();
        ghost var logged := trace;
        HeaderWriteCommits(g, disk, lh, cache);
        WriteHead();
        ghost var d := disk;
        InstallAndClear();
        CommitSpans(g, start, logged, d, trace, before, after);
      } else {
        assert cache == map[];
        assert Span(g, trace, start, |trace|, before);
      }
    }

    /** One pass of the loop under log.lock; false means that the caller sleeps. */
    method BeginOp() returns (started: bool)
      modifies `outstanding
      ensures started <==> !committing && |lh| + (old(outstanding) + 1) * MAXOPBLOCKS <= LOGSIZE
      ensures outstanding == old(outstanding) + (if started then 1 else 0)
    {
      if committing {
        started := false;
      } else if |lh| + (outstanding + 1) * MAXOPBLOCKS > LOGSIZE {
        started := false;
      } else {
        outstanding := outstanding + 1;
        started := true;
      }
    }

    /** The last operation to end makes the view durable; an earlier one leaves disk and log alone. */
    method EndOp() returns (r: EndResult)
      requires Valid() && outstanding >= 1
      modifies this
      ensures r.PanicCommitting? <==> old(committing)
      ensures outstanding == old(outstanding) - 1
      ensures r.Ended? ==> Valid() && !committing && View() == old(View())
      ensures r.Ended? && outstanding == 0 ==> HomeOf(g, disk) == old(View()) && lh == []
      ensures r.Ended? && outstanding == 0 ==>
                old(trace) <= trace && OldThenNew(g, trace, |old(trace)|, old(HomeOf(g, disk)), old(View()))
      ensures r.Ended? && outstanding > 0 ==> disk == old(disk) && lh == old(lh) && cache == old(cache) && trace == old(trace)
    {
      outstanding := outstanding - 1;
      if committing {
        return PanicCommitting;
      }
      if outstanding == 0 {
        committing := true;
        Commit();
        committing := false;
      }
      r := Ended;
    }

    /** The caller has set the buffer of block b to v. */
    method LogWrite(b: nat, v: Block) returns (r: LogWriteResult)
      requires Valid() && g.IsHome(b)
      modifies `lh, `cache
      ensures r.PanicTooBig? <==> old(|lh|) >= LOGSIZE || old(|lh|) >= g.size - 1
      ensures r.PanicOutside? <==> !r.PanicTooBig? && outstanding < 1
      ensures r.Logged? ==> Valid() && lh == LogAppend(old(lh), b) && View() == old(View())[b := v]
      ensures !r.Logged? ==> lh == old(lh) && cache == old(cache)
    {
      if |lh| >= LOGSIZE || |lh| >= g.size - 1 {
        return PanicTooBig;
      }
      if outstanding < 1 {
        return PanicOutside;
      }
      LogAppendGood(g, lh, b);
      var i := 0;
      while i < |lh|
        invariant i <= |lh|
        invariant b !in lh[..i]
      {
        if lh[i] == b {
          break;
        }
        i := i + 1;
      }
      if i == |lh| {
        assert b !in lh by { assert lh[..i] == lh; }
        lh := lh + [b];
      } else {
        lh := lh[i := b];
        assert lh == old(lh);
      }
      cache := cache[b := v];
      r := Logged;
    }
  }
}
