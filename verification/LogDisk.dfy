/**
 The disk as the redo log of log.c sees it: an array of blocks, a log region that
 starts with a header block, and home blocks everywhere else.  `Recovered` gives the
 home blocks that a boot would end up with; the lemmas say how one block write moves it.
 */
module LogDisk {
  import opened Common

  const MAXOPBLOCKS: nat := 10
  const LOGSIZE: nat := MAXOPBLOCKS * 3
  const BWORDS: nat := 128  // BSIZE / sizeof(int)

  /** One disk block, as the array of ints that log.c casts the header block to. */
  type Block = b: seq<nat> | |b| == BWORDS witness seq(BWORDS, _ => 0)

  type Disk = seq<Block>

  /** The home blocks of a disk, by block number. */
  type Home = map<nat, Block>

  /** log.start, log.size and the number of blocks of the device. */
  datatype Geometry = Geometry(start: nat, size: nat, nblocks: nat)
  {
    ghost predicate Valid() {
      1 <= size && start + size <= nblocks
    }

    predicate InLog(b: nat) {
      start <= b < start + size
    }

    predicate IsHome(b: nat) {
      b < nblocks && !InLog(b)
    }
  }

  ghost predicate GoodDisk(g: Geometry, d: Disk) {
    g.Valid() && |d| == g.nblocks
  }

  /** A list of logged block numbers that fits the log: the content of a good header. */
  ghost predicate GoodList(g: Geometry, lh: seq<nat>) {
    && |lh| <= LOGSIZE
    && |lh| <= g.size - 1
    && Distinct(lh)
    && forall i :: 0 <= i < |lh| ==> g.IsHome(lh[i])
  }

  /** The in-memory header (n, block[0..n]) written over a header block: the rest is stale. */
  function EncodeHeader(hb: Block, lh: seq<nat>): (r: Block)
    requires |lh| <= LOGSIZE
  {
    [|lh|] + lh + hb[1 + |lh|..]
  }

  ghost predicate GoodHeader(g: Geometry, hb: Block) {
    hb[0] <= LOGSIZE && GoodList(g, hb[1..1 + hb[0]])
  }

  /** The list that read_head reads back. */
  function DecodeHeader(hb: Block): (r: seq<nat>)
    requires hb[0] <= LOGSIZE
  {
    hb[1..1 + hb[0]]
  }

  lemma HeaderRoundTrip(hb: Block, lh: seq<nat>)
    requires |lh| <= LOGSIZE
    ensures EncodeHeader(hb, lh)[0] == |lh|
    ensures DecodeHeader(EncodeHeader(hb, lh)) == lh
  {
    var e := EncodeHeader(hb, lh);
    assert e[1..1 + |lh|] == lh;
  }

  ghost predicate GoodLog(g: Geometry, d: Disk) {
    GoodDisk(g, d) && GoodHeader(g, d[g.start])
  }

  function Header(g: Geometry, d: Disk): seq<nat>
    requires GoodLog(g, d)
  {
    DecodeHeader(d[g.start])
  }

  ghost function HomeOf(g: Geometry, d: Disk): (h: Home)
    requires GoodDisk(g, d)
  {
    map b: nat | b < g.nblocks && !g.InLog(b) :: d[b]
  }

  /** Position of a logged block number in the list. */
  ghost function IndexOf(lh: seq<nat>, b: nat): (i: nat)
    requires b in lh
    ensures i < |lh| && lh[i] == b
  {
    var i :| 0 <= i < |lh| && lh[i] == b;
    i
  }

  /** The home blocks after a redo of the list `lh` from the log slots of `d`. */
  ghost function Redo(g: Geometry, d: Disk, lh: seq<nat>): (h: Home)
    requires GoodDisk(g, d) && GoodList(g, lh)
  {
    map b: nat | b < g.nblocks && !g.InLog(b) ::
      if b in lh then d[g.start + 1 + IndexOf(lh, b)] else d[b]
  }

  /** What the home blocks hold once recovery has run to its end on `d`. */
  ghost function Recovered(g: Geometry, d: Disk): (h: Home)
    requires GoodLog(g, d)
  {
    Redo(g, d, Header(g, d))
  }

  // ---- One block write at a time ----

  /** With an empty header on disk, recovery leaves the home blocks alone. */
  lemma CleanRecovers(g: Geometry, d: Disk)
    requires GoodLog(g, d) && Header(g, d) == []
    ensures Recovered(g, d) == HomeOf(g, d)
  {
    assert forall b :: b !in Header(g, d);
  }

  /** Filling a log slot while the header is empty changes nothing that recovery can see. */
  lemma SlotWriteInvisible(g: Geometry, d: Disk, slot: nat, v: Block)
    requires GoodLog(g, d) && Header(g, d) == []
    requires g.start < slot < g.start + g.size
    ensures GoodLog(g, d[slot := v]) && Header(g, d[slot := v]) == []
    ensures HomeOf(g, d[slot := v]) == HomeOf(g, d)
    ensures Recovered(g, d[slot := v]) == Recovered(g, d)
  {
    CleanRecovers(g, d);
    CleanRecovers(g, d[slot := v]);
  }

  ghost predicate SlotsHold(g: Geometry, d: Disk, lh: seq<nat>, vals: Home, n: nat)
    requires GoodDisk(g, d) && GoodList(g, lh) && n <= |lh|
  {
    forall i :: 0 <= i < n ==> lh[i] in vals && d[g.start + 1 + i] == vals[lh[i]]
  }

  /** Writing the header block changes only the list that recovery will redo. */
  lemma HeaderWrite(g: Geometry, d: Disk, lh: seq<nat>)
    requires GoodDisk(g, d) && GoodList(g, lh)
    ensures var d' := d[g.start := EncodeHeader(d[g.start], lh)];
            && GoodLog(g, d') && Header(g, d') == lh
            && HomeOf(g, d') == HomeOf(g, d)
            && Recovered(g, d') == Redo(g, d, lh)
  {
    HeaderRoundTrip(d[g.start], lh);
    var d' := d[g.start := EncodeHeader(d[g.start], lh)];
    assert d'[g.start][1..1 + d'[g.start][0]] == lh;
    assert Header(g, d') == lh;
  }

  /** Redoing slots that hold `vals` overlays the home blocks with `vals`. */
  lemma RedoOverlays(g: Geometry, d: Disk, lh: seq<nat>, vals: Home)
    requires GoodDisk(g, d) && GoodList(g, lh) && SlotsHold(g, d, lh, vals, |lh|)
    requires vals.Keys == set b | b in lh
    ensures Redo(g, d, lh) == HomeOf(g, d) + vals
  {
    hide Redo, HomeOf;
    var r, h := Redo(g, d, lh), HomeOf(g, d) + vals;
    forall b: nat
      ensures b in r <==> b in h
      ensures b in r ==> r[b] == h[b]
    {
      RedoAt(g, d, lh, vals, b);
    }
    assert r.Keys == h.Keys;
  }

  lemma RedoAt(g: Geometry, d: Disk, lh: seq<nat>, vals: Home, b: nat)
    requires GoodDisk(g, d) && GoodList(g, lh) && SlotsHold(g, d, lh, vals, |lh|)
    requires vals.Keys == set b | b in lh
    ensures b in Redo(g, d, lh) <==> b in HomeOf(g, d) + vals
    ensures b in Redo(g, d, lh) ==> Redo(g, d, lh)[b] == (HomeOf(g, d) + vals)[b]
  {
    if b in vals {
      assert b in lh;
      assert b == lh[IndexOf(lh, b)];
    }
  }

  /** The commit point: recovery jumps from the old home blocks to the home blocks
      overlaid with all the logged ones. */
  lemma HeaderWriteCommits(g: Geometry, d: Disk, lh: seq<nat>, vals: Home)
    requires GoodDisk(g, d) && GoodList(g, lh) && SlotsHold(g, d, lh, vals, |lh|)
    requires vals.Keys == set b | b in lh
    ensures var d' := d[g.start := EncodeHeader(d[g.start], lh)];
            && GoodLog(g, d') && Header(g, d') == lh
            && HomeOf(g, d') == HomeOf(g, d)
            && Recovered(g, d') == HomeOf(g, d) + vals
            && SlotsHold(g, d', lh, vals, |lh|)
  {
    HeaderWrite(g, d, lh);
    RedoOverlays(g, d, lh, vals);
  }

  /** Copying log slot i home, under a header that lists it, is invisible to recovery. */
  lemma InstallInvisible(g: Geometry, d: Disk, i: nat)
    requires GoodLog(g, d) && i < |Header(g, d)|
    ensures var d' := d[Header(g, d)[i] := d[g.start + 1 + i]];
            && GoodLog(g, d') && Header(g, d') == Header(g, d)
            && Recovered(g, d') == Recovered(g, d)
  {
    var lh := Header(g, d);
    var d' := d[lh[i] := d[g.start + 1 + i]];
    assert g.IsHome(lh[i]);
    assert forall b: nat :: g.InLog(b) ==> d'[b] == d[b];
    assert d'[g.start] == d[g.start];
    var r, r' := Recovered(g, d), Recovered(g, d');
    forall b: nat | g.IsHome(b)
      ensures b in r && b in r' && r[b] == r'[b]
    {
      if b in lh {
        var k := IndexOf(lh, b);
        assert g.InLog(g.start + 1 + k);
      }
    }
  }

  /** The first n listed blocks have been copied home. */
  ghost predicate Installed(g: Geometry, d: Disk, lh: seq<nat>, n: nat)
    requires GoodDisk(g, d) && GoodList(g, lh) && n <= |lh|
  {
    forall i :: 0 <= i < n ==> d[lh[i]] == d[g.start + 1 + i]
  }

  lemma InstallOneMore(g: Geometry, d: Disk, lh: seq<nat>, i: nat)
    requires GoodDisk(g, d) && GoodList(g, lh) && i < |lh| && Installed(g, d, lh, i)
    ensures Installed(g, d[lh[i] := d[g.start + 1 + i]], lh, i + 1)
  {
    var d' := d[lh[i] := d[g.start + 1 + i]];
    forall k | 0 <= k < i + 1
      ensures d'[lh[k]] == d'[g.start + 1 + k]
    {
      assert g.IsHome(lh[i]);
      assert g.InLog(g.start + 1 + k);
    }
  }

  /** When every listed block is home already, redoing the list changes nothing. */
  lemma InstalledRedo(g: Geometry, d: Disk, lh: seq<nat>)
    requires GoodDisk(g, d) && GoodList(g, lh) && Installed(g, d, lh, |lh|)
    ensures Redo(g, d, lh) == HomeOf(g, d)
  {
    forall b: nat | g.IsHome(b)
      ensures HomeOf(g, d)[b] == Redo(g, d, lh)[b]
    {
      if b in lh {
        assert d[lh[IndexOf(lh, b)]] == d[g.start + 1 + IndexOf(lh, b)];
      }
    }
  }

  /** Then clearing the header is invisible to recovery as well. */
  lemma ClearInvisible(g: Geometry, d: Disk)
    requires GoodLog(g, d) && Installed(g, d, Header(g, d), |Header(g, d)|)
    ensures var d' := d[g.start := EncodeHeader(d[g.start], [])];
            && GoodLog(g, d') && Header(g, d') == []
            && HomeOf(g, d') == HomeOf(g, d) == Recovered(g, d)
            && Recovered(g, d') == Recovered(g, d)
  {
    HeaderWrite(g, d, []);
    InstalledRedo(g, d, Header(g, d));
    CleanRecovers(g, d[g.start := EncodeHeader(d[g.start], [])]);
  }
}
