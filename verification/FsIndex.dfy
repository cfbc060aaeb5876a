/**
 The block maps of fs.c: which block holds which part of which file.  A slot is a place that
 can name a block; the owner map turns "no block is named twice" into "the map is a function".
 */
module FsIndex {
  import opened FsLayout

  /** size and addrs of an inode; addrs[NDIRECT] names the indirect block. */
  datatype Inode = Inode(size: nat, addrs: seq<nat>)

  datatype Slot = File(ino: nat, bn: nat) | Indirect(ino: nat)

  type Owners = map<nat, Slot>

  function Empty(): Inode
  {
    Inode(0, seq(NDIRECT + 1, _ => 0))
  }

  predicate SlotOk(n: nat, s: Slot) {
    s.ino < n && (s.File? ==> s.bn < MAXFILE)
  }

  ghost predicate Shape(data: seq<Block>, ips: seq<Inode>) {
    forall i :: 0 <= i < |ips| ==> |ips[i].addrs| == NDIRECT + 1 && ips[i].addrs[NDIRECT] < |data|
  }

  /** The block number of the bn-th block of a file, 0 if there is none. */
  function Addr(data: seq<Block>, ip: Inode, bn: nat): nat
    requires |ip.addrs| == NDIRECT + 1 && ip.addrs[NDIRECT] < |data| && bn < MAXFILE
  {
    if bn < NDIRECT then ip.addrs[bn]
    else if ip.addrs[NDIRECT] == 0 then 0
    else Word(data[ip.addrs[NDIRECT]], bn - NDIRECT)
  }

  /** The block that a slot names, 0 if none. */
  function At(data: seq<Block>, ips: seq<Inode>, s: Slot): nat
    requires SlotOk(|ips|, s)
    requires |ips[s.ino].addrs| == NDIRECT + 1 && ips[s.ino].addrs[NDIRECT] < |data|
  {
    match s
    case File(i, bn) => Addr(data, ips[i], bn)
    case Indirect(i) => ips[i].addrs[NDIRECT]
  }

  /** Every named block has exactly the slot that names it as its owner; owned blocks lie in the data area. */
  ghost predicate Owned(data: seq<Block>, ips: seq<Inode>, owner: Owners, lo: nat) {
    && Shape(data, ips)
    && (forall s :: SlotOk(|ips|, s) && At(data, ips, s) != 0 ==>
          At(data, ips, s) in owner && owner[At(data, ips, s)] == s)
    && (forall b :: b in owner ==>
          0 < lo <= b < |data| && SlotOk(|ips|, owner[b]) && At(data, ips, owner[b]) == b)
  }

  /** So no block is named by two slots. */
  lemma NamedOnce(data: seq<Block>, ips: seq<Inode>, owner: Owners, lo: nat, s: Slot, t: Slot)
    requires Owned(data, ips, owner, lo) && SlotOk(|ips|, s) && SlotOk(|ips|, t)
    requires At(data, ips, s) == At(data, ips, t) != 0
    ensures s == t
  {
  }

  /** Overwriting a block that no inode uses as its indirect block keeps every block map. */
  lemma ContentWrite(data: seq<Block>, ips: seq<Inode>, owner: Owners, lo: nat, a: nat, v: Block)
    requires Owned(data, ips, owner, lo) && 0 < a < |data| && (a in owner ==> owner[a].File?)
    ensures Shape(data[a := v], ips)
    ensures forall s :: SlotOk(|ips|, s) ==> At(data[a := v], ips, s) == At(data, ips, s)
    ensures Owned(data[a := v], ips, owner, lo)
  {
    hide Word;
    forall i: nat | i < |ips|
      ensures ips[i].addrs[NDIRECT] != a
    {
      assert SlotOk(|ips|, Indirect(i));
      assert At(data, ips, Indirect(i)) == ips[i].addrs[NDIRECT];
    }
  }

  /** Exactly the slot s gains a block. */
  ghost predicate Gains(data: seq<Block>, ips: seq<Inode>, data': seq<Block>, ips': seq<Inode>, s: Slot, b: nat) {
    && |data'| == |data| && |ips'| == |ips| && Shape(data, ips) && Shape(data', ips')
    && forall t :: SlotOk(|ips|, t) ==> At(data', ips', t) == if t == s then b else At(data, ips, t)
  }

  lemma OwnerGains(data: seq<Block>, ips: seq<Inode>, data': seq<Block>, ips': seq<Inode>, owner: Owners, lo: nat,
          s: Slot, b: nat)
    requires Owned(data, ips, owner, lo) && SlotOk(|ips|, s) && At(data, ips, s) == 0
    requires 0 < lo <= b < |data| && b !in owner
    requires Gains(data, ips, data', ips', s, b)
    ensures Owned(data', ips', owner[b := s], lo)
  {
    hide At;
  }

  lemma DirectGains(data: seq<Block>, ips: seq<Inode>, i: nat, bn: nat, b: nat)
    requires Shape(data, ips) && i < |ips| && bn < NDIRECT
    ensures Gains(data, ips, data, ips[i := ips[i].(addrs := ips[i].addrs[bn := b])], File(i, bn), b)
  {
    hide Word;
  }

  lemma IndirectGains(data: seq<Block>, ips: seq<Inode>, i: nat, b: nat)
    requires Shape(data, ips) && i < |ips| && ips[i].addrs[NDIRECT] == 0
    requires b < |data| && data[b] == ZeroBlock()
    ensures Gains(data, ips, data, ips[i := ips[i].(addrs := ips[i].addrs[NDIRECT := b])], Indirect(i), b)
  {
    hide Word, ZeroBlock;
    forall k: nat | k < NINDIRECT
      ensures Word(ZeroBlock(), k) == 0
    {
      ZeroWord(k);
    }
  }

  lemma ListedGains(data: seq<Block>, ips: seq<Inode>, owner: Owners, lo: nat, i: nat, bn: nat, b: nat)
    requires Owned(data, ips, owner, lo) && i < |ips| && NDIRECT <= bn < MAXFILE
    requires ips[i].addrs[NDIRECT] != 0 && b < UINT
    ensures var d := ips[i].addrs[NDIRECT];
      Gains(data, ips, data[d := SetWord(data[d], bn - NDIRECT, b)], ips, File(i, bn), b)
  {
    hide Word, SetWord;
    var d := ips[i].addrs[NDIRECT];
    forall j: nat | j < |ips| && j != i
      ensures ips[j].addrs[NDIRECT] != d
    {
      if ips[j].addrs[NDIRECT] == d {
        assert At(data, ips, Indirect(j)) == At(data, ips, Indirect(i));
        NamedOnce(data, ips, owner, lo, Indirect(j), Indirect(i));
      }
    }
    forall k: nat | k < NINDIRECT
      ensures Word(SetWord(data[d], bn - NDIRECT, b), k) == if bn - NDIRECT == k then b else Word(data[d], k)
    {
      WordOfSet(data[d], bn - NDIRECT, k, b);
    }
  }

  ghost function Without(owner: Owners, i: nat): Owners
  {
    map b | b in owner && owner[b].ino != i :: owner[b]
  }

  lemma OwnerForgets(data: seq<Block>, ips: seq<Inode>, owner: Owners, lo: nat, i: nat)
    requires Owned(data, ips, owner, lo) && i < |ips|
    ensures Owned(data, ips[i := Empty()], Without(owner, i), lo)
  {
    hide At, Word;
    var ips' := ips[i := Empty()];
    forall s | SlotOk(|ips|, s)
      ensures At(data, ips', s) == if s.ino == i then 0 else At(data, ips, s)
    {
      ForgottenAt(data, ips, i, s);
    }
  }

  lemma ForgottenAt(data: seq<Block>, ips: seq<Inode>, i: nat, s: Slot)
    requires Shape(data, ips) && i < |ips| && SlotOk(|ips|, s)
    ensures Shape(data, ips[i := Empty()]) && At(data, ips[i := Empty()], s) == if s.ino == i then 0 else At(data, ips, s)
  {
    hide Word;
  }

  // ---- File contents ----

  function Blocks(n: nat): nat
  {
    (n + BSIZE - 1) / BSIZE
  }

  /** Exactly the first nb blocks of file i exist. */
  ghost predicate Mapped(data: seq<Block>, ips: seq<Inode>, i: nat, nb: nat)
    requires Shape(data, ips) && i < |ips|
  {
    && (forall bn :: 0 <= bn < MAXFILE ==> (At(data, ips, File(i, bn)) != 0 <==> bn < nb))
    && (At(data, ips, Indirect(i)) != 0 <==> nb > NDIRECT)
  }

  function ByteAt(data: seq<Block>, ip: Inode, k: nat): Byte
    requires |ip.addrs| == NDIRECT + 1 && ip.addrs[NDIRECT] < |data| && k / BSIZE < MAXFILE
  {
    var a := Addr(data, ip, k / BSIZE);
    if a < |data| then data[a][k % BSIZE] else 0
  }

  ghost function View(data: seq<Block>, ip: Inode, len: nat): (s: seq<Byte>)
    requires |ip.addrs| == NDIRECT + 1 && ip.addrs[NDIRECT] < |data| && len <= MAXFILE * BSIZE
    ensures |s| == len
    ensures forall k :: 0 <= k < len ==> s[k] == ByteAt(data, ip, k)
  {
    seq(len, k requires 0 <= k < len => ByteAt(data, ip, k))
  }

  /** A view depends only on the blocks below its length. */
  lemma ViewFrame(data: seq<Block>, ip: Inode, data': seq<Block>, ip': Inode, len: nat)
    requires |data'| == |data| && len <= MAXFILE * BSIZE
    requires |ip.addrs| == NDIRECT + 1 && ip.addrs[NDIRECT] < |data|
    requires |ip'.addrs| == NDIRECT + 1 && ip'.addrs[NDIRECT] < |data|
    requires forall bn :: 0 <= bn < MAXFILE && bn * BSIZE < len ==>
               Addr(data', ip', bn) == Addr(data, ip, bn)
               && (Addr(data, ip, bn) < |data| ==> data'[Addr(data, ip, bn)] == data[Addr(data, ip, bn)])
    ensures View(data', ip', len) == View(data, ip, len)
  {
    hide Addr;
    forall k | 0 <= k < len
      ensures ByteAt(data', ip', k) == ByteAt(data, ip, k)
    {
      assert (k / BSIZE) * BSIZE < len;
    }
  }

  /** s with t written over it at off, longer if t reaches past the end. */
  function Splice(s: seq<Byte>, off: nat, t: seq<Byte>): (r: seq<Byte>)
    requires off <= |s|
    ensures |r| == if off + |t| > |s| then off + |t| else |s|
    ensures forall k :: 0 <= k < |r| ==> r[k] == if off <= k < off + |t| then t[k - off] else s[k]
  {
    s[..off] + t + (if off + |t| < |s| then s[off + |t|..] else [])
  }

  function Patch(b: Block, r: nat, t: seq<Byte>): Block
    requires r + |t| <= BSIZE
  {
    b[..r] + t + b[r + |t|..]
  }

  /** Patching one block of a file splices its view. */
  lemma PatchView(data: seq<Block>, ips: seq<Inode>, owner: Owners, lo: nat, i: nat, len: nat, off: nat, t: seq<Byte>)
    requires Owned(data, ips, owner, lo) && i < |ips| && off <= len && len <= MAXFILE * BSIZE
    requires off / BSIZE < MAXFILE && off % BSIZE + |t| <= BSIZE && off + |t| <= MAXFILE * BSIZE
    requires At(data, ips, File(i, off / BSIZE)) != 0
    ensures var a := At(data, ips, File(i, off / BSIZE));
      && a < |data|
      && var data' := data[a := Patch(data[a], off % BSIZE, t)];
      && View(data', ips[i], if off + |t| > len then off + |t| else len) == Splice(View(data, ips[i], len), off, t)
  {
    hide Word;
    var bn := off / BSIZE;
    var a := At(data, ips, File(i, bn));
    assert a in owner && owner[a] == File(i, bn);
    var data' := data[a := Patch(data[a], off % BSIZE, t)];
    ContentWrite(data, ips, owner, lo, a, data'[a]);
    var len' := if off + |t| > len then off + |t| else len;
    forall k: nat | k < len'
      ensures ByteAt(data', ips[i], k) == Splice(View(data, ips[i], len), off, t)[k]
    {
      assert At(data', ips, File(i, k / BSIZE)) == At(data, ips, File(i, k / BSIZE));
      PatchByte(data, ips, owner, lo, i, off, t, k);
    }
  }

  lemma PatchByte(data: seq<Block>, ips: seq<Inode>, owner: Owners, lo: nat, i: nat, off: nat, t: seq<Byte>, k: nat)
    requires Owned(data, ips, owner, lo) && i < |ips| && k / BSIZE < MAXFILE
    requires off / BSIZE < MAXFILE && off % BSIZE + |t| <= BSIZE
    requires At(data, ips, File(i, off / BSIZE)) != 0
    ensures var a := At(data, ips, File(i, off / BSIZE));
      && a < |data|
      && var data' := data[a := Patch(data[a], off % BSIZE, t)];
      && (At(data', ips, File(i, k / BSIZE)) == At(data, ips, File(i, k / BSIZE)) ==>
           ByteAt(data', ips[i], k) == if off <= k < off + |t| then t[k - off] else ByteAt(data, ips[i], k))
  {
    hide Word;
    if At(data, ips, File(i, off / BSIZE)) == At(data, ips, File(i, k / BSIZE)) {
      NamedOnce(data, ips, owner, lo, File(i, off / BSIZE), File(i, k / BSIZE));
      assert k / BSIZE == off / BSIZE;
    }
  }
}
