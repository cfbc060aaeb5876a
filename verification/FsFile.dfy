/**
 balloc, bfree, bmap, itrunc, iupdate, readi and writei of fs.c, proved to keep the bitmap equal
 to the blocks that inodes own and to act on one byte sequence per file.
 */
module FsFile {
  import opened Common
  import opened FsLayout
  import opened FsIndex

  datatype BmapResult = BlockNo(block: nat) | PanicOutOfRange | PanicOutOfBlocks

  datatype IoResult = Done(n: nat) | Refused | PanicNoBlocks

  /** The set bits are the metadata blocks and, disjoint from them, the owned ones. */
  ghost predicate Allotted(size: nat, lo: nat, bits: seq<BitBlock>, data: seq<Block>, ips: seq<Inode>, owner: Owners) {
    && 0 < lo <= size < UINT && |data| == size
    && Covers(bits, size)
    && Shape(data, ips) && Owned(data, ips, owner, lo)
    && forall b: nat :: b < size ==> (b in UsedSet(bits, size) <==> b < lo || b in owner)
  }

  ghost predicate FileOk(data: seq<Block>, ips: seq<Inode>, i: nat)
    requires Shape(data, ips) && i < |ips|
  {
    ips[i].size <= MAXFILE * BSIZE && Mapped(data, ips, i, Blocks(ips[i].size))
  }

  ghost predicate FilesOk(data: seq<Block>, ips: seq<Inode>)
    requires Shape(data, ips)
  {
    forall i :: 0 <= i < |ips| ==> FileOk(data, ips, i)
  }

  lemma BitPlace(b: nat, bi: nat)
    requires b % BPB == 0 && bi < BPB
    ensures BitBlockOf(b + bi) == b / BPB && ByteOf(b + bi) == bi / 8 && BitOf(b + bi) == bi % 8
  {
  }

  lemma InUsed(bits: seq<BitBlock>, size: nat, b: nat)
    requires Covers(bits, size) && b < size
    ensures BitBlockOf(b) < |bits| && (b in UsedSet(bits, size) <==> BitSet(bits, b))
  {
    BitInRange(|bits|, size, b);
  }

  // ---- What one bmap call does to the block maps ----

  /** File i's block bn is now a; whatever was mapped stays, and no other file gains anything. */
  ghost predicate Extends(data: seq<Block>, ips: seq<Inode>, owner: Owners,
                          data': seq<Block>, ips': seq<Inode>, i: nat, bn: nat, a: nat)
  {
    && |data'| == |data| && |ips'| == |ips| && i < |ips| && bn < MAXFILE
    && Shape(data, ips) && Shape(data', ips')
    && (forall s :: SlotOk(|ips|, s) && At(data, ips, s) != 0 ==> At(data', ips', s) == At(data, ips, s))
    && (forall s :: SlotOk(|ips|, s) && At(data, ips, s) == 0 && s != File(i, bn) && s != Indirect(i) ==> At(data', ips', s) == 0)
    && (At(data', ips', Indirect(i)) != 0 <==> (At(data, ips, Indirect(i)) != 0 || bn >= NDIRECT))
    && At(data', ips', File(i, bn)) == a != 0
    && (forall b :: b in owner && owner[b].File? && b < |data| ==> data'[b] == data[b])
    && (forall j :: 0 <= j < |ips| ==> ips'[j].size == ips[j].size)
    && (forall j :: 0 <= j < |ips| && j != i ==> ips'[j] == ips[j])
  }

  lemma ExtendsMapped(data: seq<Block>, ips: seq<Inode>, owner: Owners, data': seq<Block>, ips': seq<Inode>, i: nat,
          bn: nat, a: nat, j: nat, nb: nat)
    requires Extends(data, ips, owner, data', ips', i, bn, a) && j < |ips| && Mapped(data, ips, j, nb)
    requires j == i ==> bn <= nb
    ensures Mapped(data', ips', j, if j == i && bn == nb then nb + 1 else nb)
  {
    hide Addr;
  }

  lemma ExtendsView(data: seq<Block>, ips: seq<Inode>, owner: Owners, lo: nat, data': seq<Block>, ips': seq<Inode>,
          i: nat, bn: nat, a: nat, j: nat, nb: nat, len: nat)
    requires Owned(data, ips, owner, lo) && Extends(data, ips, owner, data', ips', i, bn, a)
    requires j < |ips| && Mapped(data, ips, j, nb) && len <= nb * BSIZE && len <= MAXFILE * BSIZE
    ensures View(data', ips'[j], len) == View(data, ips[j], len)
  {
    hide Word;
    forall k: nat | k < MAXFILE && k * BSIZE < len
      ensures Addr(data', ips'[j], k) == Addr(data, ips[j], k)
      ensures Addr(data, ips[j], k) < |data| ==> data'[Addr(data, ips[j], k)] == data[Addr(data, ips[j], k)]
    {
      assert k < nb;
      assert At(data, ips, File(j, k)) != 0;
      assert At(data', ips', File(j, k)) == At(data, ips, File(j, k));
    }
    ViewFrame(data, ips[j], data', ips'[j], len);
  }

  // ---- How many blocks a write takes ----

  /** The blocks that bmap has to allocate for block bn of file i. */
  ghost function BmapNeeds(data: seq<Block>, ips: seq<Inode>, i: nat, bn: nat): nat
    requires Shape(data, ips) && i < |ips| && bn < MAXFILE
  {
    if At(data, ips, File(i, bn)) != 0 then 0 else if bn >= NDIRECT && At(data, ips, Indirect(i)) == 0 then 2 else 1
  }

  /** The blocks that a file of nb blocks uses: one more for the indirect block beyond the direct ones. */
  function Footprint(nb: nat): nat
  {
    if nb <= NDIRECT then nb else nb + 1
  }

  /** The next block of a file costs what its footprint grows by. */
  lemma NeedsGrowth(data: seq<Block>, ips: seq<Inode>, i: nat, nb: nat, bn: nat)
    requires Shape(data, ips) && i < |ips| && Mapped(data, ips, i, nb) && bn <= nb && bn < MAXFILE
    ensures BmapNeeds(data, ips, i, bn) == Footprint(if bn == nb then nb + 1 else nb) - Footprint(nb)
  {
    hide Addr;
  }

  /** What a write of n bytes at off adds to the footprint of a file of size bytes. */
  function WriteNeeds(size: nat, off: nat, n: nat): int
  {
    Footprint(Blocks(if off + n > size then off + n else size)) - Footprint(Blocks(size))
  }

  lemma FootprintGrows(m: nat, n: nat)
    requires m <= n
    ensures Footprint(Blocks(m)) <= Footprint(Blocks(n))
  {
    assert (m + BSIZE - 1) / BSIZE <= (n + BSIZE - 1) / BSIZE;
  }

  // ---- Granting a free block to a slot ----

  /** Slot s gains block b; file data, sizes and the other inodes stay. */
  ghost predicate Granted(data: seq<Block>, ips: seq<Inode>, owner: Owners, data': seq<Block>, ips': seq<Inode>, s: Slot, b: nat) {
    && Gains(data, ips, data', ips', s, b)
    && (forall x :: x in owner && owner[x].File? && x < |data| ==> data'[x] == data[x])
    && (forall j :: 0 <= j < |ips| ==> ips'[j].size == ips[j].size)
    && (forall j :: 0 <= j < |ips| && j != s.ino ==> ips'[j] == ips[j])
  }

  /** balloc's block is a data block that nobody owns; zeroing it disturbs no block map. */
  lemma FreshBlock(size: nat, lo: nat, bits: seq<BitBlock>, data: seq<Block>, ips: seq<Inode>, owner: Owners, b: nat)
    requires Allotted(size, lo, bits, data, ips, owner) && b < size && b !in UsedSet(bits, size)
    ensures 0 < lo <= b && b !in owner
    ensures Owned(data[b := ZeroBlock()], ips, owner, lo)
    ensures forall s :: SlotOk(|ips|, s) ==> At(data[b := ZeroBlock()], ips, s) == At(data, ips, s)
  {
    hide UsedSet, Addr, ZeroBlock, Covers;
    ContentWrite(data, ips, owner, lo, b, ZeroBlock());
  }

  lemma GrantDirect(size: nat, lo: nat, bits: seq<BitBlock>, data: seq<Block>, ips: seq<Inode>, owner: Owners,
                    bits': seq<BitBlock>, i: nat, bn: nat, b: nat)
    requires Allotted(size, lo, bits, data, ips, owner) && b < size && b !in UsedSet(bits, size)
    requires Covers(bits', size) && UsedSet(bits', size) == UsedSet(bits, size) + {b}
    requires i < |ips| && bn < NDIRECT && ips[i].addrs[bn] == 0
    ensures var data' := data[b := ZeroBlock()];
      var ips' := ips[i := ips[i].(addrs := ips[i].addrs[bn := b])];
      && 0 < lo <= b && b !in owner
      && Allotted(size, lo, bits', data', ips', owner[b := File(i, bn)])
      && Granted(data, ips, owner, data', ips', File(i, bn), b)
  {
    hide UsedSet, Covers, ZeroBlock, Word;
    FreshBlock(size, lo, bits, data, ips, owner, b);
    var data' := data[b := ZeroBlock()];
    var ips' := ips[i := ips[i].(addrs := ips[i].addrs[bn := b])];
    DirectGains(data', ips, i, bn, b);
    OwnerGains(data', ips, data', ips', owner, lo, File(i, bn), b);
  }

  lemma GrantIndirect(size: nat, lo: nat, bits: seq<BitBlock>, data: seq<Block>, ips: seq<Inode>, owner: Owners,
                      bits': seq<BitBlock>, i: nat, b: nat)
    requires Allotted(size, lo, bits, data, ips, owner) && b < size && b !in UsedSet(bits, size)
    requires Covers(bits', size) && UsedSet(bits', size) == UsedSet(bits, size) + {b}
    requires i < |ips| && ips[i].addrs[NDIRECT] == 0
    ensures var data' := data[b := ZeroBlock()];
      var ips' := ips[i := ips[i].(addrs := ips[i].addrs[NDIRECT := b])];
      && 0 < lo <= b && b !in owner
      && Allotted(size, lo, bits', data', ips', owner[b := Indirect(i)])
      && Granted(data, ips, owner, data', ips', Indirect(i), b)
  {
    hide UsedSet, Covers, ZeroBlock, Word;
    FreshBlock(size, lo, bits, data, ips, owner, b);
    var data' := data[b := ZeroBlock()];
    var ips' := ips[i := ips[i].(addrs := ips[i].addrs[NDIRECT := b])];
    IndirectGains(data', ips, i, b);
    OwnerGains(data', ips, data', ips', owner, lo, Indirect(i), b);
  }

  lemma GrantListed(size: nat, lo: nat, bits: seq<BitBlock>, data: seq<Block>, ips: seq<Inode>, owner: Owners,
                    bits': seq<BitBlock>, i: nat, bn: nat, b: nat)
    requires Allotted(size, lo, bits, data, ips, owner) && b < size && b !in UsedSet(bits, size)
    requires Covers(bits', size) && UsedSet(bits', size) == UsedSet(bits, size) + {b}
    requires i < |ips| && NDIRECT <= bn < MAXFILE && ips[i].addrs[NDIRECT] != 0 && At(data, ips, File(i, bn)) == 0
    ensures var d := ips[i].addrs[NDIRECT];
      && d != b
      && var data' := data[b := ZeroBlock()][d := SetWord(data[d], bn - NDIRECT, b)];
      && 0 < lo <= b && b !in owner
      && Allotted(size, lo, bits', data', ips, owner[b := File(i, bn)])
      && Granted(data, ips, owner, data', ips, File(i, bn), b)
  {
    hide UsedSet, Covers, ZeroBlock, Word, SetWord;
    FreshBlock(size, lo, bits, data, ips, owner, b);
    var d := ips[i].addrs[NDIRECT];
    assert At(data, ips, Indirect(i)) == d;
    assert d in owner && owner[d] == Indirect(i);
    var data1 := data[b := ZeroBlock()];
    ListedGains(data1, ips, owner, lo, i, bn, b);
    var data' := data1[d := SetWord(data[d], bn - NDIRECT, b)];
    OwnerGains(data1, ips, data', ips, owner, lo, File(i, bn), b);
  }

  lemma GrantedExtends(data: seq<Block>, ips: seq<Inode>, owner: Owners, data': seq<Block>, ips': seq<Inode>, i: nat,
          bn: nat, a: nat)
    requires Granted(data, ips, owner, data', ips', File(i, bn), a) && i < |ips| && bn < MAXFILE && a != 0
    requires At(data, ips, File(i, bn)) == 0 && (bn >= NDIRECT ==> At(data, ips, Indirect(i)) != 0)
    ensures Extends(data, ips, owner, data', ips', i, bn, a)
  {
    hide At;
  }

  lemma GrantedThenExtends(data: seq<Block>, ips: seq<Inode>, owner: Owners, data1: seq<Block>, ips1: seq<Inode>,
                           data': seq<Block>, ips': seq<Inode>, i: nat, bn: nat, d: nat, a: nat)
    requires Granted(data, ips, owner, data1, ips1, Indirect(i), d) && d != 0 && d !in owner && bn >= NDIRECT
    requires i < |ips| && At(data, ips, Indirect(i)) == 0
    requires Extends(data1, ips1, owner[d := Indirect(i)], data', ips', i, bn, a)
    ensures Extends(data, ips, owner, data', ips', i, bn, a)
  {
    hide At;
  }

  /** The new indirect block lists nothing. */
  lemma StillMissing(data: seq<Block>, ips: seq<Inode>, owner: Owners, data': seq<Block>, ips': seq<Inode>, i: nat,
          bn: nat, d: nat)
    requires Granted(data, ips, owner, data', ips', Indirect(i), d) && i < |ips| && NDIRECT <= bn < MAXFILE
    requires At(data, ips, Indirect(i)) == 0 && d != 0
    ensures At(data, ips, File(i, bn)) == 0 && At(data', ips', File(i, bn)) == 0 && At(data', ips', Indirect(i)) == d
  {
    hide Word;
  }

  lemma AlreadyExtends(data: seq<Block>, ips: seq<Inode>, owner: Owners, i: nat, bn: nat)
    requires Shape(data, ips) && i < |ips| && bn < MAXFILE && At(data, ips, File(i, bn)) != 0
    ensures Extends(data, ips, owner, data, ips, i, bn, At(data, ips, File(i, bn)))
  {
    hide Word;
  }

  /** The set bits are exactly the metadata blocks and the blocks that some slot names, and a
      named block is never metadata; so what balloc finds is neither 0 nor in use. */
  lemma BitmapIsUnion(size: nat, lo: nat, bits: seq<BitBlock>, data: seq<Block>, ips: seq<Inode>, owner: Owners, b: nat)
    requires Allotted(size, lo, bits, data, ips, owner) && b < size
    ensures b in UsedSet(bits, size) <==> b < lo || exists s :: SlotOk(|ips|, s) && At(data, ips, s) == b
    ensures b != 0 && (exists s :: SlotOk(|ips|, s) && At(data, ips, s) == b) ==> lo <= b
  {
    hide UsedSet, Addr, Covers;
    if b in owner {
      assert SlotOk(|ips|, owner[b]) && At(data, ips, owner[b]) == b;
    }
  }

  // ---- Chunks ----

  /** Every other file keeps its inode and its bytes. */
  ghost predicate OthersSame(data: seq<Block>, ips: seq<Inode>, data': seq<Block>, ips': seq<Inode>, i: nat) {
    && Shape(data, ips) && Shape(data', ips') && |ips'| == |ips|
    && forall j :: 0 <= j < |ips| && j != i && FileOk(data, ips, j) ==>
         ips'[j] == ips[j] && FileOk(data', ips', j) && View(data', ips'[j], ips[j].size) == View(data, ips[j], ips[j].size)
  }

  lemma BlocksCover(n: nat)
    ensures n <= Blocks(n) * BSIZE
    ensures forall k: nat :: k < n ==> k / BSIZE < Blocks(n)
  {
  }

  lemma ExtendsOthers(data: seq<Block>, ips: seq<Inode>, owner: Owners, lo: nat, data': seq<Block>, ips': seq<Inode>,
          i: nat, bn: nat, a: nat)
    requires Owned(data, ips, owner, lo) && Extends(data, ips, owner, data', ips', i, bn, a)
    ensures OthersSame(data, ips, data', ips', i)
  {
    hide Addr, Word, Owned, View, Mapped, Blocks;
    forall j: nat | j < |ips| && j != i && FileOk(data, ips, j)
      ensures FileOk(data', ips', j) && View(data', ips'[j], ips[j].size) == View(data, ips[j], ips[j].size)
    {
      BlocksCover(ips[j].size);
      ExtendsMapped(data, ips, owner, data', ips', i, bn, a, j, Blocks(ips[j].size));
      ExtendsView(data, ips, owner, lo, data', ips', i, bn, a, j, Blocks(ips[j].size), ips[j].size);
    }
  }

  /** A write to a block of file i reaches no other file. */
  lemma PatchOthers(data: seq<Block>, ips: seq<Inode>, owner: Owners, lo: nat, i: nat, bn: nat, v: Block)
    requires Owned(data, ips, owner, lo) && i < |ips| && bn < MAXFILE && At(data, ips, File(i, bn)) != 0
    ensures At(data, ips, File(i, bn)) < |data|
    ensures OthersSame(data, ips, data[At(data, ips, File(i, bn)) := v], ips, i)
    ensures forall nb :: Mapped(data, ips, i, nb) ==> Mapped(data[At(data, ips, File(i, bn)) := v], ips, i, nb)
  {
    hide Word, Blocks;
    var a := At(data, ips, File(i, bn));
    var data' := data[a := v];
    ContentWrite(data, ips, owner, lo, a, v);
    forall j: nat | j < |ips| && j != i && FileOk(data, ips, j)
      ensures View(data', ips[j], ips[j].size) == View(data, ips[j], ips[j].size)
    {
      forall k: nat | k < MAXFILE
        ensures Addr(data', ips[j], k) == Addr(data, ips[j], k) != a
      {
        assert At(data', ips, File(j, k)) == At(data, ips, File(j, k));
        if At(data, ips, File(j, k)) == a {
          NamedOnce(data, ips, owner, lo, File(j, k), File(i, bn));
        }
      }
      ViewFrame(data, ips[j], data', ips[j], ips[j].size);
    }
  }

  lemma BlockInRange(data: seq<Block>, ips: seq<Inode>, owner: Owners, lo: nat, s: Slot)
    requires Owned(data, ips, owner, lo) && SlotOk(|ips|, s) && At(data, ips, s) != 0
    ensures At(data, ips, s) < |data| && At(data, ips, s) in owner && owner[At(data, ips, s)] == s
  {
  }

  lemma ExtendsAt(data: seq<Block>, ips: seq<Inode>, owner: Owners, data': seq<Block>, ips': seq<Inode>, i: nat, bn: nat, a: nat)
    requires Extends(data, ips, owner, data', ips', i, bn, a)
    ensures Shape(data', ips') && |ips'| == |ips| && |data'| == |data| && i < |ips| && bn < MAXFILE
    ensures At(data', ips', File(i, bn)) == a != 0 && ips'[i].size == ips[i].size
  {
  }

  lemma MappedAt(data: seq<Block>, ips: seq<Inode>, i: nat, nb: nat, bn: nat)
    requires Shape(data, ips) && i < |ips| && Mapped(data, ips, i, nb) && bn < nb && bn < MAXFILE
    ensures At(data, ips, File(i, bn)) != 0
  {
  }

  /** The chunk's block is one of the file's blocks or the next one. */
  lemma ChunkFits(o: nat, m: nat, len: nat)
    requires m > 0 && o <= len <= MAXFILE * BSIZE && o % BSIZE + m <= BSIZE && o + m <= MAXFILE * BSIZE
    ensures o / BSIZE <= Blocks(len) && o / BSIZE < MAXFILE && len <= Blocks(len) * BSIZE
    ensures o < len ==> o / BSIZE < Blocks(len)
    ensures Blocks(if o + m > len then o + m else len) == if o / BSIZE == Blocks(len) then Blocks(len) + 1 else Blocks(len)
  {
  }

  lemma OthersTrans(d0: seq<Block>, p0: seq<Inode>, d1: seq<Block>, p1: seq<Inode>, d2: seq<Block>, p2: seq<Inode>, i: nat)
    requires OthersSame(d0, p0, d1, p1, i) && OthersSame(d1, p1, d2, p2, i)
    ensures OthersSame(d0, p0, d2, p2, i)
  {
    hide FileOk, View, Addr;
  }

  /** A chunk inside one block is a slice of the file. */
  lemma ChunkIsSlice(data: seq<Block>, ip: Inode, len: nat, o: nat, m: nat)
    requires |ip.addrs| == NDIRECT + 1 && ip.addrs[NDIRECT] < |data| && len <= MAXFILE * BSIZE
    requires o + m <= len && o % BSIZE + m <= BSIZE && o / BSIZE < MAXFILE
    requires Addr(data, ip, o / BSIZE) < |data|
    ensures data[Addr(data, ip, o / BSIZE)][o % BSIZE..o % BSIZE + m] == View(data, ip, len)[o..o + m]
  {
    hide Addr;
    forall k: nat | o <= k < o + m
      ensures ByteAt(data, ip, k) == data[Addr(data, ip, o / BSIZE)][k - o + o % BSIZE]
    {
      assert k / BSIZE == o / BSIZE && k % BSIZE == k - o + o % BSIZE;
    }
  }

  lemma SpliceTwice(s: seq<Byte>, off: nat, src: seq<Byte>, tot: nat, m: nat)
    requires off <= |s| && tot + m <= |src|
    ensures Splice(Splice(s, off, src[..tot]), off + tot, src[tot..tot + m]) == Splice(s, off, src[..tot + m])
  {
  }

  lemma SpliceNothing(s: seq<Byte>, off: nat, src: seq<Byte>)
    requires off <= |s|
    ensures Splice(s, off, src[..0]) == s
  {
  }

  /** The size field takes part in no block map. */
  lemma SizeSet(size: nat, lo: nat, bits: seq<BitBlock>, data: seq<Block>, ips: seq<Inode>, owner: Owners, i: nat, len: nat)
    requires Allotted(size, lo, bits, data, ips, owner) && i < |ips| && len <= MAXFILE * BSIZE
    ensures var ips' := ips[i := ips[i].(size := len)];
      && Allotted(size, lo, bits, data, ips', owner) && OthersSame(data, ips, data, ips', i)
      && (forall nb :: Mapped(data, ips, i, nb) ==> Mapped(data, ips', i, nb))
      && View(data, ips'[i], len) == View(data, ips[i], len)
  {
    hide Word, UsedSet, Covers, Blocks;
    var ips' := ips[i := ips[i].(size := len)];
    forall s | SlotOk(|ips|, s)
      ensures At(data, ips', s) == At(data, ips, s)
    {
    }
    ViewFrame(data, ips[i], data, ips'[i], len);
  }

  // ---- Truncation ----

  /** The blocks of the first n file blocks of file i. */
  ghost function Freed(data: seq<Block>, ips: seq<Inode>, i: nat, n: nat): set<nat>
    requires Shape(data, ips) && i < |ips| && n <= MAXFILE
  {
    set bn: nat | bn < n && At(data, ips, File(i, bn)) != 0 :: At(data, ips, File(i, bn))
  }

  lemma FreedNone(data: seq<Block>, ips: seq<Inode>, i: nat)
    requires Shape(data, ips) && i < |ips|
    ensures Freed(data, ips, i, 0) == {}
  {
  }

  lemma FreedNext(data: seq<Block>, ips: seq<Inode>, owner: Owners, lo: nat, i: nat, n: nat)
    requires Owned(data, ips, owner, lo) && i < |ips| && n < MAXFILE
    ensures var a := At(data, ips, File(i, n));
      && (a == 0 ==> Freed(data, ips, i, n + 1) == Freed(data, ips, i, n))
      && (a != 0 ==> Freed(data, ips, i, n + 1) == Freed(data, ips, i, n) + {a} && a !in Freed(data, ips, i, n) && a in owner && a < |data|)
  {
    hide Addr;
    var a := At(data, ips, File(i, n));
    if a != 0 && a in Freed(data, ips, i, n) {
      var bn: nat :| bn < n && At(data, ips, File(i, bn)) == a;
      NamedOnce(data, ips, owner, lo, File(i, bn), File(i, n));
    }
  }

  /** A file without an indirect block lists nothing; the indirect block is not one of the listed ones. */
  lemma FreedAll(data: seq<Block>, ips: seq<Inode>, owner: Owners, lo: nat, i: nat)
    requires Owned(data, ips, owner, lo) && i < |ips|
    ensures var d := ips[i].addrs[NDIRECT];
      && (d == 0 ==> Freed(data, ips, i, MAXFILE) == Freed(data, ips, i, NDIRECT))
      && (d != 0 ==> d !in Freed(data, ips, i, MAXFILE) && d in owner && d < |data|)
  {
    hide Word;
    var d := ips[i].addrs[NDIRECT];
    assert At(data, ips, Indirect(i)) == d;
    if d != 0 && d in Freed(data, ips, i, MAXFILE) {
      var bn: nat :| bn < MAXFILE && At(data, ips, File(i, bn)) == d;
      NamedOnce(data, ips, owner, lo, File(i, bn), Indirect(i));
    }
  }

  /** The blocks that stay in use are exactly those of the other files. */
  lemma FreedIsOwned(data: seq<Block>, ips: seq<Inode>, owner: Owners, lo: nat, i: nat, b: nat)
    requires Owned(data, ips, owner, lo) && i < |ips|
    ensures b in Without(owner, i) <==> b in owner && b !in Freed(data, ips, i, MAXFILE) && b != ips[i].addrs[NDIRECT]
  {
    hide Word;
    if b in owner && owner[b].ino == i {
      match owner[b]
      case File(_, bn) => assert At(data, ips, File(i, bn)) == b;
      case Indirect(_) =>
    }
    assert At(data, ips, Indirect(i)) == ips[i].addrs[NDIRECT];
  }

  lemma Truncated(size: nat, lo: nat, bits: seq<BitBlock>, data: seq<Block>, ips: seq<Inode>, owner: Owners,
          bits': seq<BitBlock>, i: nat)
    requires Allotted(size, lo, bits, data, ips, owner) && i < |ips| && Covers(bits', size)
    requires UsedSet(bits', size) == UsedSet(bits, size) - Freed(data, ips, i, MAXFILE)
                                     - (if ips[i].addrs[NDIRECT] == 0 then {} else {ips[i].addrs[NDIRECT]})
    ensures Allotted(size, lo, bits', data, ips[i := Empty()], Without(owner, i))
  {
    hide UsedSet, Freed, Without, Owned, Covers;
    OwnerForgets(data, ips, owner, lo, i);
    forall b: nat | b < size
      ensures b in UsedSet(bits', size) <==> b < lo || b in Without(owner, i)
    {
      FreedIsOwned(data, ips, owner, lo, i, b);
      OwnedAbove(data, ips, owner, lo, i);
    }
  }

  lemma OwnedAbove(data: seq<Block>, ips: seq<Inode>, owner: Owners, lo: nat, i: nat)
    requires Owned(data, ips, owner, lo) && i < |ips|
    ensures forall b :: b in owner ==> 0 < lo <= b < |data|
    ensures forall b :: b in Freed(data, ips, i, MAXFILE) ==> b in owner
    ensures ips[i].addrs[NDIRECT] != 0 ==> ips[i].addrs[NDIRECT] in owner
  {
    hide Addr;
    assert At(data, ips, Indirect(i)) == ips[i].addrs[NDIRECT];
  }

  lemma TruncatedFiles(data: seq<Block>, ips: seq<Inode>, i: nat)
    requires Shape(data, ips) && i < |ips|
    ensures Shape(data, ips[i := Empty()]) && OthersSame(data, ips, data, ips[i := Empty()], i)
    ensures FilesOk(data, ips) ==> FilesOk(data, ips[i := Empty()])
  {
    hide Word;
  }

  lemma EmptyVolume(nblocks: nat, n: nat, lo: nat)
    requires 0 < lo <= nblocks
    ensures var data, ips := seq(nblocks, _ => ZeroBlock()), seq(n, _ => Empty()); Owned(data, ips, map[], lo) && FilesOk(data, ips)
  {
    hide ZeroBlock, Word;
    var data, ips := seq(nblocks, _ => ZeroBlock()), seq(n, _ => Empty());
    assert Shape(data, ips);
    assert forall s :: SlotOk(|ips|, s) ==> At(data, ips, s) == 0;
  }

  class FileSystem {
    const size: nat
    const lo: nat
    var bits: seq<BitBlock>
    var data: seq<Block>
    /** In-memory inodes, and the on-disk copies that iupdate writes. */
    var ip: seq<Inode>
    var dinode: seq<Inode>
    ghost var owner: Owners

    ghost predicate Structure()
      reads this
    {
      Allotted(size, lo, bits, data, ip, owner)
    }

    /** Between operations. */
    ghost predicate Valid()
      reads this
    {
      && Structure()
      && dinode == ip
      && FilesOk(data, ip)
    }

    /** The bytes of file i. */
    ghost function Contents(i: nat): seq<Byte>
      requires Shape(data, ip) && i < |ip| && ip[i].size <= MAXFILE * BSIZE
      reads this
    {
      View(data, ip[i], ip[i].size)
    }

    /** A volume with n empty inodes, in which only the blocks before lo are in use. */
    constructor (nblocks: nat, meta: nat, bitmap: seq<BitBlock>, n: nat)
      requires 0 < meta <= nblocks < UINT && Covers(bitmap, nblocks)
      requires forall b: nat :: b < nblocks ==> (b in UsedSet(bitmap, nblocks) <==> b < meta)
      ensures Valid() && size == nblocks && lo == meta && |ip| == n && forall i :: 0 <= i < n ==> ip[i] == Empty()
    {
      size, lo, bits := nblocks, meta, bitmap;
      data := seq(nblocks, _ => ZeroBlock());
      ip := seq(n, _ => Empty());
      dinode := seq(n, _ => Empty());
      owner := map[];
      EmptyVolume(nblocks, n, meta);
    }

    /** The lowest free block, marked and zeroed; None stands for the out-of-blocks panic. */
    method Balloc() returns (r: Option<nat>)
      requires Covers(bits, size) && |data| == size
      modifies `bits, `data
      ensures Covers(bits, size)
      ensures r.None? <==> old(FreeCount(bits, size)) == 0
      ensures r.None? ==> bits == old(bits) && data == old(data) && forall b: nat :: b < size ==> b in old(UsedSet(bits, size))
      ensures r.Some? ==> FreeCount(bits, size) == old(FreeCount(bits, size)) - 1
      ensures r.Some? ==> r.value < size && r.value !in old(UsedSet(bits, size))
      ensures r.Some? ==> forall c: nat :: c < r.value ==> c in old(UsedSet(bits, size))
      ensures r.Some? ==> UsedSet(bits, size) == old(UsedSet(bits, size)) + {r.value}
      ensures r.Some? ==> data == old(data)[r.value := ZeroBlock()]
    {
      hide ByteOf, BitOf, BitBlockOf, MarkBit, ClearBit, UsedSet, ZeroBlock, Mask, OrMask, FreeCount;
      NoneFree(bits, size);
      var b := 0;
      while b < size
        invariant b % BPB == 0
        invariant bits == old(bits) && data == old(data)
        invariant forall c: nat :: c < b && c < size ==> c in UsedSet(bits, size)
      {
        var bi := 0;
        while bi < BPB && b + bi < size
          invariant bi <= BPB
          invariant bits == old(bits) && data == old(data)
          invariant forall c: nat :: c < b + bi && c < size ==> c in UsedSet(bits, size)
        {
          BitPlace(b, bi);
          InUsed(bits, size, b + bi);
          if !TestMask(bits[b / BPB][bi / 8], bi % 8) {
            OneUsed(bits, size, b + bi);
            bits := MarkBit(bits, b + bi);
            OneLess(old(bits), bits, size, b + bi);
            data := data[b + bi := ZeroBlock()];
            return Some(b + bi);
          }
          bi := bi + 1;
        }
        b := b + BPB;
      }
      r := None;
    }

    /** false stands for the "freeing free block" panic. */
    method Bfree(b: nat) returns (ok: bool)
      requires Covers(bits, size) && b < size
      modifies `bits
      ensures Covers(bits, size)
      ensures ok <==> b in old(UsedSet(bits, size))
      ensures UsedSet(bits, size) == old(UsedSet(bits, size)) - {b}
    {
      hide ByteOf, BitOf, BitBlockOf, MarkBit, ClearBit, UsedSet, BitSet;
      InUsed(bits, size, b);
      if !BitSet(bits, b) {
        return false;
      }
      OneUsed(bits, size, b);
      bits := ClearBit(bits, b);
      ok := true;
    }

    /** The bn-th block of file i, allocated if it does not exist yet. */
    method Bmap(i: nat, bn: nat) returns (r: BmapResult)
      requires Structure() && i < |ip|
      modifies `bits, `data, `ip, `owner
      ensures r.PanicOutOfRange? <==> bn >= MAXFILE
      ensures r.PanicOutOfBlocks? ==> Covers(bits, size) && forall b: nat :: b < size ==> b in UsedSet(bits, size)
      ensures r.PanicOutOfBlocks? <==> bn < MAXFILE && old(FreeCount(bits, size)) < old(BmapNeeds(data, ip, i, bn))
      ensures r.BlockNo? ==> Structure() && Extends(old(data), old(ip), old(owner), data, ip, i, bn, r.block)
      ensures r.BlockNo? ==> FreeCount(bits, size) == old(FreeCount(bits, size)) - old(BmapNeeds(data, ip, i, bn))
      ensures bn < MAXFILE && old(At(data, ip, File(i, bn))) != 0 ==>
                r.BlockNo? && bits == old(bits) && data == old(data) && ip == old(ip) && owner == old(owner)
    {
      hide UsedSet, Covers, ZeroBlock, Word, SetWord, Owned, Granted, Extends, FreeCount;
      NoneFree(bits, size);
      if bn < NDIRECT {
        var addr := ip[i].addrs[bn];
        if addr == 0 {
          var b := Balloc();
          if b.None? {
            return PanicOutOfBlocks;
          }
          addr := b.value;
          GrantDirect(size, lo, old(bits), old(data), ip, owner, bits, i, bn, addr);
          ip := ip[i := ip[i].(addrs := ip[i].addrs[bn := addr])];
          GrantedExtends(old(data), old(ip), owner, data, ip, i, bn, addr);
          owner := owner[addr := File(i, bn)];
        } else {
          AlreadyExtends(data, ip, owner, i, bn);
        }
        return BlockNo(addr);
      }
      var k := bn - NDIRECT;
      if k < NINDIRECT {
        var d := ip[i].addrs[NDIRECT];
        if d == 0 {
          var b := Balloc();
          if b.None? {
            return PanicOutOfBlocks;
          }
          d := b.value;
          GrantIndirect(size, lo, old(bits), old(data), ip, owner, bits, i, d);
          ip := ip[i := ip[i].(addrs := ip[i].addrs[NDIRECT := d])];
          ghost var data1, ip1 := data, ip;
          owner := owner[d := Indirect(i)];
          StillMissing(old(data), old(ip), old(owner), data, ip, i, bn, d);
          r := MapListed(i, bn);
          if r.BlockNo? {
            GrantedThenExtends(old(data), old(ip), old(owner), data1, ip1, data, ip, i, bn, d, r.block);
          }
        } else {
          r := MapListed(i, bn);
        }
        return;
      }
      r := PanicOutOfRange;
    }

    /** The second half of bmap: the indirect block exists. */
    method MapListed(i: nat, bn: nat) returns (r: BmapResult)
      requires Structure() && i < |ip| && NDIRECT <= bn < MAXFILE && ip[i].addrs[NDIRECT] != 0
      modifies `bits, `data, `owner
      ensures !r.PanicOutOfRange?
      ensures r.PanicOutOfBlocks? ==> Covers(bits, size) && forall b: nat :: b < size ==> b in UsedSet(bits, size)
      ensures r.PanicOutOfBlocks? <==> old(FreeCount(bits, size)) < old(BmapNeeds(data, ip, i, bn))
      ensures r.BlockNo? ==> Structure() && Extends(old(data), old(ip), old(owner), data, ip, i, bn, r.block)
      ensures r.BlockNo? ==> FreeCount(bits, size) == old(FreeCount(bits, size)) - old(BmapNeeds(data, ip, i, bn))
      ensures old(At(data, ip, File(i, bn))) != 0 ==>
                r.BlockNo? && bits == old(bits) && data == old(data) && owner == old(owner)
    {
      hide UsedSet, Covers, ZeroBlock, Word, SetWord, Owned, Granted, Extends, FreeCount;
      NoneFree(bits, size);
      var d := ip[i].addrs[NDIRECT];
      var bp := data[d];
      var a := Word(bp, bn - NDIRECT);
      if a == 0 {
        var b := Balloc();
        if b.None? {
          return PanicOutOfBlocks;
        }
        a := b.value;
        GrantListed(size, lo, old(bits), old(data), ip, owner, bits, i, bn, a);
        data := data[d := SetWord(bp, bn - NDIRECT, a)];
        GrantedExtends(old(data), ip, owner, data, ip, i, bn, a);
        owner := owner[a := File(i, bn)];
      } else {
        AlreadyExtends(data, ip, owner, i, bn);
      }
      r := BlockNo(a);
    }

    /** Copies of the in-memory inode go to disk. */
    method Iupdate(i: nat)
      requires i < |ip| == |dinode|
      modifies `dinode
      ensures dinode == old(dinode)[i := ip[i]]
    {
      dinode := dinode[i := ip[i]];
    }

    /** readi is a slice of the file, cut at its end; it never allocates and never panics. */
    method Readi(i: nat, off: nat, n: nat) returns (r: IoResult, dst: seq<Byte>)
      requires Valid() && i < |ip| && off < UINT && n < UINT
      modifies `bits, `data, `ip, `owner
      ensures bits == old(bits) && data == old(data) && ip == old(ip) && owner == old(owner)
      ensures r.Refused? <==> off > ip[i].size || (off + n) % UINT < off
      ensures !r.PanicNoBlocks?
      ensures r.Done? ==> r.n == |dst| == (if off + n > ip[i].size then ip[i].size - off else n)
      ensures r.Done? ==> off + r.n <= ip[i].size <= MAXFILE * BSIZE && dst == Contents(i)[off..off + r.n]
    {
      hide Owned, Extends, Word, UsedSet, Covers, Blocks, Addr, ByteAt;
      dst := [];
      assert FileOk(data, ip, i);
      if off > ip[i].size || (off + n) % UINT < off {
        return Refused, dst;
      }
      var n' := if off + n > ip[i].size then ip[i].size - off else n;
      var tot := 0;
      ghost var C := Contents(i);
      BlocksCover(ip[i].size);
      while tot < n'
        invariant tot <= n'
        invariant bits == old(bits) && data == old(data) && ip == old(ip) && owner == old(owner)
        invariant dst == C[off..off + tot]
      {
        var o := off + tot;
        MappedAt(data, ip, i, Blocks(ip[i].size), o / BSIZE);
        BlockInRange(data, ip, owner, lo, File(i, o / BSIZE));
        var b := Bmap(i, o / BSIZE);
        ExtendsAt(old(data), old(ip), old(owner), data, ip, i, o / BSIZE, b.block);
        var m := if n' - tot < BSIZE - o % BSIZE then n' - tot else BSIZE - o % BSIZE;
        ChunkIsSlice(data, ip[i], ip[i].size, o, m);
        dst := dst + data[b.block][o % BSIZE..o % BSIZE + m];
        tot := tot + m;
      }
      r := Done(n');
    }

    /** The body of writei's loop: one chunk inside one block. */
    method WriteChunk(i: nat, o: nat, chunk: seq<Byte>, ghost len: nat) returns (ok: bool)
      requires Structure() && i < |ip| && |chunk| > 0 && o <= len <= MAXFILE * BSIZE
      requires o % BSIZE + |chunk| <= BSIZE && o + |chunk| <= MAXFILE * BSIZE
      requires Mapped(data, ip, i, Blocks(len))
      modifies `bits, `data, `ip, `owner
      ensures !ok ==> Covers(bits, size) && forall b: nat :: b < size ==> b in UsedSet(bits, size)
      ensures !ok <==> old(FreeCount(bits, size)) < Footprint(Blocks(if o + |chunk| > len then o + |chunk| else len)) - Footprint(Blocks(len))
      ensures ok ==> Structure() && OthersSame(old(data), old(ip), data, ip, i)
      ensures ok ==> |ip| == |old(ip)| && ip[i].size == old(ip)[i].size
      ensures ok ==> FreeCount(bits, size) == old(FreeCount(bits, size)) + Footprint(Blocks(len)) - Footprint(Blocks(if o + |chunk| > len then o + |chunk| else len))
      ensures ok ==> Mapped(data, ip, i, Blocks(if o + |chunk| > len then o + |chunk| else len))
      ensures ok ==> View(data, ip[i], if o + |chunk| > len then o + |chunk| else len)
                     == Splice(old(View(data, ip[i], len)), o, chunk)
      ensures ok && o < len ==> ip == old(ip)
    {
      hide Owned, Word, UsedSet, Covers, Addr, ByteAt, Mapped, View, Splice, OthersSame, Extends, Blocks, FileOk,
        FreeCount, Footprint,
        BmapNeeds;
      var bn := o / BSIZE;
      ghost var nb := Blocks(len);
      ChunkFits(o, |chunk|, len);
      NeedsGrowth(data, ip, i, nb, bn);
      if o < len {
        MappedAt(data, ip, i, nb, bn);
      }
      var b := Bmap(i, bn);
      if !b.BlockNo? {
        return false;
      }
      ghost var data1, ip1 := data, ip;
      ExtendsMapped(old(data), old(ip), old(owner), data, ip, i, bn, b.block, i, nb);
      ExtendsView(old(data), old(ip), old(owner), lo, data, ip, i, bn, b.block, i, nb, len);
      ExtendsOthers(old(data), old(ip), old(owner), lo, data, ip, i, bn, b.block);
      ExtendsAt(old(data), old(ip), old(owner), data, ip, i, bn, b.block);
      BlockInRange(data, ip, owner, lo, File(i, bn));
      PatchView(data, ip, owner, lo, i, len, o, chunk);
      PatchOthers(data, ip, owner, lo, i, bn, Patch(data[b.block], o % BSIZE, chunk));
      ContentWrite(data, ip, owner, lo, b.block, Patch(data[b.block], o % BSIZE, chunk));
      data := data[b.block := Patch(data[b.block], o % BSIZE, chunk)];
      OthersTrans(old(data), old(ip), data1, ip1, data, ip, i);
      ok := true;
    }

    /** writei is a splice of the file; every other file keeps its bytes, and the on-disk
        inode again equals the in-memory one although iupdate runs only when the file grows. */
    method Writei(i: nat, src: seq<Byte>, off: nat) returns (r: IoResult)
      requires Valid() && i < |ip| && off < UINT && |src| < UINT
      modifies this
      ensures r.Refused? <==> off > old(ip)[i].size || (off + |src|) % UINT < off || off + |src| > MAXFILE * BSIZE
      ensures r.Refused? ==> bits == old(bits) && data == old(data) && ip == old(ip) && dinode == old(dinode) && owner == old(owner)
      ensures r.PanicNoBlocks? ==> Covers(bits, size) && forall b: nat :: b < size ==> b in UsedSet(bits, size)
      ensures r.PanicNoBlocks? <==> !r.Refused? && old(FreeCount(bits, size)) < WriteNeeds(old(ip)[i].size, off, |src|)
      ensures r.Done? ==> r.n == |src| && Valid() && |ip| == |old(ip)|
      ensures r.Done? ==> FreeCount(bits, size) == old(FreeCount(bits, size)) - WriteNeeds(old(ip)[i].size, off, |src|)
      ensures r.Done? ==> old(ip)[i].size <= MAXFILE * BSIZE && FileOk(data, ip, i)
                          && Contents(i) == Splice(old(View(data, ip[i], ip[i].size)), off, src)
      ensures r.Done? ==> OthersSame(old(data), old(ip), data, ip, i)
    {
      hide Owned, Word, UsedSet, Covers, Addr, ByteAt, Mapped, View, Splice, Blocks, FreeCount, Footprint;
      assert FileOk(data, ip, i);
      if off > ip[i].size || (off + |src|) % UINT < off {
        return Refused;
      }
      if off + |src| > MAXFILE * BSIZE {
        return Refused;
      }
      ghost var C, len := View(data, ip[i], ip[i].size), ip[i].size;
      SpliceNothing(C, off, src);
      var tot := 0;
      while tot < |src|
        invariant tot <= |src|
        invariant Structure() && |ip| == |old(ip)| && dinode == old(dinode) && ip[i].size == old(ip)[i].size
        invariant len == if off + tot > ip[i].size then off + tot else ip[i].size
        invariant Mapped(data, ip, i, Blocks(len)) && View(data, ip[i], len) == Splice(C, off, src[..tot])
        invariant OthersSame(old(data), old(ip), data, ip, i)
        invariant FreeCount(bits, size) == old(FreeCount(bits, size)) + Footprint(Blocks(ip[i].size)) - Footprint(Blocks(len))
        invariant off + tot <= ip[i].size ==> ip == old(ip)
      {
        var o := off + tot;
        var m := if |src| - tot < BSIZE - o % BSIZE then |src| - tot else BSIZE - o % BSIZE;
        ghost var data1, ip1 := data, ip;
        NoneFree(bits, size);
        FootprintGrows(if o + m > len then o + m else len, if off + |src| > len then off + |src| else len);
        var ok := WriteChunk(i, o, src[tot..tot + m], len);
        if !ok {
          return PanicNoBlocks;
        }
        OthersTrans(old(data), old(ip), data1, ip1, data, ip, i);
        SpliceTwice(C, off, src, tot, m);
        tot := tot + m;
        len := if off + tot > ip[i].size then off + tot else ip[i].size;
      }
      assert src[..tot] == src;
      NoneFree(bits, size);
      if |src| > 0 && off + tot > ip[i].size {
        ghost var ip1 := ip;
        SizeSet(size, lo, bits, data, ip, owner, i, len);
        ip := ip[i := ip[i].(size := off + tot)];
        OthersTrans(old(data), old(ip), data, ip1, data, ip, i);
        Iupdate(i);
      }
      r := Done(|src|);
    }

    /** itrunc frees exactly the blocks of file i, each of them once: the panic in bfree is out of reach. */
    method Itrunc(i: nat) returns (ok: bool)
      requires Valid() && i < |ip|
      modifies this
      ensures ok && Valid() && owner == Without(old(owner), i)
      ensures ip == old(ip)[i := Empty()] && data == old(data)
      ensures OthersSame(old(data), old(ip), data, ip, i)
    {
      hide Owned, Addr, UsedSet, Covers, FileOk, Freed, Without, OthersSame;
      ghost var used := UsedSet(bits, size);
      OwnedAbove(data, ip, owner, lo, i);
      ok := FreeDirect(i, used);
      if !ok {
        return;
      }
      FreedAll(data, old(ip), owner, lo, i);
      if ip[i].addrs[NDIRECT] != 0 {
        ok := FreeListed(i, old(ip), used);
        if !ok {
          return;
        }
        ok := Bfree(ip[i].addrs[NDIRECT]);
        if !ok {
          return;
        }
        ip := ip[i := ip[i].(addrs := ip[i].addrs[NDIRECT := 0])];
      }
      Truncated(size, lo, old(bits), data, old(ip), owner, bits, i);
      TruncatedFiles(data, old(ip), i);
      ip := ip[i := ip[i].(size := 0)];
      assert ip[i].addrs == Empty().addrs;
      assert ip == old(ip)[i := Empty()];
      owner := Without(owner, i);
      Iupdate(i);
      ok := true;
    }

    /** The loop over the direct blocks in itrunc. */
    method FreeDirect(i: nat, ghost used: set<nat>) returns (ok: bool)
      requires Covers(bits, size) && Shape(data, ip) && Owned(data, ip, owner, lo) && |data| == size && i < |ip|
      requires UsedSet(bits, size) == used && forall b :: b in owner ==> b in used
      modifies `bits, `ip
      ensures ok && Covers(bits, size) && UsedSet(bits, size) == used - Freed(data, old(ip), i, NDIRECT)
      ensures ip == old(ip)[i := old(ip)[i].(addrs := Empty().addrs[NDIRECT := old(ip)[i].addrs[NDIRECT]])]
    {
      hide Owned, Word, UsedSet, Covers, Freed;
      FreedNone(data, ip, i);
      var k := 0;
      while k < NDIRECT
        invariant k <= NDIRECT && Covers(bits, size)
        invariant |ip| == |old(ip)| && ip == old(ip)[i := ip[i]] && ip[i].size == old(ip)[i].size
        invariant |ip[i].addrs| == NDIRECT + 1
        invariant forall j :: 0 <= j <= NDIRECT ==> ip[i].addrs[j] == if j < k then 0 else old(ip)[i].addrs[j]
        invariant UsedSet(bits, size) == used - Freed(data, old(ip), i, k)
      {
        FreedNext(data, old(ip), owner, lo, i, k);
        assert ip[i].addrs[k] == At(data, old(ip), File(i, k));
        if ip[i].addrs[k] != 0 {
          ok := Bfree(ip[i].addrs[k]);
          if !ok {
            return;
          }
          ip := ip[i := ip[i].(addrs := ip[i].addrs[k := 0])];
        }
        k := k + 1;
      }
      assert ip[i].addrs == Empty().addrs[NDIRECT := old(ip)[i].addrs[NDIRECT]];
      ok := true;
    }

    /** The loop over the indirect block in itrunc. */
    method FreeListed(i: nat, ghost ip0: seq<Inode>, ghost used: set<nat>) returns (ok: bool)
      requires Covers(bits, size) && Shape(data, ip0) && Owned(data, ip0, owner, lo) && |data| == size
      requires i < |ip0| == |ip| && |ip[i].addrs| == NDIRECT + 1 && ip[i].addrs[NDIRECT] == ip0[i].addrs[NDIRECT] != 0
      requires UsedSet(bits, size) == used - Freed(data, ip0, i, NDIRECT) && forall b :: b in owner ==> b in used
      modifies `bits
      ensures ok && Covers(bits, size) && UsedSet(bits, size) == used - Freed(data, ip0, i, MAXFILE)
    {
      hide Owned, Word, UsedSet, Covers, Freed;
      var d := ip[i].addrs[NDIRECT];
      var j := 0;
      while j < NINDIRECT
        invariant j <= NINDIRECT && Covers(bits, size)
        invariant UsedSet(bits, size) == used - Freed(data, ip0, i, NDIRECT + j)
      {
        FreedNext(data, ip0, owner, lo, i, NDIRECT + j);
        var a := Word(data[d], j);
        assert a == At(data, ip0, File(i, NDIRECT + j));
        if a != 0 {
          ok := Bfree(a);
          if !ok {
            return;
          }
        }
        j := j + 1;
      }
      ok := true;
    }
  }
}
