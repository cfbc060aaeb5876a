/**
 On-disk encodings of fs.c: the free bitmap (one bit per block, BPB bits per bitmap block)
 and the block of 32-bit words that lists a file's indirect blocks.
 */
module FsLayout {
  import opened Common

  const BSIZE: nat := 512
  const BPB: nat := BSIZE * 8
  const NDIRECT: nat := 12
  const NINDIRECT: nat := BSIZE / 4
  const MAXFILE: nat := NDIRECT + NINDIRECT
  const UINT: nat := 0x1_0000_0000

  type Byte = b: nat | b < 256

  type Block = b: seq<Byte> | |b| == BSIZE witness seq(BSIZE, _ => 0)

  // ---- The free bitmap ----

  type BitBlock = b: seq<bv8> | |b| == BSIZE witness seq(BSIZE, _ => 0)

  /** 1 << k */
  function Mask(k: nat): bv8
    requires k < 8
  {
    if k == 0 then 1 else if k == 1 then 2 else if k == 2 then 4 else if k == 3 then 8
    else if k == 4 then 16 else if k == 5 then 32 else if k == 6 then 64 else 128
  }

  predicate TestMask(x: bv8, k: nat)
    requires k < 8
  {
    x & Mask(k) != 0
  }

  function OrMask(x: bv8, k: nat): bv8
    requires k < 8
  {
    x | Mask(k)
  }

  function AndNotMask(x: bv8, k: nat): bv8
    requires k < 8
  {
    x & !Mask(k)
  }

  lemma OrAlgebra(x: bv8, j: nat, k: nat)
    requires j < 8 && k < 8
    ensures TestMask(OrMask(x, j), k) <==> j == k || TestMask(x, k)
  {
  }

  lemma AndNotAlgebra(x: bv8, j: nat, k: nat)
    requires j < 8 && k < 8
    ensures TestMask(AndNotMask(x, j), k) <==> j != k && TestMask(x, k)
  {
  }

  predicate Covers(bits: seq<BitBlock>, size: nat) {
    size <= |bits| * BPB
  }

  /** Where the bit of block b sits: bitmap block, byte in it, bit in that. */
  function BitBlockOf(b: nat): nat
  {
    b / BPB
  }

  function ByteOf(b: nat): (r: nat)
    ensures r < BSIZE
  {
    (b % BPB) / 8
  }

  function BitOf(b: nat): (r: nat)
    ensures r < 8
  {
    (b % BPB) % 8
  }

  lemma BitPlaces(b: nat, c: nat)
    ensures BitBlockOf(b) == BitBlockOf(c) && ByteOf(b) == ByteOf(c) && BitOf(b) == BitOf(c) ==> b == c
  {
  }

  lemma BitInRange(n: nat, size: nat, b: nat)
    requires size <= n * BPB && b < size
    ensures BitBlockOf(b) < n
  {
  }

  /** (data[bi/8] & m) != 0 in the bitmap block BBLOCK(b). */
  predicate BitSet(bits: seq<BitBlock>, b: nat)
    requires BitBlockOf(b) < |bits|
  {
    TestMask(bits[BitBlockOf(b)][ByteOf(b)], BitOf(b))
  }

  function MarkBit(bits: seq<BitBlock>, b: nat): (r: seq<BitBlock>)
    requires BitBlockOf(b) < |bits|
    ensures |r| == |bits|
  {
    var blk := bits[BitBlockOf(b)];
    bits[BitBlockOf(b) := blk[ByteOf(b) := OrMask(blk[ByteOf(b)], BitOf(b))]]
  }

  function ClearBit(bits: seq<BitBlock>, b: nat): (r: seq<BitBlock>)
    requires BitBlockOf(b) < |bits|
    ensures |r| == |bits|
  {
    var blk := bits[BitBlockOf(b)];
    bits[BitBlockOf(b) := blk[ByteOf(b) := AndNotMask(blk[ByteOf(b)], BitOf(b))]]
  }

  /** Marking or clearing one block's bit leaves every other block's bit alone. */
  lemma OneBit(bits: seq<BitBlock>, b: nat, c: nat)
    requires BitBlockOf(b) < |bits| && BitBlockOf(c) < |bits|
    ensures BitSet(MarkBit(bits, b), c) <==> c == b || BitSet(bits, c)
    ensures BitSet(ClearBit(bits, b), c) <==> c != b && BitSet(bits, c)
  {
    hide BitBlockOf, ByteOf, BitOf, TestMask, OrMask, AndNotMask;
    BitPlaces(b, c);
    OrAlgebra(bits[BitBlockOf(c)][ByteOf(c)], BitOf(b), BitOf(c));
    AndNotAlgebra(bits[BitBlockOf(c)][ByteOf(c)], BitOf(b), BitOf(c));
  }

  /** The blocks in use, as a set. */
  ghost function UsedSet(bits: seq<BitBlock>, size: nat): set<nat>
    requires Covers(bits, size)
  {
    set b: nat | b < size && BitBlockOf(b) < |bits| && BitSet(bits, b)
  }

  lemma OneUsed(bits: seq<BitBlock>, size: nat, b: nat)
    requires Covers(bits, size) && b < size && BitBlockOf(b) < |bits|
    ensures UsedSet(MarkBit(bits, b), size) == UsedSet(bits, size) + {b}
    ensures UsedSet(ClearBit(bits, b), size) == UsedSet(bits, size) - {b}
  {
    hide BitSet, MarkBit, ClearBit, BitBlockOf;
    forall c: nat | c < size && BitBlockOf(c) < |bits|
      ensures BitSet(MarkBit(bits, b), c) <==> c == b || BitSet(bits, c)
      ensures BitSet(ClearBit(bits, b), c) <==> c != b && BitSet(bits, c)
    {
      OneBit(bits, b, c);
    }
  }

  /** How many blocks are free. */
  ghost function FreeCount(bits: seq<BitBlock>, size: nat): int
    requires Covers(bits, size)
  {
    size - |UsedSet(bits, size)|
  }

  ghost function Below(n: nat): (r: set<nat>)
    ensures |r| == n && forall b: nat :: b in r <==> b < n
  {
    if n == 0 then {} else Below(n - 1) + {n - 1}
  }

  /** No block is free exactly if the count is 0. */
  lemma NoneFree(bits: seq<BitBlock>, size: nat)
    requires Covers(bits, size)
    ensures FreeCount(bits, size) >= 0
    ensures FreeCount(bits, size) == 0 <==> forall b: nat :: b < size ==> b in UsedSet(bits, size)
  {
    hide BitSet, BitBlockOf;
    var used := UsedSet(bits, size);
    assert used <= Below(size);
    SubsetCard(used, Below(size));
  }

  /** A block that was free is used up. */
  lemma OneLess(bits: seq<BitBlock>, bits': seq<BitBlock>, size: nat, b: nat)
    requires Covers(bits, size) && Covers(bits', size) && b !in UsedSet(bits, size)
    requires UsedSet(bits', size) == UsedSet(bits, size) + {b}
    ensures FreeCount(bits', size) == FreeCount(bits, size) - 1
  {
    hide UsedSet;
  }

  // ---- Words in a block ----

  /** ((uint*)data)[j], little-endian. */
  function Word(b: Block, j: nat): nat
    requires j < NINDIRECT
  {
    b[4 * j] as nat + b[4 * j + 1] as nat * 0x100 + b[4 * j + 2] as nat * 0x1_0000 + b[4 * j + 3] as nat * 0x100_0000
  }

  function SetWord(b: Block, j: nat, v: nat): Block
    requires j < NINDIRECT && v < UINT
  {
    b[4 * j := v % 0x100][4 * j + 1 := (v / 0x100) % 0x100][4 * j + 2 := (v / 0x1_0000) % 0x100][4 * j + 3 := v / 0x100_0000]
  }

  lemma Recompose(v: nat)
    requires v < UINT
    ensures v % 0x100 + (v / 0x100) % 0x100 * 0x100 + (v / 0x1_0000) % 0x100 * 0x1_0000 + v / 0x100_0000 * 0x100_0000 == v
    ensures v / 0x100_0000 < 0x100
  {
    var a := v / 0x100;
    var b := a / 0x100;
    var c := b / 0x100;
    assert v == 0x100 * a + v % 0x100 && a == 0x100 * b + a % 0x100 && b == 0x100 * c + b % 0x100;
    DivDiv(v, 0x100);
    DivDiv(v, 0x1_0000);
  }

  lemma DivDiv(v: nat, n: nat)
    requires n == 0x100 || n == 0x1_0000
    ensures v / (n * 0x100) == v / n / 0x100
  {
  }

  /** SetWord stores the four bytes of its word and no other. */
  lemma SetWordBytes(b: Block, j: nat, v: nat, k: nat)
    requires j < NINDIRECT && v < UINT && k < BSIZE
    ensures SetWord(b, j, v)[k] as nat ==
      if k == 4 * j then v % 0x100 else if k == 4 * j + 1 then (v / 0x100) % 0x100
      else if k == 4 * j + 2 then (v / 0x1_0000) % 0x100 else if k == 4 * j + 3 then v / 0x100_0000 else b[k] as nat
  {
  }

  lemma WordOfSet(b: Block, j: nat, k: nat, v: nat)
    requires j < NINDIRECT && k < NINDIRECT && v < UINT
    ensures Word(SetWord(b, j, v), k) == if j == k then v else Word(b, k)
  {
    hide SetWord;
    Recompose(v);
    SetWordBytes(b, j, v, 4 * k);
    SetWordBytes(b, j, v, 4 * k + 1);
    SetWordBytes(b, j, v, 4 * k + 2);
    SetWordBytes(b, j, v, 4 * k + 3);
  }

  function ZeroBlock(): (b: Block)
    ensures forall k :: 0 <= k < BSIZE ==> b[k] == 0
  {
    seq(BSIZE, _ => 0)
  }

  lemma ZeroWord(k: nat)
    requires k < NINDIRECT
    ensures Word(ZeroBlock(), k) == 0
  {
  }
}
