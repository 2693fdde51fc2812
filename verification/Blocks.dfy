/**
 * Disk blocks as the kernel sees them: BSIZE bytes that the log reads as an array of
 * little-endian words, the inode layer as words and the block allocator as bits.
 */
module Blocks {
  import opened Common

  const BSIZE: nat := 512
  const WORDS: nat := 128           // BSIZE / sizeof(uint)
  const BPB: nat := 4096            // bitmap bits per block

  type Block = b: seq<byte> | |b| == 512 witness seq(512, i => 0)

  type Disk = seq<Block>

  function ZeroBlock(): Block { seq(512, i => 0) }

  type half = x: int | 0 <= x < 0x1_0000

  /** The two, and the four, bytes from place at on, the least significant first. */
  function ShortAt(b: Block, at: nat): half
    requires at + 2 <= BSIZE
  {
    b[at] as int + 0x100 * b[at + 1] as int
  }

  function LongAt(b: Block, at: nat): word
    requires at + 4 <= BSIZE
  {
    b[at] as int + 0x100 * b[at + 1] as int + 0x1_0000 * b[at + 2] as int + 0x100_0000 * b[at + 3] as int
  }

  function GetWord(b: Block, i: nat): word
    requires i < WORDS
  {
    var b0: int, b1: int, b2: int, b3: int := b[4 * i], b[4 * i + 1], b[4 * i + 2], b[4 * i + 3];
    b0 + 0x100 * b1 + 0x1_0000 * b2 + 0x100_0000 * b3
  }

  lemma WordBytes(w: word)
    ensures w == w % 0x100 + 0x100 * (w / 0x100 % 0x100) + 0x1_0000 * (w / 0x1_0000 % 0x100) +
      0x100_0000 * (w / 0x100_0000)
    ensures w / 0x100_0000 < 0x100
  {
  }

  /** Stores w as the i-th word: that word reads back as w and every other word is kept. */
  function SetWord(b: Block, i: nat, w: word): (r: Block)
    requires i < WORDS
    ensures GetWord(r, i) == w
    ensures forall j: nat | j < WORDS && j != i :: GetWord(r, j) == GetWord(b, j)
  {
    WordBytes(w);
    b[4 * i := w % 0x100][4 * i + 1 := w / 0x100 % 0x100]
     [4 * i + 2 := w / 0x1_0000 % 0x100][4 * i + 3 := w / 0x100_0000]
  }

  function Pow2(k: nat): (p: nat)
  {
    if k == 0 then 1 else 2 * Pow2(k - 1)
  }

  /** Bit k of x, counting from the least significant one. */
  predicate BitOf(x: nat, k: nat)
  {
    if k == 0 then x % 2 == 1 else BitOf(x / 2, k - 1)
  }

  /** The bit is the lowest of those that shifting right by k, which drops r, leaves. */
  lemma {:induction false} BitShifted(x: nat, k: nat, m: nat, r: nat)
    requires r < Pow2(k) && x == Pow2(k) * m + r
    ensures BitOf(x, k) <==> m % 2 == 1
  {
    if k > 0 {
      var z := Pow2(k - 1) * m;
      assert Pow2(k) * m == 2 * z;
      BitShifted(x / 2, k - 1, m, r / 2);
    }
  }

  /** Adding the mask of a clear bit, or subtracting that of a set bit, leaves all the other bits alone. */
  lemma {:induction false} FlipMask(x: nat, k: nat, j: nat)
    ensures !BitOf(x, k) ==> (BitOf(x + Pow2(k), j) <==> j == k || BitOf(x, j))
    ensures BitOf(x, k) ==> Pow2(k) <= x && (BitOf(x - Pow2(k), j) <==> j != k && BitOf(x, j))
  {
    if k > 0 {
      FlipMask(x / 2, k - 1, if j == 0 then 0 else j - 1);
      assert (x + 2 * Pow2(k - 1)) / 2 == x / 2 + Pow2(k - 1);
      assert (x - 2 * Pow2(k - 1)) / 2 == x / 2 - Pow2(k - 1);
    }
  }

  /** Setting a clear bit below position n keeps the value below 2^n. */
  lemma {:induction false} MaskFits(x: nat, k: nat, n: nat)
    requires k < n && x < Pow2(n) && !BitOf(x, k)
    ensures x + Pow2(k) < Pow2(n)
  {
    if k > 0 { MaskFits(x / 2, k - 1, n - 1); }
  }

  /** Is bit bi of a bitmap block set?  (data[bi/8] & (1 << bi%8)) != 0 */
  predicate GetBit(b: Block, bi: nat)
    requires bi < BPB
  {
    BitOf(b[bi / 8], bi % 8)
  }

  /** The byte with bit k inverted: data[bi/8] |= m when the bit was clear, data[bi/8] &= ~m when it was set. */
  function FlipByte(x: byte, k: nat): byte
    requires k < 8
  {
    if BitOf(x, k) then (if Pow2(k) <= x then x - Pow2(k) else 0)
    else (if x + Pow2(k) < 256 then x + Pow2(k) else 0)
  }

  function FlipBit(b: Block, bi: nat): (r: Block)
    requires bi < BPB
  {
    b[bi / 8 := FlipByte(b[bi / 8], bi % 8)]
  }

  lemma FlipByteOk(x: byte, k: nat, j: nat)
    requires k < 8 && j < 8
    ensures BitOf(FlipByte(x, k), j) <==> if j == k then !BitOf(x, k) else BitOf(x, j)
  {
    assert Pow2(8) == 256 by { assert Pow2(4) == 16; }
    if !BitOf(x, k) { MaskFits(x, k, 8); }
    FlipMask(x, k, k);
    FlipMask(x, k, j);
  }

  /** Inverting one bit of a bitmap block changes that bit and no other. */
  lemma FlipBitOk(b: Block, bi: nat, c: nat)
    requires bi < BPB && c < BPB
    ensures GetBit(FlipBit(b, bi), c) <==> if c == bi then !GetBit(b, bi) else GetBit(b, c)
  {
    FlipByteOk(b[bi / 8], bi % 8, c % 8);
  }
}
