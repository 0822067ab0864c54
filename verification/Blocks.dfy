/** Disk blocks as byte strings, and the 32-bit little-endian words that the kernel
    overlays on them when it casts a block to a struct or to an array of uint. */
module Blocks {

  const BSIZE := 1024
  const WORDS := 256 // BSIZE / sizeof(uint)

  type Byte = b: int | 0 <= b < 256
  type Word = w: int | 0 <= w < 0x1_0000_0000
  type Block = b: seq<Byte> | |b| == BSIZE witness seq(BSIZE, i => 0)

  function ZeroBlock(): Block { seq(BSIZE, i => 0) }

  /** Word i of the block, read as the RISC-V would: least significant byte first. */
  function GetWord(b: Block, i: nat): Word
    requires i < WORDS
  {
    var b0: int, b1: int, b2: int, b3: int := b[4 * i], b[4 * i + 1], b[4 * i + 2], b[4 * i + 3];
    b0 + 0x100 * b1 + 0x1_0000 * b2 + 0x100_0000 * b3
  }

  function SetWord(b: Block, i: nat, w: Word): Block
    requires i < WORDS
  {
    b[4 * i := w % 0x100]
     [4 * i + 1 := w / 0x100 % 0x100]
     [4 * i + 2 := w / 0x1_0000 % 0x100]
     [4 * i + 3 := w / 0x100_0000 % 0x100]
  }

  lemma SplitWord(w: Word)
    ensures w == w % 0x100 + 0x100 * (w / 0x100 % 0x100) + 0x1_0000 * (w / 0x1_0000 % 0x100)
                 + 0x100_0000 * (w / 0x100_0000 % 0x100)
  {
    var x := w / 0x100;
    var y := x / 0x100;
    assert w / 0x1_0000 == y;
    assert w / 0x100_0000 == y / 0x100;
    assert y / 0x100 < 0x100;
  }

  /** A word write is read back exactly and disturbs no other word. */
  lemma GetSetWord(b: Block, i: nat, w: Word, j: nat)
    requires i < WORDS && j < WORDS
    ensures GetWord(SetWord(b, i, w), j) == if i == j then w else GetWord(b, j)
  {
    SplitWord(w);
    if i < j {
      assert 4 * i + 3 < 4 * j;
    } else if j < i {
      assert 4 * j + 3 < 4 * i;
    }
  }

  /** 256 to the power of k. */
  function Scale(k: nat): (n: nat)
    ensures n > 0
  {
    if k == 0 then 1 else 0x100 * Scale(k - 1)
  }

  lemma Scales()
    ensures Scale(0) == 1 && Scale(1) == 0x100 && Scale(2) == 0x1_0000 && Scale(3) == 0x100_0000
  {
    assert Scale(1) == 0x100 * Scale(0) && Scale(2) == 0x100 * Scale(1) && Scale(3) == 0x100 * Scale(2);
  }

  lemma Carry(x: nat, b: Byte)
    ensures (b + 0x100 * x) % 0x100 == b && (b + 0x100 * x) / 0x100 == x
  {
  }

  lemma Digits(b0: Byte, b1: Byte, b2: Byte, b3: Byte)
    ensures var w := b0 + 0x100 * b1 + 0x1_0000 * b2 + 0x100_0000 * b3;
            && w % 0x100 == b0 && w / 0x100 % 0x100 == b1 && w / 0x1_0000 % 0x100 == b2
            && w / 0x100_0000 % 0x100 == b3
  {
    var y := b2 + 0x100 * b3;
    var x := b1 + 0x100 * y;
    var w := b0 + 0x100 * x;
    Carry(x, b0);
    Carry(y, b1);
    Carry(b3, b2);
    assert w / 0x1_0000 == w / 0x100 / 0x100 && w / 0x100_0000 == w / 0x100 / 0x100 / 0x100;
  }

  /** Byte k of word i holds bits 8 * k to 8 * k + 7 of it. */
  lemma LittleEndian(b: Block, i: nat, k: nat)
    requires i < WORDS && k < 4
    ensures b[4 * i + k] == GetWord(b, i) / Scale(k) % 0x100
  {
    Scales();
    hide Scale;
    Digits(b[4 * i], b[4 * i + 1], b[4 * i + 2], b[4 * i + 3]);
  }

  /** A word write stores these bytes and touches no other. */
  lemma WordStored(b: Block, i: nat, w: Word, j: nat)
    requires i < WORDS && j < BSIZE
    ensures SetWord(b, i, w)[j] == if 4 * i <= j < 4 * i + 4 then w / Scale(j - 4 * i) % 0x100 else b[j]
  {
    if 4 * i <= j < 4 * i + 4 {
      GetSetWord(b, i, w, i);
      LittleEndian(SetWord(b, i, w), i, j - 4 * i);
    }
    hide GetWord;
    hide Scale;
  }

  /** The words of an all-zero block are zero: a fresh indirect block has no entries. */
  lemma ZeroBlockWords(i: nat)
    requires i < WORDS
    ensures GetWord(ZeroBlock(), i) == 0
  {
    assert 4 * i + 3 < BSIZE;
  }
}
