/**
  Disk blocks as byte sequences, and the little-endian 32-bit words stored in them
  (kernel/fs.h, kernel/param.h). The log header, indirect blocks and on-disk inodes
  are all arrays of such words laid over a block.
 */
module Blocks {
  const BSIZE: nat := 1024
  const WORDS: nat := 256          // BSIZE / sizeof(uint)
  const ROOTDEV: nat := 1
  const MAXOPBLOCKS: nat := 10
  const LOGSIZE: nat := 30         // MAXOPBLOCKS * 3
  const NBUF: nat := 30            // MAXOPBLOCKS * 3

  type byte = x: int | 0 <= x < 0x100
  type uint32 = x: int | 0 <= x < 0x1_0000_0000
  type Block = b: seq<byte> | |b| == 1024 witness seq(1024, _ => 0)

  /** A whole disk: the contents of block k is image[k]. */
  type Image = seq<Block>

  function ZeroBlock(): Block { seq(1024, _ => 0) }

  function WordOf(b0: byte, b1: byte, b2: byte, b3: byte): uint32 {
    b0 + 0x100 * (b1 + 0x100 * (b2 + 0x100 * b3))
  }

  function GetWord(b: Block, i: nat): uint32
    requires i < WORDS
  {
    WordOf(b[4 * i], b[4 * i + 1], b[4 * i + 2], b[4 * i + 3])
  }

  function PutWord(b: Block, i: nat, w: uint32): (r: Block)
    requires i < WORDS
    ensures forall k :: 0 <= k < BSIZE && k / 4 != i ==> r[k] == b[k]
  {
    b[4 * i := w % 0x100][4 * i + 1 := w / 0x100 % 0x100]
      [4 * i + 2 := w / 0x1_0000 % 0x100][4 * i + 3 := w / 0x100_0000]
  }

  lemma WordReassembles(w: uint32)
    ensures WordOf(w % 0x100, w / 0x100 % 0x100, w / 0x1_0000 % 0x100, w / 0x100_0000) == w
  {
    assert w / 0x100 == w / 0x100 % 0x100 + 0x100 * (w / 0x1_0000);
    assert w / 0x1_0000 == w / 0x1_0000 % 0x100 + 0x100 * (w / 0x100_0000);
  }

  /** A stored word is read back, and no other word of the block changes. */
  lemma PutGetWord(b: Block, i: nat, w: uint32, j: nat)
    requires i < WORDS && j < WORDS
    ensures GetWord(PutWord(b, i, w), j) == if i == j then w else GetWord(b, j)
  {
    if i == j {
      WordReassembles(w);
    } else {
      assert 4 * j / 4 == j && (4 * j + 1) / 4 == j && (4 * j + 2) / 4 == j && (4 * j + 3) / 4 == j;
    }
  }

  lemma WordBytesUnique(b0: byte, b1: byte, b2: byte, b3: byte)
    ensures var w := WordOf(b0, b1, b2, b3);
            w % 0x100 == b0 && w / 0x100 % 0x100 == b1 && w / 0x1_0000 % 0x100 == b2 && w / 0x100_0000 == b3
  {
    var w := WordOf(b0, b1, b2, b3);
    var x := b1 + 0x100 * b2 + 0x1_0000 * b3;
    var y := b2 + 0x100 * b3;
    assert w == b0 + 0x100 * x;
    assert w / 0x100 == x && w / 0x1_0000 == y && w / 0x100_0000 == b3;
  }

  /** Storing the word that is already there leaves the block as it was. */
  lemma PutSameWord(b: Block, i: nat)
    requires i < WORDS
    ensures PutWord(b, i, GetWord(b, i)) == b
  {
    WordBytesUnique(b[4 * i], b[4 * i + 1], b[4 * i + 2], b[4 * i + 3]);
  }

  lemma ZeroWords(i: nat)
    requires i < WORDS
    ensures GetWord(ZeroBlock(), i) == 0
  {
  }
}
