/**
  On-disk inodes and the free bitmap as bytes of blocks (kernel/fs.h), and the block map of a file.
 */
module Inodes {
  import opened Blocks

  const NDIRECT: nat := 12
  const NINDIRECT: nat := 256
  const MAXFILE: nat := 268         // NDIRECT + NINDIRECT
  const IPB: nat := 16              // BSIZE / sizeof(struct dinode)
  const BPB: nat := 8192            // BSIZE * 8
  const INDIRECT: nat := 12         // the slot of the indirect block itself
  const SLOTS: nat := 269           // 12 direct, the indirect block, 256 entries in it

  type uint16 = x: int | 0 <= x < 0x1_0000
  type Addrs = a: seq<uint32> | |a| == 13 witness seq(13, _ => 0)

  datatype Dinode = Dinode(typ: uint16, major: uint16, minor: uint16, nlink: uint16, size: uint32, addrs: Addrs)

  // ---------- dinodes in a block: sixteen words each ----------

  function PutWords(b: Block, base: nat, ws: seq<uint32>): Block
    requires base + |ws| <= WORDS
    decreases |ws|
  {
    if |ws| == 0 then b else PutWord(PutWords(b, base, ws[..|ws| - 1]), base + |ws| - 1, ws[|ws| - 1])
  }

  lemma {:induction false} PutWordsAt(b: Block, base: nat, ws: seq<uint32>, j: nat)
    requires base + |ws| <= WORDS && j < WORDS
    ensures GetWord(PutWords(b, base, ws), j) == if base <= j < base + |ws| then ws[j - base] else GetWord(b, j)
    decreases |ws|
  {
    hide PutWord, GetWord;
    if |ws| > 0 {
      PutWordsAt(b, base, ws[..|ws| - 1], j);
      PutGetWord(PutWords(b, base, ws[..|ws| - 1]), base + |ws| - 1, ws[|ws| - 1], j);
    }
  }

  function DinodeWords(di: Dinode): (r: seq<uint32>)
    ensures |r| == 16
  {
    [di.typ + 0x1_0000 * di.major, di.minor + 0x1_0000 * di.nlink, di.size] + di.addrs
  }

  function PutDinode(b: Block, slot: nat, di: Dinode): Block
    requires slot < IPB
  {
    PutWords(b, 16 * slot, DinodeWords(di))
  }

  function GetAddrs(b: Block, slot: nat): Addrs
    requires slot < IPB
  {
    var w := 16 * slot + 3;
    [GetWord(b, w), GetWord(b, w + 1), GetWord(b, w + 2), GetWord(b, w + 3), GetWord(b, w + 4), GetWord(b, w + 5),
     GetWord(b, w + 6), GetWord(b, w + 7), GetWord(b, w + 8), GetWord(b, w + 9), GetWord(b, w + 10), GetWord(b, w + 11),
     GetWord(b, w + 12)]
  }

  function GetDinode(b: Block, slot: nat): Dinode
    requires slot < IPB
  {
    var w0, w1 := GetWord(b, 16 * slot), GetWord(b, 16 * slot + 1);
    Dinode(w0 % 0x1_0000, w0 / 0x1_0000, w1 % 0x1_0000, w1 / 0x1_0000, GetWord(b, 16 * slot + 2), GetAddrs(b, slot))
  }

  lemma WordAfterPut(b: Block, slot: nat, di: Dinode, other: nat, j: nat)
    requires slot < IPB && other < IPB && j < 16
    ensures GetWord(PutDinode(b, slot, di), 16 * other + j) ==
              if slot == other then DinodeWords(di)[j] else GetWord(b, 16 * other + j)
  {
    PutWordsAt(b, 16 * slot, DinodeWords(di), 16 * other + j);
  }

  /** iupdate then ilock give back the same inode, and the other inodes of the block are untouched. */
  lemma DinodeRoundTrip(b: Block, slot: nat, di: Dinode, other: nat)
    requires slot < IPB && other < IPB
    ensures GetDinode(PutDinode(b, slot, di), other) == if slot == other then di else GetDinode(b, other)
  {
    hide GetWord, PutDinode;
    var r := PutDinode(b, slot, di);
    WordAfterPut(b, slot, di, other, 0);
    WordAfterPut(b, slot, di, other, 1);
    WordAfterPut(b, slot, di, other, 2);
    var addrs := if slot == other then di.addrs else GetAddrs(b, other);
    forall j | 0 <= j < 13 ensures GetAddrs(r, other)[j] == addrs[j] {
      WordAfterPut(b, slot, di, other, 3 + j);
    }
    assert GetAddrs(r, other) == addrs;
  }

  /** Where the fields of an on-disk inode are among the 64 bytes of its slot, each little-endian. */
  lemma DinodeLayout(b: Block, slot: nat, j: nat)
    requires slot < IPB && j < 13
    ensures var di, at, y: seq<int> := GetDinode(b, slot), 64 * slot, b;
            && at + 64 <= BSIZE
            && di.typ == y[at] + 0x100 * y[at + 1] && di.major == y[at + 2] + 0x100 * y[at + 3]
            && di.minor == y[at + 4] + 0x100 * y[at + 5] && di.nlink == y[at + 6] + 0x100 * y[at + 7]
            && di.size == y[at + 8] + 0x100 * y[at + 9] + 0x1_0000 * y[at + 10] + 0x100_0000 * y[at + 11]
            && var e := at + 12 + 4 * j;
               di.addrs[j] == y[e] + 0x100 * y[e + 1] + 0x1_0000 * y[e + 2] + 0x100_0000 * y[e + 3]
  {
    hide WordOf, GetAddrs;
    var at := 64 * slot;
    Halves(b[at], b[at + 1], b[at + 2], b[at + 3]);
    Halves(b[at + 4], b[at + 5], b[at + 6], b[at + 7]);
    WordValue(b[at + 8], b[at + 9], b[at + 10], b[at + 11]);
    AddrBytes(b, slot, j);
  }

  lemma AddrBytes(b: Block, slot: nat, j: nat)
    requires slot < IPB && j < 13
    ensures var e, y: seq<int> := 64 * slot + 12 + 4 * j, b;
            e + 4 <= BSIZE
            && GetAddrs(b, slot)[j] == y[e] + 0x100 * y[e + 1] + 0x1_0000 * y[e + 2] + 0x100_0000 * y[e + 3]
  {
    hide WordOf, GetWord;
    assert GetAddrs(b, slot)[j] == GetWord(b, 16 * slot + 3 + j);
    WordBytes(b, 16 * slot + 3 + j);
  }

  lemma WordBytes(b: Block, i: nat)
    requires i < WORDS
    ensures var y: seq<int> := b;
            GetWord(b, i) == y[4 * i] + 0x100 * y[4 * i + 1] + 0x1_0000 * y[4 * i + 2] + 0x100_0000 * y[4 * i + 3]
  {
  }

  lemma WordValue(b0: int, b1: int, b2: int, b3: int)
    requires 0 <= b0 < 0x100 && 0 <= b1 < 0x100 && 0 <= b2 < 0x100 && 0 <= b3 < 0x100
    ensures WordOf(b0, b1, b2, b3) == b0 + 0x100 * b1 + 0x1_0000 * b2 + 0x100_0000 * b3
  {
  }

  lemma Halves(b0: int, b1: int, b2: int, b3: int)
    requires 0 <= b0 < 0x100 && 0 <= b1 < 0x100 && 0 <= b2 < 0x100 && 0 <= b3 < 0x100
    ensures WordOf(b0, b1, b2, b3) % 0x1_0000 == b0 + 0x100 * b1
    ensures WordOf(b0, b1, b2, b3) / 0x1_0000 == b2 + 0x100 * b3
  {
    var lo, hi := b0 + 0x100 * b1, b2 + 0x100 * b3;
    assert WordOf(b0, b1, b2, b3) == lo + 0x1_0000 * hi;
  }

  // ---------- bits of the free map ----------

  function Mask(k: nat): bv8
    requires k < 8
  {
    1 << k
  }

  predicate Bit(x: byte, k: nat)
    requires k < 8
  {
    (x as bv8) & Mask(k) != 0
  }

  function SetBit(x: byte, k: nat): byte
    requires k < 8
  {
    ((x as bv8) | Mask(k)) as byte
  }

  function ClearBit(x: byte, k: nat): byte
    requires k < 8
  {
    ((x as bv8) & !Mask(k)) as byte
  }

  lemma MasksDiffer(k: nat, j: nat)
    requires k < 8 && j < 8
    ensures Mask(k) != 0 && (k != j ==> Mask(k) & Mask(j) == 0)
  {
  }

  lemma OrMasked(x: bv8, m: bv8, n: bv8)
    ensures m & n == 0 ==> (x | m) & n == x & n
    ensures m != 0 ==> (x | m) & m != 0
  {
  }

  lemma AndNotMasked(x: bv8, m: bv8, n: bv8)
    ensures m & n == 0 ==> (x & !m) & n == x & n
    ensures (x & !m) & m == 0
  {
  }

  lemma ByteBack(y: bv8)
    ensures (y as byte) as bv8 == y
  {
  }

  lemma SetMasked(x: byte, k: nat)
    requires k < 8
    ensures SetBit(x, k) as bv8 == (x as bv8) | Mask(k)
  {
    hide Mask;
    ByteBack((x as bv8) | Mask(k));
  }

  lemma ClearMasked(x: byte, k: nat)
    requires k < 8
    ensures ClearBit(x, k) as bv8 == (x as bv8) & !Mask(k)
  {
    hide Mask;
    ByteBack((x as bv8) & !Mask(k));
  }

  /** Setting one bit of a byte leaves the other seven. */
  lemma BitsAfterSet(x: byte, k: nat, j: nat)
    requires k < 8 && j < 8
    ensures Bit(SetBit(x, k), j) == (j == k || Bit(x, j))
  {
    hide Mask, SetBit;
    MasksDiffer(k, j);
    SetMasked(x, k);
    OrMasked(x as bv8, Mask(k), Mask(j));
  }

  lemma BitsAfterClear(x: byte, k: nat, j: nat)
    requires k < 8 && j < 8
    ensures Bit(ClearBit(x, k), j) == (j != k && Bit(x, j))
  {
    hide Mask, ClearBit;
    MasksDiffer(k, j);
    ClearMasked(x, k);
    AndNotMasked(x as bv8, Mask(k), Mask(j));
  }
}
