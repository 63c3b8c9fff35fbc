/**
  Which blocks belong to which inode (kernel/fs.c): the free bitmap and the block maps of all inodes
  describe the same partition of the data blocks, and each change fs.c makes to one of them keeps that.
 */
module Ownership {
  import opened Blocks
  import opened Inodes

  /** The superblock's layout; blocks from datastart on hold file contents. */
  datatype Super = Super(size: nat, ninodes: nat, inodestart: nat, bmapstart: nat, datastart: nat)

  ghost predicate WfSuper(sb: Super) {
    && sb.size < 0x8000_0000 && 0 < sb.ninodes
    && 1 < sb.inodestart && sb.inodestart + sb.ninodes / IPB < sb.bmapstart
    && sb.bmapstart + sb.size / BPB < sb.datastart < sb.size
  }

  function IBlock(sb: Super, i: nat): nat { i / IPB + sb.inodestart }

  function BBlock(sb: Super, b: nat): nat { b / BPB + sb.bmapstart }

  predicate Allocated(sb: Super, d: Image, b: nat)
    requires b < |d| && BBlock(sb, b) < |d|
  {
    Bit(d[BBlock(sb, b)][b % BPB / 8], b % BPB % 8)
  }

  /** The block an inode has in a slot: slots 0 to 11 direct, 12 the indirect block, then its 256 entries; 0 if none. */
  function SlotAddr(d: Image, di: Dinode, s: nat): nat
    requires s < SLOTS
  {
    if s <= INDIRECT then di.addrs[s]
    else if di.addrs[INDIRECT] == 0 || di.addrs[INDIRECT] >= |d| then 0
    else GetWord(d[di.addrs[INDIRECT]], s - INDIRECT - 1)
  }

  /** The slot of block bn of a file. */
  function DataSlot(bn: nat): nat { if bn < NDIRECT then bn else bn + 1 }

  /** Block bn of a file; a block it does not have reads as zeros. */
  function View(d: Image, di: Dinode, bn: nat): Block
    requires bn < MAXFILE
  {
    var a := SlotAddr(d, di, DataSlot(bn));
    if a == 0 || a >= |d| then ZeroBlock() else d[a]
  }

  /** Every block of the file up to its size exists. */
  ghost predicate NoHoles(d: Image, di: Dinode) {
    di.size <= MAXFILE * BSIZE
    && forall bn :: 0 <= bn < MAXFILE && bn * BSIZE < di.size ==> SlotAddr(d, di, DataSlot(bn)) != 0
  }

  type Owner = map<nat, (nat, nat)>   // block to (inode, slot)

  /** The file system: extra holds the blocks on their way between the free map and an inode. */
  datatype Fs = Fs(sb: Super, d: Image, inodes: seq<Dinode>, owner: Owner, extra: set<nat>)

  function Slot(f: Fs, i: nat, s: nat): nat
    requires i < |f.inodes| && s < SLOTS
  {
    SlotAddr(f.d, f.inodes[i], s)
  }

  ghost predicate Shape(f: Fs) {
    WfSuper(f.sb) && |f.d| == f.sb.size && |f.inodes| == f.sb.ninodes
  }

  /** Every block in a slot is owned from that slot only, and owners own what they are said to. */
  ghost predicate OwnedOnce(f: Fs)
    requires Shape(f)
  {
    && (forall i, s :: 0 <= i < |f.inodes| && 0 <= s < SLOTS && Slot(f, i, s) != 0 ==>
         Slot(f, i, s) in f.owner && f.owner[Slot(f, i, s)] == (i, s))
    && (forall b :: b in f.owner ==>
         f.sb.datastart <= b < f.sb.size && f.owner[b].0 < |f.inodes| && f.owner[b].1 < SLOTS
         && Slot(f, f.owner[b].0, f.owner[b].1) == b)
  }

  /** The bitmap marks metadata blocks, owned blocks, and blocks on their way from one to the other. */
  ghost predicate BitmapExact(f: Fs)
    requires Shape(f)
  {
    && (forall b ::
          0 <= b < f.sb.size ==> (Allocated(f.sb, f.d, b) <==> b < f.sb.datastart || b in f.owner || b in f.extra))
    && (forall b :: b in f.extra ==> f.sb.datastart <= b < f.sb.size && b !in f.owner)
  }

  ghost predicate FilesWhole(f: Fs) {
    forall i :: 0 <= i < |f.inodes| ==> NoHoles(f.d, f.inodes[i])
  }

  /** A free inode has no blocks. */
  ghost predicate FreeEmpty(f: Fs) {
    forall i :: 0 <= i < |f.inodes| && f.inodes[i].typ == 0 ==>
      f.inodes[i].size == 0 && forall s :: 0 <= s <= INDIRECT ==> f.inodes[i].addrs[s] == 0
  }

  ghost predicate Wf(f: Fs) {
    Shape(f) && OwnedOnce(f) && BitmapExact(f) && FilesWhole(f) && FreeEmpty(f)
  }

  /** In every well-formed state no block is reached twice, from one inode or from two. */
  lemma ReachedOnce(f: Fs, i: nat, s: nat, j: nat, t: nat)
    requires Wf(f) && i < |f.inodes| && j < |f.inodes| && s < SLOTS && t < SLOTS
    requires Slot(f, i, s) == Slot(f, j, t) != 0
    ensures i == j && s == t
  {
    hide Slot, BitmapExact, FilesWhole;
  }

  lemma FreeHasNothing(f: Fs, i: nat, s: nat)
    requires FreeEmpty(f) && i < |f.inodes| && f.inodes[i].typ == 0 && s < SLOTS
    ensures Slot(f, i, s) == 0
  {
    assert f.inodes[i].addrs[INDIRECT] == 0;
  }

  /** Between operations the allocated data blocks are exactly those some allocated inode reaches. */
  lemma AllocatedIsReached(f: Fs, b: nat)
    requires Wf(f) && f.extra == {} && f.sb.datastart <= b < f.sb.size
    ensures Allocated(f.sb, f.d, b) <==>
              exists i, s :: 0 <= i < |f.inodes| && 0 <= s < SLOTS && f.inodes[i].typ != 0 && Slot(f, i, s) == b
  {
    hide Allocated, FilesWhole;
    if b in f.owner {
      var i, s := f.owner[b].0, f.owner[b].1;
      assert Slot(f, i, s) == b;
      if f.inodes[i].typ == 0 { FreeHasNothing(f, i, s); }
    }
  }

  // ---------- the contents of a file ----------

  function ByteAt(d: Image, di: Dinode, k: nat): byte
    requires k < MAXFILE * BSIZE
  {
    View(d, di, k / BSIZE)[k % BSIZE]
  }

  ghost function Contents(d: Image, di: Dinode): (r: seq<byte>)
    requires di.size <= MAXFILE * BSIZE
    ensures |r| == di.size && forall k :: 0 <= k < di.size ==> r[k] == ByteAt(d, di, k)
  {
    seq<byte>(di.size, k requires 0 <= k < di.size => ByteAt(d, di, k))
  }

  /** The file of inode i reads the same in f and g. */
  ghost predicate SameView(f: Fs, g: Fs, i: nat)
    requires i < |f.inodes| && i < |g.inodes|
  {
    forall bn :: 0 <= bn < MAXFILE ==> View(g.d, g.inodes[i], bn) == View(f.d, f.inodes[i], bn)
  }

  /** All files are as they were, and so are the inodes apart from their block maps. */
  ghost predicate SameFiles(f: Fs, g: Fs)
  {
    && g.sb == f.sb && |g.inodes| == |f.inodes|
    && (forall i :: 0 <= i < |f.inodes| ==> SameView(f, g, i))
    && (forall i :: 0 <= i < |f.inodes| ==> g.inodes[i].typ == f.inodes[i].typ && g.inodes[i].size == f.inodes[i].size)
  }

  /** Where byte k of a file is: in the block of one of the twelve addresses, or of an entry of the indirect block. */
  lemma ByteOnDisk(f: Fs, i: nat, k: nat)
    requires Wf(f) && i < |f.inodes| && k < f.inodes[i].size
    ensures f.inodes[i].size <= MAXFILE * BSIZE && k / BSIZE < MAXFILE
    ensures var di := f.inodes[i];
            if k / BSIZE < 12 then
              0 < di.addrs[k / BSIZE] < |f.d| && Contents(f.d, di)[k] == f.d[di.addrs[k / BSIZE]][k % BSIZE]
            else
              && 0 < di.addrs[12] < |f.d|
              && var a := GetWord(f.d[di.addrs[12]], k / BSIZE - 12);
                 0 < a < |f.d| && Contents(f.d, di)[k] == f.d[a][k % BSIZE]
  {
    hide GetWord, Contents, Allocated;
    assert NoHoles(f.d, f.inodes[i]);
    var bn := k / BSIZE;
    assert bn * BSIZE <= k;
    assert SlotAddr(f.d, f.inodes[i], DataSlot(bn)) == Slot(f, i, DataSlot(bn)) != 0;
    assert Contents(f.d, f.inodes[i])[k] == ByteAt(f.d, f.inodes[i], k);
  }

  /** Which bit of the disk stands for a block, counted from the least significant of its byte. */
  lemma BitOnDisk(sb: Super, d: Image, b: nat)
    requires b < |d| && sb.bmapstart + b / 8192 < |d|
    ensures Allocated(sb, d, b) <==> ((d[sb.bmapstart + b / 8192][b % 8192 / 8] as bv8) >> (b % 8)) & 1 == 1
  {
    assert b % BPB % 8 == b % 8;
    BitShifted(d[sb.bmapstart + b / 8192][b % 8192 / 8] as bv8, b % 8);
  }

  lemma BitShifted(x: bv8, k: nat)
    requires k < 8
    ensures x & (1 << k) != 0 <==> (x >> k) & 1 == 1
  {
  }

  // ---------- the same file system on another disk ----------

  /** The same file system read from another disk. */
  ghost function On(f: Fs, d: Image): Fs { Fs(f.sb, d, f.inodes, f.owner, f.extra) }

  /** The data blocks are the same. */
  ghost predicate SameDataBlocks(f: Fs, d: Image) {
    |d| == |f.d| && forall k :: f.sb.datastart <= k < |d| ==> d[k] == f.d[k]
  }

  lemma SlotFrom(f: Fs, d: Image, i: nat, s: nat)
    requires Shape(f) && OwnedOnce(f) && SameDataBlocks(f, d) && i < |f.inodes| && s < SLOTS
    ensures Slot(On(f, d), i, s) == Slot(f, i, s)
  {
    hide GetWord;
    assert Slot(f, i, INDIRECT) == f.inodes[i].addrs[INDIRECT];
  }

  lemma ViewFrom(f: Fs, d: Image, i: nat, bn: nat)
    requires Shape(f) && OwnedOnce(f) && SameDataBlocks(f, d) && i < |f.inodes| && bn < MAXFILE
    ensures View(d, f.inodes[i], bn) == View(f.d, f.inodes[i], bn)
  {
    hide SlotAddr;
    SlotFrom(f, d, i, DataSlot(bn));
    assert Slot(f, i, DataSlot(bn)) == SlotAddr(f.d, f.inodes[i], DataSlot(bn));
    assert Slot(On(f, d), i, DataSlot(bn)) == SlotAddr(d, f.inodes[i], DataSlot(bn));
  }

  /** A file is read from data blocks only. */
  lemma ContentsFrom(f: Fs, d: Image, i: nat)
    requires Wf(f) && SameDataBlocks(f, d) && i < |f.inodes|
    ensures f.inodes[i].size <= MAXFILE * BSIZE && Contents(d, f.inodes[i]) == Contents(f.d, f.inodes[i])
  {
    hide View, SlotAddr, OwnedOnce, BitmapExact, FreeEmpty;
    assert NoHoles(f.d, f.inodes[i]);
    var di := f.inodes[i];
    forall k | 0 <= k < di.size ensures ByteAt(d, di, k) == ByteAt(f.d, di, k) {
      ViewFrom(f, d, i, k / BSIZE);
    }
  }

  // ---------- slots and views under a change ----------

  ghost predicate SameSlots(f: Fs, g: Fs) {
    && g.sb == f.sb && g.owner == f.owner && |g.inodes| == |f.inodes| && |g.d| == |f.d|
    && (forall i, s :: 0 <= i < |f.inodes| && 0 <= s < SLOTS ==> Slot(g, i, s) == Slot(f, i, s))
  }

  lemma SlotsKept(f: Fs, g: Fs)
    requires Shape(f) && OwnedOnce(f) && SameSlots(f, g)
    ensures OwnedOnce(g)
  {
    hide Slot;
  }

  /** No slot that was filled is emptied. */
  ghost predicate SlotsGrow(f: Fs, g: Fs) {
    && |g.inodes| == |f.inodes|
    && (forall i, s :: 0 <= i < |f.inodes| && 0 <= s < SLOTS && Slot(f, i, s) != 0 ==> Slot(g, i, s) != 0)
    && (forall i :: 0 <= i < |f.inodes| ==> g.inodes[i].size == f.inodes[i].size)
  }

  lemma WholeKept(f: Fs, g: Fs)
    requires FilesWhole(f) && SlotsGrow(f, g)
    ensures FilesWhole(g)
  {
    hide SlotAddr;
    forall i | 0 <= i < |g.inodes| ensures NoHoles(g.d, g.inodes[i]) {
      assert NoHoles(f.d, f.inodes[i]);
      forall bn | 0 <= bn < MAXFILE && bn * BSIZE < g.inodes[i].size
        ensures SlotAddr(g.d, g.inodes[i], DataSlot(bn)) != 0
      {
        assert Slot(f, i, DataSlot(bn)) != 0;
        assert Slot(g, i, DataSlot(bn)) != 0;
      }
    }
  }

  function WithBlock(f: Fs, k: nat, data: Block): Fs
    requires k < |f.d|
  {
    Fs(f.sb, f.d[k := data], f.inodes, f.owner, f.extra)
  }

  /** Only the indirect block of an inode says what its slots hold. */
  lemma SlotAfterWrite(f: Fs, k: nat, data: Block, i: nat, s: nat)
    requires Shape(f) && OwnedOnce(f) && k < f.sb.size && i < |f.inodes| && s < SLOTS
    requires k in f.owner ==> f.owner[k].1 != INDIRECT
    ensures Slot(WithBlock(f, k, data), i, s) == Slot(f, i, s)
  {
    hide GetWord;
    assert Slot(f, i, INDIRECT) == f.inodes[i].addrs[INDIRECT];
  }

  /** Block bn of file i once block k of the disk has been overwritten. */
  function ViewAfter(f: Fs, k: nat, data: Block, i: nat, bn: nat): Block
    requires i < |f.inodes| && bn < MAXFILE
  {
    if k in f.owner && f.owner[k] == (i, DataSlot(bn)) then data else View(f.d, f.inodes[i], bn)
  }

  lemma ViewAfterWrite(f: Fs, k: nat, data: Block, i: nat, bn: nat)
    requires Shape(f) && OwnedOnce(f) && k < f.sb.size && i < |f.inodes| && bn < MAXFILE
    requires k in f.owner ==> f.owner[k].1 != INDIRECT
    ensures View(WithBlock(f, k, data).d, f.inodes[i], bn) == ViewAfter(f, k, data, i, bn)
  {
    hide SlotAddr;
    SlotAfterWrite(f, k, data, i, DataSlot(bn));
    assert SlotAddr(f.d, f.inodes[i], DataSlot(bn)) == Slot(f, i, DataSlot(bn));
    assert SlotAddr(f.d[k := data], f.inodes[i], DataSlot(bn)) == Slot(WithBlock(f, k, data), i, DataSlot(bn));
  }

  /** Writing a block that is not an indirect block changes what one file reads at one place, or nothing. */
  lemma BlockWritten(f: Fs, k: nat, data: Block)
    requires Shape(f) && OwnedOnce(f) && k < f.sb.size
    requires k in f.owner ==> f.owner[k].1 != INDIRECT
    ensures SameSlots(f, WithBlock(f, k, data)) && OwnedOnce(WithBlock(f, k, data))
            && SlotsGrow(f, WithBlock(f, k, data))
    ensures forall i, bn :: 0 <= i < |f.inodes| && 0 <= bn < MAXFILE ==>
              View(WithBlock(f, k, data).d, f.inodes[i], bn) == ViewAfter(f, k, data, i, bn)
  {
    hide SlotAddr, View, ViewAfter;
    var g := WithBlock(f, k, data);
    forall i, s | 0 <= i < |f.inodes| && 0 <= s < SLOTS ensures Slot(g, i, s) == Slot(f, i, s) {
      SlotAfterWrite(f, k, data, i, s);
    }
    SlotsKept(f, g);
    forall i, bn | 0 <= i < |f.inodes| && 0 <= bn < MAXFILE
      ensures View(g.d, f.inodes[i], bn) == ViewAfter(f, k, data, i, bn) {
      ViewAfterWrite(f, k, data, i, bn);
    }
  }

  // ---------- the bitmap ----------

  function PutBit(blk: Block, k: nat, on: bool): Block
    requires k < BPB
  {
    blk[k / 8 := if on then SetBit(blk[k / 8], k % 8) else ClearBit(blk[k / 8], k % 8)]
  }

  lemma BitPosition(x: nat, b: nat)
    requires x / BPB == b / BPB && x % BPB / 8 == b % BPB / 8 && x % BPB % 8 == b % BPB % 8
    ensures x == b
  {
    var u, v := x % BPB, b % BPB;
    assert u == 8 * (u / 8) + u % 8 && v == 8 * (v / 8) + v % 8;
    var q := x / BPB;
    assert x == BPB * q + u;
    assert b == BPB * q + v;
  }

  function WithBit(sb: Super, d: Image, b: nat, on: bool): Image
    requires BBlock(sb, b) < |d|
  {
    d[BBlock(sb, b) := PutBit(d[BBlock(sb, b)], b % BPB, on)]
  }

  lemma BlocksInRange(sb: Super, b: nat)
    requires WfSuper(sb) && b < sb.size
    ensures sb.bmapstart <= BBlock(sb, b) < sb.datastart
  {
  }

  /** Exactly one bit of the map changes. */
  lemma BitmapAfter(sb: Super, d: Image, b: nat, on: bool, x: nat)
    requires WfSuper(sb) && |d| == sb.size && b < sb.size && x < sb.size
    ensures BBlock(sb, b) < |d| && BBlock(sb, x) < |d|
    ensures Allocated(sb, WithBit(sb, d, b, on), x) == if x == b then on else Allocated(sb, d, x)
  {
    hide Bit, SetBit, ClearBit;
    var byte0 := d[BBlock(sb, b)][b % BPB / 8];
    BitsAfterSet(byte0, b % BPB % 8, x % BPB % 8);
    BitsAfterClear(byte0, b % BPB % 8, x % BPB % 8);
    if x != b && x / BPB == b / BPB && x % BPB / 8 == b % BPB / 8 && x % BPB % 8 == b % BPB % 8 { BitPosition(x, b); }
  }

  /** Writing outside the bitmap leaves it alone. */
  lemma BitmapElsewhere(sb: Super, d: Image, k: nat, data: Block, x: nat)
    requires WfSuper(sb) && |d| == sb.size && k < sb.size && (k < sb.bmapstart || k >= sb.datastart) && x < sb.size
    ensures BBlock(sb, x) < |d| && Allocated(sb, d[k := data], x) == Allocated(sb, d, x)
  {
    hide Bit;
  }

  /** Inodes live before the bitmap, so a write past them leaves them alone. */
  ghost predicate SyncedBut(f: Fs, i: nat)
    requires Shape(f)
  {
    forall j :: 0 <= j < |f.inodes| && j != i ==> OnDisk(f, j) == f.inodes[j]
  }

  function OnDisk(f: Fs, j: nat): Dinode
    requires IBlock(f.sb, j) < |f.d|
  {
    GetDinode(f.d[IBlock(f.sb, j)], j % IPB)
  }

  lemma InodesElsewhere(f: Fs, g: Fs, i: nat)
    requires Shape(f) && Shape(g) && SyncedBut(f, i) && g.sb == f.sb
    requires forall j :: 0 <= j < |f.inodes| && j != i ==> g.inodes[j] == f.inodes[j]
    requires forall k :: 0 <= k < f.sb.bmapstart ==> g.d[k] == f.d[k]
    ensures SyncedBut(g, i)
  {
    hide GetDinode;
  }
}
