/**
  The changes fs.c makes to the file system, one block write or one in-memory inode update at a time,
  and what each of them keeps.
 */
module FileChanges {
  import opened Blocks
  import opened Inodes
  import opened Ownership

  // ---------- balloc and bfree ----------

  function WithMark(f: Fs, b: nat, on: bool): Fs
    requires BBlock(f.sb, b) < |f.d|
  {
    WithBlock(f, BBlock(f.sb, b), PutBit(f.d[BBlock(f.sb, b)], b % BPB, on))
  }

  /** balloc marks the block and zeroes it; nobody has it yet. */
  function Taken(f: Fs, b: nat): Fs
    requires BBlock(f.sb, b) < |f.d| && b < |f.d|
  {
    Fs(f.sb, WithMark(f, b, true).d[b := ZeroBlock()], f.inodes, f.owner, f.extra + {b})
  }

  /** bfree clears the mark. */
  function Freed(f: Fs, b: nat): Fs
    requires BBlock(f.sb, b) < |f.d|
  {
    Fs(f.sb, WithMark(f, b, false).d, f.inodes, f.owner, f.extra - {b})
  }

  ghost predicate SameTree(f: Fs, g: Fs) {
    && SameSlots(f, g) && SameFiles(f, g) && g.inodes == f.inodes
  }

  lemma UnownedWritten(f: Fs, k: nat, data: Block)
    requires Shape(f) && OwnedOnce(f) && FilesWhole(f) && k < f.sb.size && k !in f.owner
    ensures SameTree(f, WithBlock(f, k, data)) && OwnedOnce(WithBlock(f, k, data)) && FilesWhole(WithBlock(f, k, data))
  {
    hide Slot, View;
    BlockWritten(f, k, data);
    var g := WithBlock(f, k, data);
    WholeKept(f, g);
    forall i | 0 <= i < |f.inodes| ensures SameView(f, g, i) {
      forall bn | 0 <= bn < MAXFILE ensures View(g.d, g.inodes[i], bn) == View(f.d, f.inodes[i], bn) {
        assert View(g.d, f.inodes[i], bn) == ViewAfter(f, k, data, i, bn);
      }
    }
  }

  lemma MarkOutsideFiles(f: Fs, b: nat)
    requires Wf(f) && b < f.sb.size
    ensures BBlock(f.sb, b) < f.sb.datastart && BBlock(f.sb, b) !in f.owner && f.sb.bmapstart <= BBlock(f.sb, b)
    ensures !Allocated(f.sb, f.d, b) ==> f.sb.datastart <= b && b !in f.owner && b !in f.extra
  {
    hide Slot, Allocated, FilesWhole;
    BlocksInRange(f.sb, b);
  }

  lemma TreeTwice(f: Fs, m: Fs, g: Fs)
    requires SameTree(f, m) && SameTree(m, g)
    ensures SameTree(f, g)
  {
    hide Slot, View;
    forall i | 0 <= i < |f.inodes| ensures SameView(f, g, i) {
      assert SameView(f, m, i) && SameView(m, g, i);
    }
  }

  lemma TreeForgetsExtra(f: Fs, m: Fs, g: Fs)
    requires SameTree(f, m) && g.d == m.d && g.inodes == m.inodes && g.owner == m.owner && g.sb == m.sb
    requires |m.d| == |f.d| && Shape(m) && OwnedOnce(m) && FilesWhole(m) && (FreeEmpty(f) || FreeEmpty(m))
    ensures SameTree(f, g) && Shape(g) && OwnedOnce(g) && FilesWhole(g) && FreeEmpty(g)
  {
    hide SlotAddr, View;
    forall i, s | 0 <= i < |f.inodes| && 0 <= s < SLOTS ensures Slot(g, i, s) == Slot(m, i, s) {}
    forall i | 0 <= i < |f.inodes| ensures SameView(f, g, i) { assert SameView(f, m, i); }
  }

  lemma TakenKeeps(f: Fs, b: nat)
    requires Wf(f) && b < f.sb.size && BBlock(f.sb, b) < f.sb.size && !Allocated(f.sb, f.d, b)
    ensures Wf(Taken(f, b)) && SameTree(f, Taken(f, b)) && b in Taken(f, b).extra && Taken(f, b).d[b] == ZeroBlock()
    ensures b >= f.sb.datastart && b !in f.owner && b !in f.extra
  {
    hide Allocated, Slot, SameFiles, SameSlots, FilesWhole, OwnedOnce;
    var m, g := WithMark(f, b, true), Taken(f, b);
    MarkOutsideFiles(f, b);
    UnownedWritten(f, BBlock(f.sb, b), PutBit(f.d[BBlock(f.sb, b)], b % BPB, true));
    UnownedWritten(m, b, ZeroBlock());
    TreeTwice(f, m, WithBlock(m, b, ZeroBlock()));
    TreeForgetsExtra(f, WithBlock(m, b, ZeroBlock()), g);
    forall x | 0 <= x < f.sb.size ensures Allocated(f.sb, g.d, x) <==> x == b || Allocated(f.sb, f.d, x) {
      BitmapAfter(f.sb, f.d, b, true, x);
      BitmapElsewhere(f.sb, m.d, b, ZeroBlock(), x);
    }
  }

  lemma FreedKeeps(f: Fs, b: nat)
    requires Wf(f) && b in f.extra
    ensures b < f.sb.size && BBlock(f.sb, b) < |f.d| && Allocated(f.sb, f.d, b)
    ensures Wf(Freed(f, b)) && SameTree(f, Freed(f, b))
  {
    hide Allocated, Slot, SameFiles, SameSlots, FilesWhole, OwnedOnce;
    var m, g := WithMark(f, b, false), Freed(f, b);
    MarkOutsideFiles(f, b);
    UnownedWritten(f, BBlock(f.sb, b), PutBit(f.d[BBlock(f.sb, b)], b % BPB, false));
    TreeForgetsExtra(f, m, g);
    forall x | 0 <= x < f.sb.size ensures Allocated(f.sb, g.d, x) <==> x != b && Allocated(f.sb, f.d, x) {
      BitmapAfter(f.sb, f.d, b, false, x);
    }
  }

  // ---------- bmap: giving a block to an inode ----------

  function WithAddr(di: Dinode, s: nat, b: uint32): Dinode
    requires s <= INDIRECT
  {
    Dinode(di.typ, di.major, di.minor, di.nlink, di.size, di.addrs[s := b])
  }

  function LinkedDirect(f: Fs, i: nat, s: nat, b: uint32): Fs
    requires i < |f.inodes| && s <= INDIRECT
  {
    Fs(f.sb, f.d, f.inodes[i := WithAddr(f.inodes[i], s, b)], f.owner[b := (i, s)], f.extra - {b})
  }

  function LinkedEntry(f: Fs, i: nat, j: nat, b: uint32): Fs
    requires i < |f.inodes| && j < NINDIRECT && f.inodes[i].addrs[INDIRECT] < |f.d|
  {
    var ind := f.inodes[i].addrs[INDIRECT];
    Fs(f.sb, f.d[ind := PutWord(f.d[ind], j, b)], f.inodes, f.owner[b := (i, INDIRECT + 1 + j)], f.extra - {b})
  }

  /** One empty slot of one inode got the block b, and b holds zeros. */
  ghost predicate OneMore(f: Fs, g: Fs, i: nat, s: nat, b: nat)
  {
    && g.sb == f.sb && |g.d| == |f.d| && |g.inodes| == |f.inodes| && i < |f.inodes| && s < SLOTS && b < |f.d|
    && b in f.extra && b != 0 && Slot(f, i, s) == 0 && g.d[b] == ZeroBlock()
    && g.owner == f.owner[b := (i, s)] && g.extra == f.extra - {b}
    && (forall j, t ::
          0 <= j < |f.inodes| && 0 <= t < SLOTS ==> Slot(g, j, t) == if (j, t) == (i, s) then b else Slot(f, j, t))
    && (forall k :: 0 <= k < |f.d| && (k in f.owner ==> f.owner[k].1 != INDIRECT) ==> g.d[k] == f.d[k])
    && (forall j :: 0 <= j < |f.inodes| ==> g.inodes[j].typ == f.inodes[j].typ && g.inodes[j].size == f.inodes[j].size)
  }

  lemma OneMoreOwned(f: Fs, g: Fs, i: nat, s: nat, b: nat)
    requires Wf(f) && OneMore(f, g, i, s, b)
    ensures OwnedOnce(g)
  {
    hide Slot, Allocated, FilesWhole, FreeEmpty;
    forall j, t | 0 <= j < |g.inodes| && 0 <= t < SLOTS && Slot(g, j, t) != 0
      ensures Slot(g, j, t) in g.owner && g.owner[Slot(g, j, t)] == (j, t) {
      if (j, t) != (i, s) { assert Slot(f, j, t) in f.owner; }
    }
  }

  lemma OneMoreView(f: Fs, g: Fs, i: nat, s: nat, b: nat, j: nat, bn: nat)
    requires Wf(f) && OneMore(f, g, i, s, b) && j < |f.inodes| && bn < MAXFILE
    ensures View(g.d, g.inodes[j], bn) == View(f.d, f.inodes[j], bn)
  {
    hide SlotAddr, Allocated, FilesWhole, FreeEmpty;
    var t := DataSlot(bn);
    assert SlotAddr(f.d, f.inodes[j], t) == Slot(f, j, t) && SlotAddr(g.d, g.inodes[j], t) == Slot(g, j, t);
    assert Slot(g, j, t) == if (j, t) == (i, s) then b else Slot(f, j, t);
    if Slot(f, j, t) != 0 { assert f.owner[Slot(f, j, t)] == (j, t); }
  }

  lemma OneMoreBitmap(f: Fs, g: Fs, i: nat, s: nat, b: nat)
    requires Wf(f) && OneMore(f, g, i, s, b)
    ensures BitmapExact(g)
  {
    hide Slot, Bit, Allocated, FilesWhole, FreeEmpty;
    forall x | 0 <= x < g.sb.size
      ensures BBlock(g.sb, x) < |g.d| && Allocated(g.sb, g.d, x) == Allocated(f.sb, f.d, x)
    {
      SameMark(f, g, x);
    }
  }

  lemma SameMark(f: Fs, g: Fs, x: nat)
    requires Shape(f) && OwnedOnce(f) && |g.d| == |f.d| && g.sb == f.sb && x < f.sb.size
    requires forall k :: 0 <= k < |f.d| && (k in f.owner ==> f.owner[k].1 != INDIRECT) ==> g.d[k] == f.d[k]
    ensures BBlock(f.sb, x) < |f.d| && Allocated(f.sb, g.d, x) == Allocated(f.sb, f.d, x)
  {
    hide Slot, Bit;
    BlocksInRange(f.sb, x);
  }

  lemma OneMoreKeeps(f: Fs, g: Fs, i: nat, s: nat, b: nat)
    requires Wf(f) && OneMore(f, g, i, s, b) && f.inodes[i].typ != 0
    requires forall j :: 0 <= j < |f.inodes| && j != i ==> g.inodes[j] == f.inodes[j]
    ensures Wf(g) && SameFiles(f, g)
  {
    hide Slot, View, Allocated;
    OneMoreOwned(f, g, i, s, b);
    OneMoreBitmap(f, g, i, s, b);
    WholeKept(f, g);
    forall j | 0 <= j < |f.inodes| ensures SameView(f, g, j) {
      forall bn | 0 <= bn < MAXFILE ensures View(g.d, g.inodes[j], bn) == View(f.d, f.inodes[j], bn) {
        OneMoreView(f, g, i, s, b, j, bn);
      }
    }
  }

  /** A fresh indirect block has no entries, and an empty slot gets the block. */
  lemma DirectSlots(f: Fs, i: nat, s: nat, b: uint32, j: nat, t: nat)
    requires Wf(f) && i < |f.inodes| && s <= INDIRECT && b in f.extra && f.d[b] == ZeroBlock()
             && f.inodes[i].addrs[s] == 0
    requires j < |f.inodes| && t < SLOTS
    ensures Slot(LinkedDirect(f, i, s, b), j, t) == if (j, t) == (i, s) then b else Slot(f, j, t)
  {
    hide GetWord, Allocated, FilesWhole, FreeEmpty;
    if j == i && s == INDIRECT && t > INDIRECT { ZeroWords(t - INDIRECT - 1); }
  }

  lemma LinkDirect(f: Fs, i: nat, s: nat, b: uint32)
    requires Wf(f) && i < |f.inodes| && s <= INDIRECT && b in f.extra && f.d[b] == ZeroBlock()
             && f.inodes[i].addrs[s] == 0
    requires f.inodes[i].typ != 0
    ensures Wf(LinkedDirect(f, i, s, b)) && SameFiles(f, LinkedDirect(f, i, s, b))
            && OneMore(f, LinkedDirect(f, i, s, b), i, s, b)
  {
    hide Slot, Allocated, FilesWhole, FreeEmpty, OwnedOnce;
    var g := LinkedDirect(f, i, s, b);
    assert Slot(f, i, s) == 0 by { SlotIsAddr(f, i, s); }
    forall j, t | 0 <= j < |f.inodes| && 0 <= t < SLOTS
      ensures Slot(g, j, t) == if (j, t) == (i, s) then b else Slot(f, j, t)
    {
      DirectSlots(f, i, s, b, j, t);
    }
    OneMoreKeeps(f, g, i, s, b);
  }

  lemma SlotIsAddr(f: Fs, i: nat, s: nat)
    requires i < |f.inodes| && s <= INDIRECT
    ensures Slot(f, i, s) == f.inodes[i].addrs[s]
  {
  }

  lemma EntrySlots(f: Fs, i: nat, k: nat, b: uint32, j: nat, t: nat)
    requires Wf(f) && i < |f.inodes| && k < NINDIRECT && b in f.extra && j < |f.inodes| && t < SLOTS
    requires f.inodes[i].addrs[INDIRECT] != 0 && Slot(f, i, INDIRECT + 1 + k) == 0
    ensures f.inodes[i].addrs[INDIRECT] < |f.d| && f.inodes[i].addrs[INDIRECT] in f.owner
            && f.owner[f.inodes[i].addrs[INDIRECT]] == (i, INDIRECT)
    ensures Slot(LinkedEntry(f, i, k, b), j, t) == if (j, t) == (i, INDIRECT + 1 + k) then b else Slot(f, j, t)
  {
    hide GetWord, PutWord, Allocated, FilesWhole, FreeEmpty;
    var ind := f.inodes[i].addrs[INDIRECT];
    SlotIsAddr(f, i, INDIRECT);
    SlotIsAddr(f, j, INDIRECT);
    if t > INDIRECT { PutGetWord(f.d[ind], k, b, t - INDIRECT - 1); }
  }

  lemma LinkEntry(f: Fs, i: nat, k: nat, b: uint32)
    requires Wf(f) && i < |f.inodes| && k < NINDIRECT && b in f.extra && f.d[b] == ZeroBlock()
    requires f.inodes[i].addrs[INDIRECT] != 0 && Slot(f, i, INDIRECT + 1 + k) == 0 && f.inodes[i].typ != 0
    ensures f.inodes[i].addrs[INDIRECT] < |f.d|
    ensures Wf(LinkedEntry(f, i, k, b)) && SameFiles(f, LinkedEntry(f, i, k, b))
            && OneMore(f, LinkedEntry(f, i, k, b), i, INDIRECT + 1 + k, b)
  {
    hide Slot, PutWord, Allocated, FilesWhole, FreeEmpty;
    EntrySlots(f, i, k, b, 0, 0);
    var g := LinkedEntry(f, i, k, b);
    forall j, t | 0 <= j < |f.inodes| && 0 <= t < SLOTS
      ensures Slot(g, j, t) == if (j, t) == (i, INDIRECT + 1 + k) then b else Slot(f, j, t)
    {
      EntrySlots(f, i, k, b, j, t);
    }
    OneMoreKeeps(f, g, i, INDIRECT + 1 + k, b);
  }

  /** Inode i may have got more blocks; nothing else that a file system user can see has changed. */
  ghost predicate Extended(f: Fs, g: Fs, i: nat) {
    && SameFiles(f, g) && g.extra == f.extra && |g.d| == |f.d| && Shape(f) && i < |f.inodes|
    && (forall j :: 0 <= j < |f.inodes| && j != i ==> g.inodes[j] == f.inodes[j])
    && (forall s :: 0 <= s < SLOTS && Slot(f, i, s) != 0 ==> Slot(g, i, s) == Slot(f, i, s))
    && (forall k :: 0 <= k < f.sb.bmapstart ==> g.d[k] == f.d[k])
  }

  lemma ExtendedTwice(f: Fs, m: Fs, g: Fs, i: nat)
    requires Extended(f, m, i) && Extended(m, g, i)
    ensures Extended(f, g, i)
  {
    hide Slot, View;
    forall j | 0 <= j < |f.inodes| ensures SameView(f, g, j) { assert SameView(f, m, j) && SameView(m, g, j); }
  }

  lemma NotExtended(f: Fs, i: nat)
    requires Shape(f) && i < |f.inodes|
    ensures Extended(f, f, i)
  {
    hide Slot, View;
  }

  /** A block taken and then given to inode i. */
  lemma TakenAndGiven(f: Fs, m: Fs, g: Fs, i: nat, s: nat, b: nat)
    requires SameTree(f, m) && OneMore(m, g, i, s, b) && SameFiles(m, g) && Wf(m) && Shape(f)
    requires b !in f.extra && m.extra == f.extra + {b}
    requires forall j :: 0 <= j < |m.inodes| && j != i ==> g.inodes[j] == m.inodes[j]
    requires forall k :: 0 <= k < f.sb.bmapstart ==> m.d[k] == f.d[k]
    ensures Extended(f, g, i) && Slot(g, i, s) == b
  {
    hide Slot, View, Allocated, FilesWhole, FreeEmpty;
    forall j | 0 <= j < |f.inodes| ensures SameView(f, g, j) { assert SameView(f, m, j) && SameView(m, g, j); }
  }

  // ---------- writei: one block of one file ----------

  lemma DataWritten(f: Fs, i: nat, bn: nat, data: Block)
    requires Wf(f) && i < |f.inodes| && bn < MAXFILE && Slot(f, i, DataSlot(bn)) != 0
    ensures Slot(f, i, DataSlot(bn)) < |f.d| && Slot(f, i, DataSlot(bn)) >= f.sb.datastart
    ensures var g := WithBlock(f, Slot(f, i, DataSlot(bn)), data);
            Wf(g) && SameSlots(f, g)
            && forall j, m :: 0 <= j < |f.inodes| && 0 <= m < MAXFILE ==>
                 View(g.d, g.inodes[j], m) == if (j, m) == (i, bn) then data else View(f.d, f.inodes[j], m)
  {
    hide Slot, View, Allocated;
    var k := Slot(f, i, DataSlot(bn));
    var g := WithBlock(f, k, data);
    BlockWritten(f, k, data);
    WholeKept(f, g);
    forall x | 0 <= x < f.sb.size
      ensures BBlock(f.sb, x) < |f.d| && Allocated(f.sb, g.d, x) == Allocated(f.sb, f.d, x)
    {
      BitmapElsewhere(f.sb, f.d, k, data, x);
    }
    forall j, m | 0 <= j < |f.inodes| && 0 <= m < MAXFILE
      ensures View(g.d, g.inodes[j], m) == if (j, m) == (i, bn) then data else View(f.d, f.inodes[j], m) {
      assert View(g.d, f.inodes[j], m) == ViewAfter(f, k, data, j, m);
    }
  }

  // ---------- the inode itself ----------

  function WithInode(f: Fs, i: nat, di: Dinode): Fs
    requires i < |f.inodes|
  {
    Fs(f.sb, f.d, f.inodes[i := di], f.owner, f.extra)
  }

  /** New sizes, types and link counts do not touch the block map. */
  lemma InodeChanged(f: Fs, i: nat, di: Dinode)
    requires Wf(f) && i < |f.inodes| && di.addrs == f.inodes[i].addrs && NoHoles(f.d, di)
    requires di.typ == 0 ==> di.size == 0 && forall s :: 0 <= s <= INDIRECT ==> di.addrs[s] == 0
    ensures Wf(WithInode(f, i, di)) && forall j :: 0 <= j < |f.inodes| ==> SameView(f, WithInode(f, i, di), j)
  {
    hide Allocated, GetWord;
    var g := WithInode(f, i, di);
    forall j, s | 0 <= j < |f.inodes| && 0 <= s < SLOTS ensures Slot(g, j, s) == Slot(f, j, s) {}
    SlotsKept(f, g);
  }

  /** iupdate stores the inode; no file and no bit of the map changes. */
  lemma InodeStored(f: Fs, i: nat)
    requires Wf(f) && i < |f.inodes| && SyncedBut(f, i)
    ensures IBlock(f.sb, i) < f.sb.bmapstart && IBlock(f.sb, i) < |f.d|
    ensures var g := WithBlock(f, IBlock(f.sb, i), PutDinode(f.d[IBlock(f.sb, i)], i % IPB, f.inodes[i]));
            Wf(g) && SameTree(f, g) && forall j :: 0 <= j < |f.inodes| ==> OnDisk(g, j) == f.inodes[j]
  {
    hide Slot, View, Allocated, SameTree, PutDinode, GetDinode, FilesWhole;
    var k := IBlock(f.sb, i);
    var data := PutDinode(f.d[k], i % IPB, f.inodes[i]);
    var g := WithBlock(f, k, data);
    UnownedWritten(f, k, data);
    forall x | 0 <= x < f.sb.size
      ensures BBlock(f.sb, x) < |f.d| && Allocated(f.sb, g.d, x) == Allocated(f.sb, f.d, x)
    {
      BitmapElsewhere(f.sb, f.d, k, data, x);
    }
    forall j | 0 <= j < |f.inodes| ensures OnDisk(g, j) == f.inodes[j] {
      DinodeRoundTrip(f.d[k], i % IPB, f.inodes[i], j % IPB);
      assert j != i && j / IPB == i / IPB ==> j % IPB != i % IPB;
    }
  }

  // ---------- itrunc ----------

  /**
    The blocks inode i has from one slot on, in the order itrunc frees them: direct, entries, then the indirect block.
   */
  function Rank(s: nat): nat { if s == INDIRECT then SLOTS else s }

  ghost function BlocksFrom(f: Fs, i: nat, r: nat): set<nat> {
    set b | b in f.owner && f.owner[b].0 == i && Rank(f.owner[b].1) >= r
  }

  function Emptied(di: Dinode): Dinode {
    Dinode(di.typ, di.major, di.minor, di.nlink, 0, seq(13, _ => 0))
  }

  /** The inode lets go of all its blocks at once; they are on their way to the free map. */
  ghost function Unlinked(f: Fs, i: nat): Fs
    requires i < |f.inodes|
  {
    Fs(f.sb, f.d, f.inodes[i := Emptied(f.inodes[i])], f.owner - BlocksFrom(f, i, 0), f.extra + BlocksFrom(f, i, 0))
  }

  lemma UnlinkedSlots(f: Fs, i: nat, j: nat, s: nat)
    requires i < |f.inodes| && j < |f.inodes| && s < SLOTS
    ensures Slot(Unlinked(f, i), j, s) == if j == i then 0 else Slot(f, j, s)
  {
    hide GetWord;
  }

  lemma Unlink(f: Fs, i: nat)
    requires Wf(f) && i < |f.inodes|
    ensures Wf(Unlinked(f, i)) && forall j :: 0 <= j < |f.inodes| && j != i ==> SameView(f, Unlinked(f, i), j)
  {
    hide Slot, View, Allocated, FilesWhole;
    var g := Unlinked(f, i);
    forall j, s | 0 <= j < |f.inodes| && 0 <= s < SLOTS ensures Slot(g, j, s) == if j == i then 0 else Slot(f, j, s) {
      UnlinkedSlots(f, i, j, s);
    }
    assert FilesWhole(g) by { UnlinkedWhole(f, i); }
  }

  lemma UnlinkedWhole(f: Fs, i: nat)
    requires FilesWhole(f) && i < |f.inodes|
    ensures FilesWhole(Unlinked(f, i))
  {
    hide SlotAddr;
    var g := Unlinked(f, i);
    forall j | 0 <= j < |g.inodes| ensures NoHoles(g.d, g.inodes[j]) {
      assert NoHoles(f.d, f.inodes[j]);
    }
  }

  /** itrunc at work: the blocks of rank r and up are still to be freed. */
  ghost predicate Truncating(f: Fs, g: Fs, i: nat, r: nat) {
    && i < |f.inodes| && |g.d| == |f.d| && g.sb == f.sb && SameTree(Unlinked(f, i), g)
       && g.extra == f.extra + BlocksFrom(f, i, r)
    && (forall k :: 0 <= k < |f.d| && (k < f.sb.bmapstart || k >= f.sb.datastart) ==> g.d[k] == f.d[k])
  }

  lemma TruncStart(f: Fs, i: nat)
    requires Wf(f) && i < |f.inodes|
    ensures Wf(Unlinked(f, i)) && Truncating(f, Unlinked(f, i), i, 0)
  {
    hide Slot, View, Wf;
    Unlink(f, i);
  }

  lemma TruncStep(f: Fs, g: Fs, h: Fs, i: nat, s: nat)
    requires Wf(f) && Truncating(f, g, i, Rank(s)) && i < |f.inodes| && s < SLOTS && Slot(f, i, s) != 0
    requires SameTree(g, h) && h.extra == g.extra - {Slot(f, i, s)} && h.sb == g.sb && |h.d| == |g.d|
    requires forall k :: 0 <= k < |f.d| && (k < f.sb.bmapstart || k >= f.sb.datastart) ==> h.d[k] == g.d[k]
    ensures Truncating(f, h, i, Rank(s) + 1)
  {
    hide Slot, View, Allocated, FilesWhole, FreeEmpty, SameTree;
    TreeTwice(Unlinked(f, i), g, h);
    var b := Slot(f, i, s);
    assert f.owner[b] == (i, s);
    assert b !in f.extra;
    forall x | x in BlocksFrom(f, i, Rank(s)) && x != b ensures Rank(f.owner[x].1) >= Rank(s) + 1 {
      assert Slot(f, i, f.owner[x].1) == x;
    }
    assert BlocksFrom(f, i, Rank(s)) == BlocksFrom(f, i, Rank(s) + 1) + {b};
  }

  lemma TruncSkip(f: Fs, g: Fs, i: nat, r: nat)
    requires Wf(f) && Truncating(f, g, i, r) && r < SLOTS && (r != INDIRECT ==> Slot(f, i, r) == 0)
    ensures Truncating(f, g, i, r + 1)
  {
    hide Slot, View, Allocated, FilesWhole, FreeEmpty, SameTree;
    forall x | x in BlocksFrom(f, i, r) ensures Rank(f.owner[x].1) >= r + 1 {
      assert Slot(f, i, f.owner[x].1) == x != 0;
    }
    assert BlocksFrom(f, i, r) == BlocksFrom(f, i, r + 1);
  }

  /** A block still to be freed is marked, and so freeing it does not find it free. */
  lemma StillToFree(f: Fs, g: Fs, i: nat, s: nat)
    requires Wf(f) && Truncating(f, g, i, Rank(s)) && s < SLOTS && Slot(f, i, s) != 0
    ensures Slot(f, i, s) in g.extra
  {
    hide Slot, View, Allocated, FilesWhole, FreeEmpty, SameTree;
    assert f.owner[Slot(f, i, s)] == (i, s);
  }

  lemma NoEntriesLeft(f: Fs, g: Fs, i: nat, r: nat)
    requires Wf(f) && Truncating(f, g, i, r) && INDIRECT <= r
    requires r <= SLOTS ==> Slot(f, i, INDIRECT) == 0 && forall s :: INDIRECT < s < SLOTS ==> Slot(f, i, s) == 0
    ensures Truncating(f, g, i, SLOTS + 1) && g.extra == f.extra
  {
    hide Slot, View, Allocated, FilesWhole, FreeEmpty, SameTree;
    forall x | x in f.owner ensures x !in BlocksFrom(f, i, r) {
      assert Slot(f, f.owner[x].0, f.owner[x].1) == x;
    }
    assert BlocksFrom(f, i, r) == {} == BlocksFrom(f, i, SLOTS + 1);
  }

  /** After itrunc exactly the inode's blocks have become free. */
  lemma FreedExactly(f: Fs, g: Fs, i: nat, b: nat)
    requires Wf(f) && Wf(g) && g.sb == f.sb && g.extra == f.extra && g.owner == f.owner - BlocksFrom(f, i, 0)
             && b < f.sb.size
    requires i < |f.inodes|
    ensures BBlock(f.sb, b) < |f.d| == |g.d|
    ensures Allocated(f.sb, f.d, b) && !Allocated(f.sb, g.d, b) <==>
              b != 0 && exists s :: 0 <= s < SLOTS && Slot(f, i, s) == b
    ensures Allocated(f.sb, g.d, b) ==> Allocated(f.sb, f.d, b)
  {
    hide Slot, Allocated, FilesWhole, FreeEmpty;
    BlocksInRange(f.sb, b);
    if b in f.owner && f.owner[b].0 == i { assert Slot(f, i, f.owner[b].1) == b; }
    if s :| 0 <= s < SLOTS && Slot(f, i, s) == b && b != 0 { assert f.owner[b] == (i, s); }
  }
}
