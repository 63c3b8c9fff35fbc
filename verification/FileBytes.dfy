/**
  Files as flat byte arrays: what writei's block by block updates mean for the bytes of the file.
 */
module FileBytes {
  import opened Blocks
  import opened Inodes
  import opened Ownership
  import opened FileChanges

  const MAXBYTES: nat := 274432     // MAXFILE * BSIZE

  /** The bytes of file i from off on have become part; all its other bytes are as they were. */
  ghost predicate Patched(f: Fs, g: Fs, i: nat, off: nat, part: seq<byte>)
    requires i < |f.inodes| && i < |g.inodes|
  {
    forall k :: 0 <= k < MAXBYTES ==>
      ByteAt(g.d, g.inodes[i], k) == if off <= k < off + |part| then part[k - off] else ByteAt(f.d, f.inodes[i], k)
  }

  ghost predicate OthersSame(f: Fs, g: Fs, i: nat) {
    && g.sb == f.sb && |g.inodes| == |f.inodes|
    && forall j :: 0 <= j < |f.inodes| && j != i ==> g.inodes[j] == f.inodes[j] && SameView(f, g, j)
  }

  /** Everything the loop of writei has done to the file system so far. */
  ghost predicate Writing(f: Fs, g: Fs, i: nat, off: nat, part: seq<byte>) {
    && OthersSame(f, g, i) && i < |f.inodes| && Patched(f, g, i, off, part) && g.extra == f.extra
    && g.inodes[i].size == f.inodes[i].size && g.inodes[i].typ == f.inodes[i].typ
    && (forall s :: 0 <= s < SLOTS && Slot(f, i, s) != 0 ==> Slot(g, i, s) != 0)
    && (forall bn :: off / BSIZE <= bn < MAXFILE && bn * BSIZE < off + |part| ==> Slot(g, i, DataSlot(bn)) != 0)
  }

  lemma NothingWritten(f: Fs, i: nat, off: nat)
    requires i < |f.inodes| && off <= f.inodes[i].size && NoHoles(f.d, f.inodes[i])
    ensures Writing(f, f, i, off, [])
  {
    hide SlotAddr, View;
  }

  lemma AfterExtending(f: Fs, g: Fs, h: Fs, i: nat, off: nat, part: seq<byte>)
    requires Writing(f, g, i, off, part) && Extended(g, h, i)
    ensures Writing(f, h, i, off, part)
  {
    hide Slot, View;
    forall j | 0 <= j < |f.inodes| && j != i
      ensures SameView(f, h, j)
    {
      assert SameView(f, g, j) && SameView(g, h, j);
    }
    forall k | 0 <= k < MAXBYTES ensures ByteAt(h.d, h.inodes[i], k) == ByteAt(g.d, g.inodes[i], k) {
      assert SameView(g, h, i) && k / BSIZE < MAXFILE;
    }
  }

  /** Where byte k lies relative to a run of m bytes inside one block. */
  lemma InBlock(off: nat, m: nat, k: nat)
    requires off % BSIZE + m <= BSIZE
    ensures off <= k < off + m <==> k / BSIZE == off / BSIZE && off % BSIZE <= k % BSIZE < off % BSIZE + m
    ensures off <= k < off + m ==> k % BSIZE - off % BSIZE == k - off
  {
    var q := off / BSIZE;
    assert off == BSIZE * q + off % BSIZE && k == BSIZE * (k / BSIZE) + k % BSIZE;
  }

  function Overlay(blk: Block, o: nat, bytes: seq<byte>): Block
    requires o + |bytes| <= BSIZE
  {
    blk[..o] + bytes + blk[o + |bytes|..]
  }

  /** writei's step: block bn, already there, gets the next bytes. */
  lemma AfterBlock(f: Fs, g: Fs, i: nat, off: nat, part: seq<byte>, more: seq<byte>)
    requires Writing(f, g, i, off, part) && Wf(g) && |more| > 0
    requires (off + |part|) % BSIZE + |more| <= BSIZE && off + |part| + |more| <= MAXBYTES
    requires (off + |part|) / BSIZE < MAXFILE && Slot(g, i, DataSlot((off + |part|) / BSIZE)) != 0
    requires |part| == 0 || (off + |part|) % BSIZE == 0
    ensures Slot(g, i, DataSlot((off + |part|) / BSIZE)) < |g.d|
    ensures var bn, a := (off + |part|) / BSIZE, Slot(g, i, DataSlot((off + |part|) / BSIZE));
            var h := WithBlock(g, a, Overlay(g.d[a], (off + |part|) % BSIZE, more));
            Wf(h) && Writing(f, h, i, off, part + more)
  {
    hide Slot, View, Wf;
    var x := off + |part|;
    var bn, a := x / BSIZE, Slot(g, i, DataSlot(x / BSIZE));
    SlotHasView(g, i, bn);
    DataWritten(g, i, bn, Overlay(g.d[a], x % BSIZE, more));
    var h := WithBlock(g, a, Overlay(g.d[a], x % BSIZE, more));
    assert Patched(f, h, i, off, part + more) by { PatchGrows(f, g, h, i, off, part, more); }
    forall j | 0 <= j < |f.inodes| && j != i ensures SameView(f, h, j) { assert SameView(f, g, j); }
    forall m | off / BSIZE <= m < MAXFILE && m * BSIZE < x + |more| ensures Slot(h, i, DataSlot(m)) != 0 {
      assert m <= bn;
      assert Slot(h, i, DataSlot(m)) == Slot(g, i, DataSlot(m));
    }
  }

  lemma SlotHasView(g: Fs, i: nat, bn: nat)
    requires Wf(g) && i < |g.inodes| && bn < MAXFILE && Slot(g, i, DataSlot(bn)) != 0
    ensures g.sb.datastart <= Slot(g, i, DataSlot(bn)) < |g.d|
            && View(g.d, g.inodes[i], bn) == g.d[Slot(g, i, DataSlot(bn))]
  {
    hide SlotAddr, Allocated, FilesWhole, FreeEmpty;
  }

  lemma PatchGrows(f: Fs, g: Fs, h: Fs, i: nat, off: nat, part: seq<byte>, more: seq<byte>)
    requires i < |f.inodes| && i < |g.inodes| && i < |h.inodes| && Patched(f, g, i, off, part)
    requires (off + |part|) % BSIZE + |more| <= BSIZE && off + |part| + |more| <= MAXBYTES
             && (off + |part|) / BSIZE < MAXFILE
    requires forall m :: 0 <= m < MAXFILE ==>
               View(h.d, h.inodes[i], m) ==
                 if m == (off + |part|) / BSIZE then Overlay(View(g.d, g.inodes[i], m), (off + |part|) % BSIZE, more)
                 else View(g.d, g.inodes[i], m)
    ensures Patched(f, h, i, off, part + more)
  {
    hide View;
    forall k | 0 <= k < MAXBYTES
      ensures ByteAt(h.d, h.inodes[i], k) ==
              if off <= k < off + |part + more| then (part + more)[k - off] else ByteAt(f.d, f.inodes[i], k) {
      var x := off + |part|;
      InBlock(x, |more|, k);
      assert k / BSIZE < MAXFILE;
      var was := View(g.d, g.inodes[i], k / BSIZE);
      assert ByteAt(g.d, g.inodes[i], k) == was[k % BSIZE];
      assert ByteAt(h.d, h.inodes[i], k) == View(h.d, h.inodes[i], k / BSIZE)[k % BSIZE];
      if off <= k < x { assert (part + more)[k - off] == part[k - off]; }
      if k / BSIZE == x / BSIZE {
        assert View(h.d, h.inodes[i], k / BSIZE) == Overlay(was, x % BSIZE, more);
        if x <= k < x + |more| {
          assert Overlay(was, x % BSIZE, more)[k % BSIZE] == more[k - x];
        } else {
          assert Overlay(was, x % BSIZE, more)[k % BSIZE] == was[k % BSIZE];
        }
      }
    }
  }

  // ---------- the whole contents ----------

  /** The bytes c with those from off on replaced, and extended where they run past the end. */
  function Spliced(c: seq<byte>, off: nat, part: seq<byte>): (r: seq<byte>)
    requires off <= |c|
    ensures |r| == if off + |part| > |c| then off + |part| else |c|
  {
    c[..off] + part + if off + |part| < |c| then c[off + |part|..] else []
  }

  /** A new size that does not cut the file off and does not run past the bytes written. */
  predicate Covered(was: nat, end: nat, size: nat) { was <= size && (size <= was || size <= end) }

  lemma ContentsSpliced(f: Fs, g: Fs, i: nat, off: nat, part: seq<byte>)
    requires i < |f.inodes| && i < |g.inodes| && Patched(f, g, i, off, part)
    requires f.inodes[i].size <= MAXBYTES && off <= f.inodes[i].size && g.inodes[i].size <= MAXBYTES
    requires Covered(f.inodes[i].size, off + |part|, g.inodes[i].size)
    ensures Contents(g.d, g.inodes[i]) == Spliced(Contents(f.d, f.inodes[i]), off, part)[..g.inodes[i].size]
  {
    hide ByteAt;
    var c, r := Contents(f.d, f.inodes[i]), Contents(g.d, g.inodes[i]);
    var want := Spliced(c, off, part)[..g.inodes[i].size];
    forall k | 0 <= k < |r| ensures r[k] == want[k] {
      assert r[k] == ByteAt(g.d, g.inodes[i], k);
    }
  }

  /** What was written is what is read back at the same place. */
  lemma ReadBack(c: seq<byte>, off: nat, part: seq<byte>)
    requires off <= |c|
    ensures Spliced(c, off, part)[off..off + |part|] == part && Spliced(c, off, part)[..off] == c[..off]
  {
  }

  lemma SpliceTwice(c: seq<byte>, off: nat, a: seq<byte>, b: seq<byte>)
    requires off <= |c|
    ensures Spliced(Spliced(c, off, a), off + |a|, b) == Spliced(c, off, a + b)
  {
  }

  function Sized(di: Dinode, size: uint32): Dinode {
    Dinode(di.typ, di.major, di.minor, di.nlink, size, di.addrs)
  }

  /** A file written from within its old size on has no holes at a new size that the writing covers. */
  lemma NoNewHoles(f: Fs, g: Fs, i: nat, off: nat, part: seq<byte>, size: uint32)
    requires Writing(f, g, i, off, part) && NoHoles(g.d, g.inodes[i]) && off <= f.inodes[i].size
             && off + |part| <= MAXBYTES
    requires Covered(f.inodes[i].size, off + |part|, size)
    ensures NoHoles(g.d, Sized(g.inodes[i], size))
  {
    hide View, GetWord;
    forall bn | 0 <= bn < MAXFILE && bn * BSIZE < size
      ensures SlotAddr(g.d, Sized(g.inodes[i], size), DataSlot(bn)) != 0
    {
      assert SlotAddr(g.d, Sized(g.inodes[i], size), DataSlot(bn)) == SlotAddr(g.d, g.inodes[i], DataSlot(bn));
      if bn * BSIZE >= f.inodes[i].size { assert Slot(g, i, DataSlot(bn)) != 0; }
    }
  }

  /** The end of writei: the new size is set and the inode stored, and the file is the old one with part spliced in. */
  lemma WriteDone(f: Fs, g: Fs, h: Fs, i: nat, off: nat, part: seq<byte>, size: uint32)
    requires Wf(f) && Wf(g) && Writing(f, g, i, off, part) && off <= f.inodes[i].size && off + |part| <= MAXBYTES
    requires Covered(f.inodes[i].size, off + |part|, size)
    requires SameTree(WithInode(g, i, Sized(g.inodes[i], size)), h)
    ensures OthersSame(f, h, i) && g.extra == f.extra && f.inodes[i].size <= MAXBYTES
            && h.inodes[i].size == size <= MAXBYTES
    ensures Contents(h.d, h.inodes[i]) == Spliced(Contents(f.d, f.inodes[i]), off, part)[..size]
  {
    hide Slot, View, Allocated, OwnedOnce, BitmapExact, Contents;
    var m := WithInode(g, i, Sized(g.inodes[i], size));
    SizedView(g, i, size);
    forall j | 0 <= j < |f.inodes| && j != i ensures SameView(f, h, j) {
      assert SameView(f, g, j) && SameView(g, m, j) && SameView(m, h, j);
    }
    assert SameView(g, m, i) && SameView(m, h, i);
    forall k | 0 <= k < MAXBYTES ensures ByteAt(h.d, h.inodes[i], k) == ByteAt(g.d, g.inodes[i], k) {
      assert k / BSIZE < MAXFILE;
    }
    assert NoHoles(f.d, f.inodes[i]);
    ContentsSpliced(f, h, i, off, part);
  }

  lemma SizedView(g: Fs, i: nat, size: uint32)
    requires i < |g.inodes|
    ensures forall j :: 0 <= j < |g.inodes| ==> SameView(g, WithInode(g, i, Sized(g.inodes[i], size)), j)
  {
    hide GetWord;
  }

  // ---------- how many blocks one write can log ----------

  /** The number of blocks that n bytes from off on lie in. */
  function Touched(off: nat, n: nat): nat {
    if n == 0 then 0 else (off % BSIZE + n + BSIZE - 1) / BSIZE
  }

  /** Data blocks, the bitmap blocks for new ones, the indirect block and its bitmap block, the inode. */
  function LogBound(off: nat, n: nat): nat {
    2 * Touched(off, n) + (if n > 0 && off % BSIZE != 0 then 2 else 3)
  }

  /** filewrite's chunks of ((MAXOPBLOCKS-1-1-2)/2)*BSIZE bytes fit a log reservation. */
  lemma ChunkFits(off: nat, n: nat)
    requires n <= (MAXOPBLOCKS - 1 - 1 - 2) / 2 * BSIZE
    ensures LogBound(off, n) <= MAXOPBLOCKS
  {
  }
}
