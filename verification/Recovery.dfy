/**
  The redo log's on-disk format and crash recovery (kernel/log.c): what a disk image recovers to,
  for every image that a commit or a recovery can leave behind.
 */
module Recovery {
  import opened Blocks

  // ---------- the on-disk header: a count, then the home block numbers ----------

  ghost function HeaderCount(b: Block): nat { GetWord(b, 0) }

  ghost function HeaderBlocks(b: Block): (r: seq<nat>)
    requires HeaderCount(b) <= LOGSIZE
    ensures |r| == HeaderCount(b)
  {
    seq(HeaderCount(b), i requires 0 <= i < HeaderCount(b) => GetWord(b, i + 1))
  }

  /** write_head's stores, up to and including entry k - 1. */
  ghost function PutHeader(b: Block, blocks: seq<nat>, k: nat): Block
    requires k <= |blocks| <= LOGSIZE && forall i :: 0 <= i < |blocks| ==> blocks[i] < 0x1_0000_0000
  {
    if k == 0 then PutWord(b, 0, |blocks|) else PutWord(PutHeader(b, blocks, k - 1), k, blocks[k - 1])
  }

  lemma {:induction false} PutHeaderWord(b: Block, blocks: seq<nat>, k: nat, j: nat)
    requires k <= |blocks| <= LOGSIZE && forall i :: 0 <= i < |blocks| ==> blocks[i] < 0x1_0000_0000
    requires j <= k
    ensures GetWord(PutHeader(b, blocks, k), j) == if j == 0 then |blocks| else blocks[j - 1]
  {
    if k == 0 {
      PutGetWord(b, 0, |blocks|, j);
    } else {
      PutGetWord(PutHeader(b, blocks, k - 1), k, blocks[k - 1], j);
      if j < k { PutHeaderWord(b, blocks, k - 1, j); }
    }
  }

  /** Reading back a written header yields the list that was written. */
  lemma HeaderRoundTrip(b: Block, blocks: seq<nat>)
    requires |blocks| <= LOGSIZE && forall i :: 0 <= i < |blocks| ==> blocks[i] < 0x1_0000_0000
    ensures var h := PutHeader(b, blocks, |blocks|); HeaderCount(h) == |blocks| && HeaderBlocks(h) == blocks
  {
    hide PutHeader, GetWord, PutWord;
    PutHeaderWord(b, blocks, |blocks|, 0);
    forall i | 0 <= i < |blocks| ensures GetWord(PutHeader(b, blocks, |blocks|), i + 1) == blocks[i] {
      PutHeaderWord(b, blocks, |blocks|, i + 1);
    }
  }

  /** Where the words of a written header are among its bytes: the count first, then the block numbers. */
  lemma HeaderLayout(b: Block, blocks: seq<nat>, i: nat)
    requires |blocks| <= LOGSIZE && i <= |blocks| && forall k :: 0 <= k < |blocks| ==> blocks[k] < 0x1_0000_0000
    ensures var h: seq<int> := PutHeader(b, blocks, |blocks|);
            h[4 * i] + 0x100 * h[4 * i + 1] + 0x1_0000 * h[4 * i + 2] + 0x100_0000 * h[4 * i + 3]
            == (if i == 0 then |blocks| else blocks[i - 1])
  {
    PutHeaderWord(b, blocks, |blocks|, i);
  }

  // ---------- what a disk image recovers to ----------

  datatype Layout = Layout(start: nat, size: nat)

  predicate InLog(l: Layout, k: nat) { l.start <= k < l.start + l.size }

  ghost predicate Targets(l: Layout, n: nat, blocks: seq<nat>) {
    && LOGSIZE < l.size && l.start + l.size <= n && |blocks| <= LOGSIZE
    && forall i :: 0 <= i < |blocks| ==> blocks[i] < n && blocks[i] < 0x1_0000_0000 && !InLog(l, blocks[i])
  }

  /** A header that recovery can follow. */
  ghost predicate WfImage(l: Layout, d: Image) {
    && LOGSIZE < l.size && l.start + l.size <= |d|
    && HeaderCount(d[l.start]) <= LOGSIZE && Targets(l, |d|, HeaderBlocks(d[l.start]))
  }

  /** The image after the first k log blocks are copied home. */
  ghost function Installed(l: Layout, d: Image, blocks: seq<nat>, k: nat): (r: Image)
    requires Targets(l, |d|, blocks) && k <= |blocks|
    ensures |r| == |d| && forall i :: 0 <= i < |d| && InLog(l, i) ==> r[i] == d[i]
  {
    if k == 0 then d else Installed(l, d, blocks, k - 1)[blocks[k - 1] := d[l.start + k]]
  }

  ghost function Cleared(l: Layout, d: Image): Image
    requires l.start < |d|
  {
    d[l.start := PutWord(d[l.start], 0, 0)]
  }

  /** The image a completed recover_from_log leaves. */
  ghost function Recovered(l: Layout, d: Image): Image
    requires WfImage(l, d)
  {
    var blocks := HeaderBlocks(d[l.start]);
    Cleared(l, Installed(l, d, blocks, |blocks|))
  }

  /** The images the disk can have while recover_from_log runs on d: a crash can leave any of them. */
  ghost predicate DuringRecovery(l: Layout, d: Image, t: Image)
    requires WfImage(l, d)
  {
    t == Recovered(l, d)
    || exists k :: 0 <= k <= HeaderCount(d[l.start]) && t == Installed(l, d, HeaderBlocks(d[l.start]), k)
  }

  /** Equal outside the log area. */
  ghost predicate HomeEq(l: Layout, a: Image, b: Image) {
    |a| == |b| && forall k :: 0 <= k < |a| && !InLog(l, k) ==> a[k] == b[k]
  }

  lemma {:induction false} InstalledAgree(l: Layout, a: Image, b: Image, blocks: seq<nat>, k: nat)
    requires |a| == |b| && Targets(l, |a|, blocks) && k <= |blocks|
    requires forall i :: 0 <= i < |a| && InLog(l, i) ==> a[i] == b[i]
    ensures forall i ::
              0 <= i < |a| && (i in blocks[..k] || a[i] == b[i]) ==>
                Installed(l, a, blocks, k)[i] == Installed(l, b, blocks, k)[i]
  {
    if k > 0 {
      InstalledAgree(l, a, b, blocks, k - 1);
      assert blocks[..k] == blocks[..k - 1] + [blocks[k - 1]];
    }
  }

  lemma {:induction false} InstalledElsewhere(l: Layout, d: Image, blocks: seq<nat>, k: nat)
    requires Targets(l, |d|, blocks) && k <= |blocks|
    ensures forall i :: 0 <= i < |d| && i !in blocks[..k] ==> Installed(l, d, blocks, k)[i] == d[i]
  {
    if k > 0 {
      InstalledElsewhere(l, d, blocks, k - 1);
      assert blocks[..k] == blocks[..k - 1] + [blocks[k - 1]];
    }
  }

  lemma {:induction false} InstalledAt(l: Layout, d: Image, blocks: seq<nat>, k: nat, j: nat)
    requires Targets(l, |d|, blocks) && j < k <= |blocks|
    requires forall x, y :: 0 <= x < y < |blocks| ==> blocks[x] != blocks[y]
    ensures Installed(l, d, blocks, k)[blocks[j]] == d[l.start + 1 + j]
  {
    if j < k - 1 { InstalledAt(l, d, blocks, k - 1, j); }
  }

  /** A disk whose header is empty recovers to itself. */
  lemma EmptyHeader(l: Layout, d: Image)
    requires LOGSIZE < l.size && l.start + l.size <= |d| && HeaderCount(d[l.start]) == 0
    ensures WfImage(l, d) && Recovered(l, d) == d
  {
    assert HeaderBlocks(d[l.start]) == [];
    ClearSame(l, d);
  }

  lemma ClearSame(l: Layout, d: Image)
    requires l.start < |d| && GetWord(d[l.start], 0) == 0
    ensures Cleared(l, d) == d
  {
    hide PutWord, GetWord;
    PutSameWord(d[l.start], 0);
  }

  lemma ClearedHeader(l: Layout, d: Image)
    requires l.start < |d|
    ensures HeaderCount(Cleared(l, d)[l.start]) == 0
  {
    PutGetWord(d[l.start], 0, 0, 0);
  }

  /** Recovery may crash and start over: whatever it leaves behind recovers to the same disk. */
  lemma RecoveryRestarts(l: Layout, d: Image, t: Image)
    requires WfImage(l, d) && DuringRecovery(l, d, t)
    ensures WfImage(l, t) && Recovered(l, t) == Recovered(l, d)
  {
    var blocks := HeaderBlocks(d[l.start]);
    if t == Recovered(l, d) {
      ClearedHeader(l, Installed(l, d, blocks, |blocks|));
      EmptyHeader(l, t);
    } else {
      var k :| 0 <= k <= |blocks| && t == Installed(l, d, blocks, k);
      InstalledElsewhere(l, d, blocks, k);
      InstalledAgree(l, t, d, blocks, |blocks|);
      assert blocks[..|blocks|] == blocks;
      assert Installed(l, t, blocks, |blocks|) == Installed(l, d, blocks, |blocks|);
    }
  }

  /** ... however many times it crashes. */
  lemma {:induction false} AnyNumberOfRestarts(l: Layout, run: seq<Image>)
    requires |run| > 0 && WfImage(l, run[0])
    requires forall i :: 0 <= i < |run| - 1 ==> WfImage(l, run[i]) ==> DuringRecovery(l, run[i], run[i + 1])
    ensures WfImage(l, run[|run| - 1]) && Recovered(l, run[|run| - 1]) == Recovered(l, run[0])
  {
    if |run| > 1 {
      var most := run[..|run| - 1];
      AnyNumberOfRestarts(l, most);
      RecoveryRestarts(l, run[|run| - 2], run[|run| - 1]);
    }
  }

  // ---------- the images a commit goes through ----------

  ghost predicate DistinctBlocks(s: seq<nat>) {
    forall i, j :: 0 <= i < j < |s| ==> s[i] != s[j]
  }

  /** d with log blocks filled from the cached contents, k of them so far. */
  ghost predicate LogFilled(l: Layout, d: Image, t: Image, lh: seq<nat>, logical: Image, k: nat)
    requires Targets(l, |d|, lh) && |logical| == |d| && k <= |lh|
  {
    && |t| == |d| && HomeEq(l, d, t) && t[l.start] == d[l.start]
    && forall i :: 0 <= i < k ==> t[l.start + 1 + i] == logical[lh[i]]
  }

  /** The image right after the commit's header write. */
  ghost function Committed(l: Layout, t: Image, lh: seq<nat>): Image
    requires Targets(l, |t|, lh)
  {
    t[l.start := PutHeader(t[l.start], lh, |lh|)]
  }

  /** Before the header write a crash loses the whole transaction. */
  lemma CrashBeforeCommit(l: Layout, d: Image, t: Image, lh: seq<nat>, logical: Image, k: nat)
    requires Targets(l, |d|, lh) && |logical| == |d| && k <= |lh|
    requires HeaderCount(d[l.start]) == 0 && LogFilled(l, d, t, lh, logical, k)
    ensures WfImage(l, t) && HomeEq(l, Recovered(l, t), d)
  {
    EmptyHeader(l, t);
  }

  /** From the header write on, a crash loses nothing of it. */
  lemma CrashAfterCommit(l: Layout, d: Image, t: Image, lh: seq<nat>, logical: Image)
    requires Targets(l, |d|, lh) && |logical| == |d| && DistinctBlocks(lh)
    requires LogFilled(l, d, t, lh, logical, |lh|)
    requires forall k :: 0 <= k < |d| && !InLog(l, k) && k !in lh ==> d[k] == logical[k]
    ensures var c := Committed(l, t, lh);
            WfImage(l, c) && HeaderBlocks(c[l.start]) == lh && HomeEq(l, Recovered(l, c), logical)
  {
    var c := Committed(l, t, lh);
    HeaderRoundTrip(t[l.start], lh);
    InstalledElsewhere(l, c, lh, |lh|);
    assert lh[..|lh|] == lh;
    forall k | 0 <= k < |d| && !InLog(l, k) ensures Recovered(l, c)[k] == logical[k] {
      if k in lh {
        var j :| 0 <= j < |lh| && lh[j] == k;
        InstalledAt(l, c, lh, |lh|, j);
      }
    }
  }

  /** The images of the first rounds of write_log, appended to the trace so far. */
  ghost predicate WriteLogTrace(l: Layout, was: seq<Image>, now: seq<Image>, lh: seq<nat>, logical: Image)
    requires |was| > 0 && Targets(l, |was[|was| - 1]|, lh) && |logical| == |was[|was| - 1]|
  {
    && |was| <= |now| <= |was| + |lh| && now[..|was|] == was
    && forall i :: |was| - 1 <= i < |now| ==> LogFilled(l, was[|was| - 1], now[i], lh, logical, i - |was| + 1)
  }

  lemma WriteLogTraceStarts(l: Layout, was: seq<Image>, lh: seq<nat>, logical: Image)
    requires |was| > 0 && Targets(l, |was[|was| - 1]|, lh) && |logical| == |was[|was| - 1]|
    ensures WriteLogTrace(l, was, was, lh, logical)
  {
  }

  lemma WriteLogTraceStep(l: Layout, was: seq<Image>, now: seq<Image>, lh: seq<nat>, logical: Image)
    requires |was| > 0 && Targets(l, |was[|was| - 1]|, lh) && |logical| == |was[|was| - 1]|
    requires WriteLogTrace(l, was, now, lh, logical) && |now| < |was| + |lh|
    ensures var tail := |now| - |was|; var d := now[|now| - 1];
            |d| == |logical| && WriteLogTrace(l, was, now + [d[l.start + tail + 1 := logical[lh[tail]]]], lh, logical)
  {
    var tail, d := |now| - |was|, now[|now| - 1];
    assert LogFilled(l, was[|was| - 1], d, lh, logical, tail);
    assert LogFilled(l, was[|was| - 1], d[l.start + tail + 1 := logical[lh[tail]]], lh, logical, tail + 1);
  }

  ghost predicate InstallTrace(l: Layout, was: seq<Image>, now: seq<Image>, lh: seq<nat>)
    requires |was| > 0 && Targets(l, |was[|was| - 1]|, lh)
  {
    && |was| <= |now| <= |was| + |lh| && now[..|was|] == was
    && forall i :: |was| - 1 <= i < |now| ==> now[i] == Installed(l, was[|was| - 1], lh, i - |was| + 1)
  }

  lemma InstallTraceStarts(l: Layout, t: seq<Image>, lh: seq<nat>)
    requires |t| > 0 && Targets(l, |t[|t| - 1]|, lh)
    ensures InstallTrace(l, t, t, lh)
  {
  }

  lemma InstallTraceStep(l: Layout, was: seq<Image>, now: seq<Image>, lh: seq<nat>)
    requires |was| > 0 && Targets(l, |was[|was| - 1]|, lh) && InstallTrace(l, was, now, lh) && |now| < |was| + |lh|
    ensures var tail := |now| - |was|; var d := now[|now| - 1];
            |d| == |was[|was| - 1]| && InstallTrace(l, was, now + [d[lh[tail] := d[l.start + tail + 1]]], lh)
  {
    var tail, d := |now| - |was|, now[|now| - 1];
    assert d == Installed(l, was[|was| - 1], lh, tail);
  }

  /** The disk has the logical contents of every block that is not in the log. */
  ghost predicate Stored(l: Layout, d: Image, lh: seq<nat>, logical: Image) {
    |logical| == |d| && forall k :: 0 <= k < |d| && !InLog(l, k) && k !in lh ==> d[k] == logical[k]
  }

  /**
    Every image a commit of lh leads through recovers to the old disk before the header write and to the new one from
    then on.
   */
  ghost predicate CommitTrace(l: Layout, was: seq<Image>, now: seq<Image>, lh: seq<nat>, logical: Image) {
    && 0 < |was| <= |now| && now[..|was|] == was && Stored(l, was[|was| - 1], lh, logical)
    && forall i :: |was| <= i < |now| ==>
         WfImage(l, now[i]) && HomeEq(l, Recovered(l, now[i]), if i < |was| + |lh| then was[|was| - 1] else logical)
  }

  lemma FirstPhase(l: Layout, was: seq<Image>, now: seq<Image>, lh: seq<nat>, logical: Image)
    requires |was| > 0 && Targets(l, |was[|was| - 1]|, lh) && |logical| == |was[|was| - 1]|
    requires HeaderCount(was[|was| - 1][l.start]) == 0 && WriteLogTrace(l, was, now, lh, logical)
    requires Stored(l, was[|was| - 1], lh, logical)
    ensures CommitTrace(l, was, now, lh, logical)
  {
    forall i | |was| <= i < |now| ensures WfImage(l, now[i]) && HomeEq(l, Recovered(l, now[i]), was[|was| - 1]) {
      CrashBeforeCommit(l, was[|was| - 1], now[i], lh, logical, i - |was| + 1);
    }
  }

  /** A committed image: its header is the list, and it recovers to the logical disk. */
  ghost predicate AtCommit(l: Layout, c: Image, lh: seq<nat>, logical: Image) {
    WfImage(l, c) && HeaderBlocks(c[l.start]) == lh && HomeEq(l, Recovered(l, c), logical)
  }

  lemma LogAllFilled(l: Layout, t0: seq<Image>, t1: seq<Image>, lh: seq<nat>, logical: Image)
    requires |t0| > 0 && Targets(l, |t0[|t0| - 1]|, lh) && |logical| == |t0[|t0| - 1]|
    requires WriteLogTrace(l, t0, t1, lh, logical) && |t1| == |t0| + |lh|
    ensures LogFilled(l, t0[|t0| - 1], t1[|t1| - 1], lh, logical, |lh|)
  {
    hide LogFilled;
  }

  lemma HeadWritten(l: Layout, t0: seq<Image>, t1: seq<Image>, lh: seq<nat>, logical: Image)
    requires |t0| > 0 && Targets(l, |t0[|t0| - 1]|, lh) && DistinctBlocks(lh) && Stored(l, t0[|t0| - 1], lh, logical)
    requires HeaderCount(t0[|t0| - 1][l.start]) == 0 && WriteLogTrace(l, t0, t1, lh, logical) && |t1| == |t0| + |lh|
    ensures |t1[|t1| - 1]| == |logical| && forall i :: 0 <= i < |lh| ==> t1[|t1| - 1][l.start + 1 + i] == logical[lh[i]]
    ensures var c := Committed(l, t1[|t1| - 1], lh);
            AtCommit(l, c, lh, logical) && CommitTrace(l, t0, t1 + [c], lh, logical)
  {
    hide WriteLogTrace, CommitTrace, HomeEq, Recovered, PutHeader, HeaderCount;
    FirstPhase(l, t0, t1, lh, logical);
    LogAllFilled(l, t0, t1, lh, logical);
    CrashAfterCommit(l, t0[|t0| - 1], t1[|t1| - 1], lh, logical);
    CommitTraceGrows(l, t0, t1, Committed(l, t1[|t1| - 1], lh), lh, logical);
  }

  lemma AfterInstall(l: Layout, t0: seq<Image>, t2: seq<Image>, t3: seq<Image>, lh: seq<nat>, logical: Image)
    requires CommitTrace(l, t0, t2, lh, logical) && |t2| == |t0| + |lh| + 1 && AtCommit(l, t2[|t2| - 1], lh, logical)
    requires InstallTrace(l, t2, t3, lh)
    ensures CommitTrace(l, t0, t3, lh, logical)
  {
    hide Installed, Recovered, HomeEq, Stored;
    var c := t2[|t2| - 1];
    forall i | |t2| <= i < |t3| ensures WfImage(l, t3[i]) && HomeEq(l, Recovered(l, t3[i]), logical) {
      assert DuringRecovery(l, c, t3[i]);
      RecoveryRestarts(l, c, t3[i]);
    }
  }

  lemma ClearedLast(l: Layout, t0: seq<Image>, t2: seq<Image>, t3: seq<Image>, lh: seq<nat>, logical: Image)
    requires |t2| == |t0| + |lh| + 1 && AtCommit(l, t2[|t2| - 1], lh, logical) && CommitTrace(l, t0, t3, lh, logical)
    requires InstallTrace(l, t2, t3, lh) && |t3| == |t2| + |lh|
    ensures var d := Cleared(l, t3[|t3| - 1]);
            HeaderCount(d[l.start]) == 0 && HomeEq(l, d, logical) && CommitTrace(l, t0, t3 + [d], lh, logical)
  {
    hide Installed, HomeEq, CommitTrace;
    var c, s := t2[|t2| - 1], t3[|t3| - 1];
    var d := Cleared(l, s);
    assert d == Recovered(l, c);
    ClearedHeader(l, s);
    assert DuringRecovery(l, c, d);
    RecoveryRestarts(l, c, d);
    EmptyHeader(l, d);
    CommitTraceGrows(l, t0, t3, d, lh, logical);
  }

  lemma CommitTraceGrows(l: Layout, was: seq<Image>, now: seq<Image>, d: Image, lh: seq<nat>, logical: Image)
    requires CommitTrace(l, was, now, lh, logical) && |now| >= |was| + |lh|
    requires WfImage(l, d) && HomeEq(l, Recovered(l, d), logical)
    ensures CommitTrace(l, was, now + [d], lh, logical)
  {
    hide Recovered, WfImage, HomeEq;
  }

  /** The commit point: a crash anywhere in a commit, then any number of crashed recoveries, then one that completes. */
  lemma CommitIsAtomic(l: Layout, was: seq<Image>, now: seq<Image>, lh: seq<nat>, logical: Image, i: nat,
          run: seq<Image>)
    requires CommitTrace(l, was, now, lh, logical) && |was| <= i < |now|
    requires |run| > 0 && run[0] == now[i]
    requires forall j :: 0 <= j < |run| - 1 ==> WfImage(l, run[j]) ==> DuringRecovery(l, run[j], run[j + 1])
    ensures WfImage(l, run[|run| - 1])
    ensures HomeEq(l, Recovered(l, run[|run| - 1]), if i < |was| + |lh| then was[|was| - 1] else logical)
    ensures forall k ::
              0 <= k < |logical| && !InLog(l, k) && k !in lh ==> Recovered(l, run[|run| - 1])[k] == was[|was| - 1][k]
  {
    hide Recovered, DuringRecovery;
    AnyNumberOfRestarts(l, run);
  }

  lemma RecoveryImages(l: Layout, t0: seq<Image>, t1: seq<Image>, blocks: seq<nat>)
    requires |t0| > 0 && WfImage(l, t0[|t0| - 1]) && blocks == HeaderBlocks(t0[|t0| - 1][l.start])
    requires InstallTrace(l, t0, t1, blocks)
    ensures |t0| <= |t1| && forall i :: |t0| <= i < |t1| ==> DuringRecovery(l, t0[|t0| - 1], t1[i])
  {
    hide Installed, Recovered;
  }

  lemma NoImages(l: Layout, t: seq<Image>, lh: seq<nat>, logical: Image)
    requires |t| > 0 && Stored(l, t[|t| - 1], lh, logical)
    ensures CommitTrace(l, t, t, lh, logical)
  {
  }
}
