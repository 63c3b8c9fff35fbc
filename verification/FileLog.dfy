/**
  The file system of kernel/fs.c on the log of kernel/log.c: what the one does in its log_writes is what the other
  asks of its callers, and what a crash leaves of the log's disk still holds the files of a whole number of commits.
 */
module FileLog {
  import opened Blocks
  import BufferCache
  import CacheUse
  import opened Inodes
  import opened Ownership
  import opened Recovery
  import FileSystem
  import GC = GroupCommit
  import Log
  import LogState

  /** mkfs puts the log before the inodes. */
  predicate Apart(l: Layout, sb: Super) { l.start + l.size <= sb.inodestart && LOGSIZE < l.size }

  /** What every step of an operation keeps of the file system, whether or not the step leaves it well-formed. */
  ghost predicate Laid(l: Layout, fs: FileSystem.FileSystem)
    reads fs
  {
    WfSuper(fs.sb) && |fs.d| == fs.sb.size && fs.worst <= |fs.logged| && Apart(l, fs.sb)
  }

  /**
    An operation of the file system that has logged fewer than MAXOPBLOCKS blocks so far may log any block that the
    file system logs: it is not in the log, its number fits the header, log_write does not panic, and the admission
    state keeps its invariant and goes on agreeing about what the operation has logged.
   */
  lemma LogWriteFits(fs: FileSystem.FileSystem, l: Layout, g: GC.G, op: nat, b: nat)
    requires Laid(l, fs) && fs.sb.inodestart <= b < |fs.d|
    requires GC.Inv(g) && op in g.ops && |g.ops[op].blocks| < MAXOPBLOCKS
    ensures !InLog(l, b) && b < 0x1_0000_0000 && !GC.Panics(g, l.size) && GC.CanLog(g, op, b)
    ensures GC.Inv(GC.Logged(g, op, b)) && GC.Logged(g, op, b).ops[op].blocks == g.ops[op].blocks + {b}
  {
    GC.FewBlocksFit(g, op, b, l.size);
    GC.LoggedKeeps(g, op, b);
  }

  /** In any interleaving of operations no file system operation within its reservation meets a panic of log_write. */
  lemma NoPanicInReservation(run: seq<GC.G>, k: nat, fs: FileSystem.FileSystem, l: Layout, op: nat, b: nat)
    requires GC.Run(run) && k < |run| && Laid(l, fs) && fs.sb.inodestart <= b < |fs.d|
    requires op in run[k].ops && |run[k].ops[op].blocks| < MAXOPBLOCKS
    ensures !GC.Panics(run[k], l.size) && GC.Run(run[..k + 1] + [GC.Logged(run[k], op, b)])
  {
    GC.AlwaysInv(run, k);
    LogWriteFits(fs, l, run[k], op, b);
    var r := run[..k + 1] + [GC.Logged(run[k], op, b)];
    assert forall i :: 0 <= i < k ==> GC.Next(run[i], run[i + 1]);
  }

  // ---------- what a crash leaves of the files ----------

  /** A file system when no operation is at work on it: no block on its way, every inode on disk as it is in memory. */
  ghost predicate Settled(f: Fs) {
    Wf(f) && f.extra == {} && forall j :: 0 <= j < |f.inodes| ==> OnDisk(f, j) == f.inodes[j]
  }

  /** The disk holds the files of f: a well-formed file system, the same inodes, bytes and free blocks. */
  ghost predicate HoldsFiles(d: Image, f: Fs)
    requires Settled(f)
  {
    && Settled(On(f, d))
    && (forall j :: 0 <= j < |f.inodes| ==> Contents(d, f.inodes[j]) == Contents(f.d, f.inodes[j]))
    && (forall b :: 0 <= b < f.sb.size ==> Allocated(f.sb, d, b) == Allocated(f.sb, f.d, b))
  }

  ghost predicate Agree(f: Fs, d: Image) {
    |d| == |f.d| && forall k :: f.sb.inodestart <= k < |d| ==> d[k] == f.d[k]
  }

  lemma AllocatedFrom(f: Fs, d: Image, b: nat)
    requires Shape(f) && Agree(f, d) && b < f.sb.size
    ensures BBlock(f.sb, b) < |f.d| && Allocated(f.sb, d, b) == Allocated(f.sb, f.d, b)
  {
    hide Bit;
    BlocksInRange(f.sb, b);
  }

  lemma OnDiskFrom(f: Fs, d: Image, j: nat)
    requires Shape(f) && Agree(f, d) && j < |f.inodes|
    ensures IBlock(f.sb, j) < |f.d| && OnDisk(On(f, d), j) == OnDisk(f, j)
  {
    hide GetDinode;
  }

  lemma WfFrom(f: Fs, d: Image)
    requires Wf(f) && Agree(f, d)
    ensures Wf(On(f, d))
  {
    hide Slot, Allocated;
    var g := On(f, d);
    forall i, s | 0 <= i < |f.inodes| && 0 <= s < SLOTS ensures Slot(g, i, s) == Slot(f, i, s) {
      SlotFrom(f, d, i, s);
    }
    SlotsKept(f, g);
    WholeKept(f, g);
    forall b | 0 <= b < f.sb.size ensures Allocated(f.sb, d, b) == Allocated(f.sb, f.d, b) { AllocatedFrom(f, d, b); }
  }

  /** A file system is read from nothing but the blocks behind the log. */
  lemma FilesBehindLog(l: Layout, f: Fs, d: Image)
    requires Settled(f) && Apart(l, f.sb) && HomeEq(l, d, f.d)
    ensures HoldsFiles(d, f)
  {
    hide Contents, Allocated, OnDisk, Wf;
    FileSystem.ShapeOf(f);
    assert Agree(f, d) && SameDataBlocks(f, d);
    WfFrom(f, d);
    forall j | 0 <= j < |f.inodes|
      ensures f.inodes[j].size <= MAXFILE * BSIZE && Contents(d, f.inodes[j]) == Contents(f.d, f.inodes[j])
    {
      ContentsFrom(f, d, j);
    }
    forall j | 0 <= j < |f.inodes| ensures OnDisk(On(f, d), j) == f.inodes[j] { OnDiskFrom(f, d, j); }
    forall b | 0 <= b < f.sb.size ensures Allocated(f.sb, d, b) == Allocated(f.sb, f.d, b) { AllocatedFrom(f, d, b); }
  }

  /** A crash left image d; then came any number of recoveries that crashed too. */
  ghost predicate Crashed(l: Layout, d: Image, run: seq<Image>) {
    && |run| > 0 && run[0] == d
    && forall j :: 0 <= j < |run| - 1 ==> WfImage(l, run[j]) ==> DuringRecovery(l, run[j], run[j + 1])
  }

  /** However often recovery crashes on an image, in the end it finds the files of f. */
  ghost predicate RecoversTo(l: Layout, d: Image, f: Fs)
    requires Settled(f)
  {
    forall run :: Crashed(l, d, run) ==>
      WfImage(l, run[|run| - 1]) && HoldsFiles(Recovered(l, run[|run| - 1]), f)
  }

  lemma RecoveredFiles(l: Layout, d: Image, f: Fs)
    requires Settled(f) && Apart(l, f.sb) && WfImage(l, d) && HomeEq(l, Recovered(l, d), f.d)
    ensures RecoversTo(l, d, f)
  {
    hide Recovered, DuringRecovery, Settled, HoldsFiles, WfImage, HomeEq;
    forall run | Crashed(l, d, run)
      ensures WfImage(l, run[|run| - 1]) && HoldsFiles(Recovered(l, run[|run| - 1]), f)
    {
      AnyNumberOfRestarts(l, run);
      FilesBehindLog(l, f, Recovered(l, run[|run| - 1]));
    }
  }

  lemma HomeEqTrans(l: Layout, a: Image, b: Image, c: Image)
    requires HomeEq(l, a, b) && HomeEq(l, b, c)
    ensures HomeEq(l, a, c)
  {
  }

  /** Crash anywhere in a commit: the files of the last committed group before the header write, the new ones after. */
  lemma CrashDuringCommit(l: Layout, was: seq<Image>, now: seq<Image>, lh: seq<nat>, f: Fs, g: Fs, i: nat)
    requires CommitTrace(l, was, now, lh, g.d) && HomeEq(l, was[|was| - 1], f.d) && |was| <= i < |now|
    requires Settled(f) && Settled(g) && Apart(l, f.sb) && Apart(l, g.sb)
    ensures RecoversTo(l, now[i], if i < |was| + |lh| then f else g)
  {
    hide Recovered, Settled, RecoversTo, WfImage, HomeEq, Stored;
    if i < |was| + |lh| {
      HomeEqTrans(l, Recovered(l, now[i]), was[|was| - 1], f.d);
      RecoveredFiles(l, now[i], f);
    } else {
      RecoveredFiles(l, now[i], g);
    }
  }

  /** Crash with no commit under way. */
  lemma CrashBetween(l: Layout, d: Image, f: Fs)
    requires Settled(f) && Apart(l, f.sb) && HomeEq(l, d, f.d)
    requires LOGSIZE < l.size && l.start + l.size <= |d| && HeaderCount(d[l.start]) == 0
    ensures RecoversTo(l, d, f)
  {
    hide Recovered, Settled, RecoversTo, HomeEq;
    EmptyHeader(l, d);
    RecoveredFiles(l, d, f);
  }

  /** The file system on the log: what bread returns to fs.c is the logical disk. */
  class Mounted {
    const log: Log.Log
    const fs: FileSystem.FileSystem
    ghost var saved: Fs    // the file system as the last group of operations left it when it was committed

    ghost predicate Valid()
      reads this, fs, log, log.cache, log.cache.buf
    {
      && log.Valid() && log.Admitted() && Laid(log.l, fs) && fs.d == log.logical
      && Settled(saved) && saved.sb == fs.sb && saved.d == log.committed
    }

    /** On the log of a machine that has booted, with the file system that is on its disk. */
    constructor (log: Log.Log, fs: FileSystem.FileSystem)
      requires log.Valid() && log.Admitted() && log.committed == log.logical == fs.d && Laid(log.l, fs)
      requires fs.f.sb == fs.sb && fs.f.d == fs.d && Settled(fs.f)
      ensures Valid() && this.log == log && this.fs == fs && saved == fs.f
    {
      this.log, this.fs, saved := log, fs, fs.f;
    }

    /** Until the next commit begins, a crash leaves the files of the last committed group. */
    lemma CrashNow()
      requires Valid()
      ensures RecoversTo(log.l, log.cache.disk, saved)
    {
      CrashBetween(log.l, log.cache.disk, saved);
    }

    /** One pass of the loop of begin_op. */
    method BeginOp(ghost op: nat) returns (admitted: bool)
      requires Valid() && op !in log.ops
      modifies log`outstanding, log`ops
      ensures Valid() && log.cache.trace == old(log.cache.trace) && (admitted <==> GC.CanBegin(old(log.G())))
      ensures log.G() == if admitted then GC.Begun(old(log.G()), op) else old(log.G())
    {
      hide CacheUse.Spare, BufferCache.Inv, LogState.LogicalOk, HomeEq, Settled, HeaderCount, Targets, DistinctBlocks;
      hide GC.Inv;
      admitted := log.BeginOp(op);
    }

    /** A block as fs.c reads it through the log is the block of the file system's disk. */
    method Look(b: nat) returns (ok: bool, data: Block)
      requires Valid() && fs.sb.inodestart <= b < |fs.d| && b !in log.dirty
      modifies log`held, log.cache`index, log.cache`holders, log.cache`ring, log.cache`pos, log.cache.buf
      ensures Valid() && log.cache.trace == old(log.cache.trace) && (ok ==> data == fs.d[b])
      ensures !ok ==> CacheUse.Spare(old(log.cache.S())) == {}
    {
      hide CacheUse.Spare, BufferCache.Inv, LogState.LogicalOk, HomeEq, Settled, HeaderCount, Targets, DistinctBlocks;
      hide GC.Inv;
      LogState.SameLength(log.l, log.cache.S(), log.lh, log.logical, log.dirty);
      ok, data := log.Look(b);
    }

    /** FileSystem.LogWrite as the calls it stands for, by any of the operations at work. */
    method LogWrite(b: nat, data: Block, ghost op: nat) returns (ok: bool)
      requires Valid() && fs.sb.inodestart <= b < |fs.d| && b !in log.dirty
      requires op in log.ops && |log.ops[op].blocks| < MAXOPBLOCKS
      modifies fs`d, fs`logged, fs`worst, log, log.cache, log.cache.buf
      ensures Valid() && log.cache.trace == old(log.cache.trace) && log.dirty == old(log.dirty)
      ensures ok ==> fs.d == old(fs.d)[b := data] && fs.logged == old(fs.logged) + {b}
      ensures ok ==> log.G() == GC.Logged(old(log.G()), op, b)
      ensures !ok ==> fs.d == old(fs.d) && log.G() == old(log.G()) && CacheUse.Spare(old(log.cache.S())) == {}
    {
      hide CacheUse.Spare, BufferCache.Inv, LogState.LogicalOk, HomeEq, Settled, HeaderCount, Targets, DistinctBlocks;
      hide GC.Inv, GC.CanLog, GC.Panics, GC.Logged, InLog, WfSuper, LogState.PinsOk, LogState.HeldOk, BufferCache.View;
      LogState.SameLength(log.l, log.cache.S(), log.lh, log.logical, log.dirty);
      LogWriteFits(fs, log.l, log.G(), op, b);
      ok := log.Store(b, data, op);
      if ok { fs.LogWrite(b, data); }
    }

    /**
      end_op. Every image the disk goes through recovers to the files of the last committed group or, from the header
      write on, to those that this one leaves.
     */
    method EndOp(ghost op: nat, others: nat -> seq<LogState.Use>) returns (ok: bool)
      requires Valid() && op in log.ops
      requires log.ops.Keys == {op} ==> log.dirty == {} && fs.f.sb == fs.sb && fs.f.d == fs.d && Settled(fs.f)
      modifies this, log, log.cache, log.cache.buf
      ensures |old(log.cache.trace)| <= |log.cache.trace| && fs.d == log.logical
      ensures old(log.ops.Keys) != {op} ==> ok && log.cache.trace == old(log.cache.trace) && saved == old(saved)
      ensures old(log.ops.Keys) == {op} ==>
                forall i :: |old(log.cache.trace)| <= i < |log.cache.trace| ==>
                  RecoversTo(log.l, log.cache.trace[i],
                             if i < |old(log.cache.trace)| + |old(log.lh)| then old(saved) else fs.f)
      ensures old(log.ops.Keys) == {op} && ok ==> saved == fs.f
      ensures LogState.NoBreads(others, |old(log.lh)|) && |old(log.held)| + |old(log.lh)| < NBUF ==> ok
      ensures !ok ==> CacheUse.Spare(log.cache.S()) == {}
      ensures ok ==> Valid()
    {
      hide BufferCache.View, BufferCache.ListInv, LogState.PinsOk, LogState.LogicalOk, LogState.HeldOk;
      hide HomeEq, Settled, HeaderCount, Targets, DistinctBlocks, GC.Inv, LogState.Truthful;
      hide RecoversTo, CacheUse.Spare, LogState.NoBreads;
      ghost var was, lh, last := log.cache.trace, log.lh, log.ops.Keys == {op};
      ok := log.EndOp(op, others);
      if last {
        forall i | |was| <= i < |log.cache.trace|
          ensures RecoversTo(log.l, log.cache.trace[i], if i < |was| + |lh| then saved else fs.f)
        {
          CrashDuringCommit(log.l, was, log.cache.trace, lh, saved, fs.f, i);
        }
        if ok { saved := fs.f; }
      }
    }
  }

  /**
    The next boot on an image that a crash left. Recovery may crash too, on any image it leads through; once it is done,
    the logical disk holds the files of f.
   */
  method Reboot(l: Layout, image: Image, ghost f: Fs) returns (log: Log.Log, ok: bool)
    requires LOGSIZE < l.size && l.start + l.size <= |image| && Settled(f) && RecoversTo(l, image, f)
    ensures fresh(log) && log.l == l
    ensures forall i :: 1 <= i < |log.cache.trace| ==> RecoversTo(l, log.cache.trace[i], f)
    ensures ok && log.Valid() && log.Admitted() && log.committed == log.logical && HoldsFiles(log.logical, f)
  {
    hide Settled, HoldsFiles, Recovered, DuringRecovery, WfImage, GC.Inv, BufferCache.ListInv, BufferCache.Counted;
    hide CacheUse.Spare;
    assert Crashed(l, image, [image]);
    log := new Log.Log(l, image);
    LogState.AllSpare(log.cache.S());
    ok := log.RecoverFromLog();
    forall i | 1 <= i < |log.cache.trace| ensures RecoversTo(l, log.cache.trace[i], f) {
      StillRecovers(l, image, log.cache.trace[i], f);
    }
  }

  lemma StillRecovers(l: Layout, d: Image, t: Image, f: Fs)
    requires Settled(f) && RecoversTo(l, d, f) && WfImage(l, d) && DuringRecovery(l, d, t)
    ensures RecoversTo(l, t, f)
  {
    hide Settled, HoldsFiles, Recovered, DuringRecovery, WfImage;
    forall run | Crashed(l, t, run)
      ensures WfImage(l, run[|run| - 1]) && HoldsFiles(Recovered(l, run[|run| - 1]), f)
    {
      assert Crashed(l, d, [d] + run);
    }
  }
}
