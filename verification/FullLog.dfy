/**
  A log that is as full as begin_op allows: with as many logged blocks as there are buffers the commit finds no buffer
  to copy them with (kernel/log.c, kernel/bio.c, kernel/param.h).
 */
module FullLog {
  import opened Blocks
  import opened Recovery
  import BufferCache
  import CacheUse
  import LogState
  import Log
  import GC = GroupCommit

  /** Thirty blocks from first on, all behind the log. */
  ghost predicate Thirty(l: Layout, first: nat, size: nat) {
    && LOGSIZE < l.size && l.start + l.size <= first && first + LOGSIZE <= size && first + LOGSIZE < 0x1_0000_0000
  }

  /** Operations 0, 1 and 2 are at work and have logged the first n of these blocks, ten each in turn. */
  ghost predicate Filled(log: Log.Log, first: nat, n: nat)
    reads log, log.cache, log.cache.buf
  {
    && log.Valid() && log.Admitted() && log.dirty == {} && log.held == multiset{} && log.ops.Keys == {0, 1, 2}
    && !log.committing && Thirty(log.l, first, |log.logical|) && |log.logical| == |log.cache.disk| && n <= LOGSIZE
    && log.lh == seq(n, k requires 0 <= k < n => first + k)
    && log.ops[0].added == Part(n, 0) && log.ops[1].added == Part(n, 10) && log.ops[2].added == Part(n, 20)
  }

  function Part(n: nat, from: nat): nat { if n <= from then 0 else if n >= from + 10 then 10 else n - from }

  /** One more block logged: there is a buffer for it as long as the header has room. */
  method FillOne(log: Log.Log, first: nat, n: nat, data: Block)
    requires Filled(log, first, n) && n < LOGSIZE
    modifies log, log.cache, log.cache.buf
    ensures Filled(log, first, n + 1)
  {
    hide BufferCache.Inv, LogState.LogicalOk, LogState.PinsOk, LogState.HeldOk, HomeEq, HeaderCount, GC.Inv;
    hide CacheUse.Spare, Targets, DistinctBlocks, LogState.Truthful;
    LogState.SomeSpare(log.l, log.cache.S(), log.lh, log.held);
    ghost var op := if n < 10 then 0 else if n < 20 then 1 else 2;
    ghost var g := log.G();
    Fits(log, first, n, op);
    var ok := log.Store(first + n, data, op);
    NextFilled(g, first, n, op);
  }

  lemma Fits(log: Log.Log, first: nat, n: nat, op: nat)
    requires Filled(log, first, n) && n < LOGSIZE && op == if n < 10 then 0 else if n < 20 then 1 else 2
    ensures op in log.ops && GC.CanLog(log.G(), op, first + n) && !GC.Panics(log.G(), log.l.size)
    ensures first + n < |log.cache.disk| && !InLog(log.l, first + n)
  {
    hide BufferCache.Inv, LogState.LogicalOk, LogState.PinsOk, LogState.HeldOk, HomeEq, HeaderCount, GC.Inv;
    hide Targets, DistinctBlocks, LogState.Truthful;
    assert log.ops.Keys == {0, 1, 2};
    assert op in log.ops;
  }

  lemma NextFilled(g: GC.G, first: nat, n: nat, op: nat)
    requires g.ops.Keys == {0, 1, 2} && n < LOGSIZE && g.lh == seq(n, k requires 0 <= k < n => first + k)
    requires g.ops[0].added == Part(n, 0) && g.ops[1].added == Part(n, 10) && g.ops[2].added == Part(n, 20)
    requires op == if n < 10 then 0 else if n < 20 then 1 else 2
    ensures op in g.ops
    ensures var h := GC.Logged(g, op, first + n);
            && h.lh == seq(n + 1, k requires 0 <= k < n + 1 => first + k) && h.ops.Keys == {0, 1, 2}
            && h.ops[0].added == Part(n + 1, 0) && h.ops[1].added == Part(n + 1, 10)
            && h.ops[2].added == Part(n + 1, 20) && h.committing == g.committing
  {
    assert g.ops.Keys == {0, 1, 2};
    assert op in g.ops;
    assert GC.Logged(g, op, first + n).lh == seq(n + 1, k requires 0 <= k < n + 1 => first + k);
  }

  /**
    After a boot three operations log ten blocks each, all different, within their reservations. When the last of them
    ends, all thirty buffers are pinned and the commit panics for want of a buffer before it has written anything. Log
    .EndOp says when this happens: exactly when blocks are logged and no buffer is unreferenced.
   */
  method FullLogCannotCommit(l: Layout, image: Image, first: nat, data: Block) returns (log: Log.Log, ok: bool)
    requires Thirty(l, first, |image|) && HeaderCount(image[l.start]) == 0
    ensures fresh(log) && !ok && CacheUse.Spare(log.cache.S()) == {} && |log.lh| == LOGSIZE == NBUF
    ensures log.ops == map[]
  {
    hide BufferCache.Inv, LogState.LogicalOk, LogState.PinsOk, LogState.HeldOk, HomeEq, GC.Inv, CacheUse.Spare;
    hide Targets, DistinctBlocks, LogState.Truthful;
    log := Started(l, image, first);
    for n := 0 to LOGSIZE
      invariant Filled(log, first, n) && fresh(log) && fresh(log.cache) && fresh(log.cache.buf)
    {
      FillOne(log, first, n, data);
    }
    var _ := log.EndOp(0, _ => []);
    var _ := log.EndOp(1, _ => []);
    AllDistinct(log.lh, first);
    LogState.AllPinned(log.cache.S(), log.lh);
    ok := log.EndOp(2, _ => []);
  }

  lemma AllDistinct(lh: seq<nat>, first: nat)
    requires lh == seq(LOGSIZE, k requires 0 <= k < LOGSIZE => first + k)
    ensures DistinctBlocks(lh)
  {
  }

  /** The boot, and three begin_ops. */
  method Started(l: Layout, image: Image, first: nat) returns (log: Log.Log)
    requires Thirty(l, first, |image|) && HeaderCount(image[l.start]) == 0
    ensures Filled(log, first, 0) && fresh(log) && fresh(log.cache) && fresh(log.cache.buf) && log.l == l
  {
    hide BufferCache.ListInv, BufferCache.Counted, LogState.LogicalOk, HomeEq, GC.Inv, CacheUse.Spare;
    hide Targets, DistinctBlocks;
    log := new Log.Log(l, image);
    EmptyHeader(l, image);
    LogState.AllSpare(log.cache.S());
    var ok := log.RecoverFromLog();
    ThreeBegin(log);
  }

  method ThreeBegin(log: Log.Log)
    requires log.Valid() && log.Admitted() && log.lh == [] && log.ops == map[] && !log.committing
    modifies log`outstanding, log`ops
    ensures log.Valid() && log.Admitted() && log.ops.Keys == {0, 1, 2}
    ensures log.ops[0].added == log.ops[1].added == log.ops[2].added == 0
  {
    hide BufferCache.Inv, LogState.LogicalOk, LogState.PinsOk, LogState.HeldOk, HomeEq, GC.Inv, HeaderCount;
    hide Targets, DistinctBlocks, LogState.Truthful;
    var a0 := log.BeginOp(0);
    var a1 := log.BeginOp(1);
    var a2 := log.BeginOp(2);
  }
}
