/**
  Admission to the log (begin_op, log_write, end_op of kernel/log.c) as the steps of a state machine:
  each step is one critical section under log.lock, taken by any of the outstanding operations.
 */
module GroupCommit {
  import opened Blocks

  /** The commit it will be part of, the blocks it has logged, how many of them it added to the header. */
  datatype Op = Op(epoch: nat, blocks: set<nat>, added: nat)

  datatype G = G(
    lh: seq<nat>,          // block numbers in the in-memory header
    ops: map<nat, Op>,     // outstanding operations
    committing: bool,
    epoch: nat)            // commits completed

  /** What the outstanding operations may still add to the log. */
  ghost function Slack(ops: map<nat, Op>): int
    decreases |ops|
  {
    if |ops| == 0 then 0 else var i :| i in ops; MAXOPBLOCKS - ops[i].added + Slack(ops - {i})
  }

  lemma {:induction false} SlackRemove(ops: map<nat, Op>, i: nat)
    requires i in ops
    ensures Slack(ops) == MAXOPBLOCKS - ops[i].added + Slack(ops - {i})
    decreases |ops|
  {
    var j :| j in ops && Slack(ops) == MAXOPBLOCKS - ops[j].added + Slack(ops - {j});
    if i != j {
      SlackRemove(ops - {j}, i);
      SlackRemove(ops - {i}, j);
      assert ops - {j} - {i} == ops - {i} - {j};
    }
  }

  lemma SlackPut(ops: map<nat, Op>, i: nat, o: Op)
    ensures Slack(ops[i := o]) == MAXOPBLOCKS - o.added + Slack(ops - {i})
  {
    SlackRemove(ops[i := o], i);
    assert ops[i := o] - {i} == ops - {i};
  }

  lemma {:induction false} SlackBound(ops: map<nat, Op>)
    requires forall i :: i in ops ==> ops[i].added <= MAXOPBLOCKS
    ensures 0 <= Slack(ops) <= |ops| * MAXOPBLOCKS
    decreases |ops|
  {
    if |ops| != 0 {
      var i :| i in ops;
      SlackRemove(ops, i);
      SlackBound(ops - {i});
    }
  }

  ghost predicate Inv(g: G) {
    && (forall i, j :: 0 <= i < j < |g.lh| ==> g.lh[i] != g.lh[j])
    && (forall i :: i in g.ops ==> g.ops[i].added <= MAXOPBLOCKS && g.ops[i].epoch == g.epoch)
    && (forall i :: i in g.ops ==> g.ops[i].added <= |g.ops[i].blocks|)
    && (forall i, k :: i in g.ops && k in g.ops[i].blocks ==> k in g.lh)
    && |g.lh| + Slack(g.ops) <= LOGSIZE
    && (g.committing ==> |g.ops| == 0)
  }

  // ---------- the steps ----------

  /** begin_op's two tests: no commit is running and the worst case still fits. */
  ghost predicate CanBegin(g: G) {
    !g.committing && |g.lh| + (|g.ops| + 1) * MAXOPBLOCKS <= LOGSIZE
  }

  ghost function Begun(g: G, op: nat): G { g.(ops := g.ops[op := Op(g.epoch, {}, 0)]) }

  /** log_write's absorption: a block already in the header is not added again. */
  ghost function Absorbed(lh: seq<nat>, k: nat): seq<nat> { if k in lh then lh else lh + [k] }

  ghost function Logs(o: Op, lh: seq<nat>, k: nat): Op {
    Op(o.epoch, o.blocks + {k}, if k in lh then o.added else o.added + 1)
  }

  ghost function Logged(g: G, op: nat, k: nat): G
    requires op in g.ops
  {
    g.(lh := Absorbed(g.lh, k), ops := g.ops[op := Logs(g.ops[op], g.lh, k)])
  }

  /** There is room in the header, and an operation adds at most MAXOPBLOCKS entries; absorbed blocks are free. */
  ghost predicate CanLog(g: G, op: nat, k: nat) {
    op in g.ops && |g.lh| < LOGSIZE && (k in g.lh || g.ops[op].added < MAXOPBLOCKS)
  }

  ghost function Ended(g: G, op: nat): G {
    g.(ops := g.ops - {op}, committing := g.ops.Keys - {op} == {})
  }

  ghost function CommitDone(g: G): G { g.(lh := [], committing := false, epoch := g.epoch + 1) }

  ghost predicate Next(g: G, h: G) {
    || (exists op :: op !in g.ops && CanBegin(g) && h == Begun(g, op))
    || (exists op, k :: CanLog(g, op, k) && h == Logged(g, op, k))
    || (exists op :: op in g.ops && h == Ended(g, op))
    || (g.committing && h == CommitDone(g))
  }

  const Init := G([], map[], false, 0)

  // ---------- every step keeps the invariant ----------

  lemma BegunSlack(g: G, op: nat)
    requires Inv(g) && op !in g.ops
    ensures Slack(Begun(g, op).ops) == MAXOPBLOCKS + Slack(g.ops) <= MAXOPBLOCKS + |g.ops| * MAXOPBLOCKS
  {
    SlackBound(g.ops);
    SlackPut(g.ops, op, Op(g.epoch, {}, 0));
    assert g.ops - {op} == g.ops;
  }

  lemma BegunKeeps(g: G, op: nat)
    requires Inv(g) && op !in g.ops && CanBegin(g)
    ensures Inv(Begun(g, op))
  {
    BegunSlack(g, op);
    hide Slack;
  }

  lemma LoggedSlack(g: G, op: nat, k: nat)
    requires op in g.ops
    ensures |Logged(g, op, k).lh| + Slack(Logged(g, op, k).ops) == |g.lh| + Slack(g.ops)
  {
    SlackRemove(g.ops, op);
    SlackPut(g.ops, op, Logs(g.ops[op], g.lh, k));
  }

  lemma LoggedKeeps(g: G, op: nat, k: nat)
    requires Inv(g) && op in g.ops && (k in g.lh || g.ops[op].added < MAXOPBLOCKS)
    ensures Inv(Logged(g, op, k))
  {
    hide Slack;
    LoggedSlack(g, op, k);
    var o, p := g.ops[op], Logs(g.ops[op], g.lh, k);
    assert k in o.blocks ==> p.blocks == o.blocks;
  }

  lemma EndedKeeps(g: G, op: nat)
    requires Inv(g) && op in g.ops
    ensures Inv(Ended(g, op))
  {
    SlackRemove(g.ops, op);
    assert (g.ops - {op}).Keys == g.ops.Keys - {op};
  }

  lemma CommitDoneKeeps(g: G)
    requires Inv(g) && g.committing
    ensures Inv(CommitDone(g))
  {
    SlackBound(g.ops);
  }

  lemma NextKeeps(g: G, h: G)
    requires Inv(g) && Next(g, h)
    ensures Inv(h)
  {
    if op :| op !in g.ops && CanBegin(g) && h == Begun(g, op) {
      BegunKeeps(g, op);
    } else if op, k :| CanLog(g, op, k) && h == Logged(g, op, k) {
      LoggedKeeps(g, op, k);
    } else if op :| op in g.ops && h == Ended(g, op) {
      EndedKeeps(g, op);
    } else {
      CommitDoneKeeps(g);
    }
  }

  /** The invariant holds in every state of every interleaving. */
  lemma {:induction false} AlwaysInv(run: seq<G>, n: nat)
    requires Run(run) && n < |run|
    ensures Inv(run[n])
  {
    if n == 0 {
      SlackBound(map[]);
    } else {
      AlwaysInv(run, n - 1);
      NextKeeps(run[n - 1], run[n]);
    }
  }

  /** log_write's two panics. */
  ghost predicate Panics(g: G, size: nat) {
    |g.lh| >= LOGSIZE || |g.lh| >= size - 1 || |g.ops| < 1
  }

  /**
    log_write tests for space before it looks for the block, so an outstanding operation panics exactly
    when the header is full; then every outstanding operation has added all its MAXOPBLOCKS entries.
    An operation with budget left never panics; one without may, even on a block it has already logged.
   */
  lemma PanicsExactly(g: G, op: nat, size: nat)
    requires Inv(g) && op in g.ops && LOGSIZE < size
    ensures Panics(g, size) <==> |g.lh| == LOGSIZE
    ensures Panics(g, size) ==> forall i :: i in g.ops ==> g.ops[i].added == MAXOPBLOCKS
  {
    SlackBound(g.ops);
    forall i | i in g.ops ensures Slack(g.ops) >= MAXOPBLOCKS - g.ops[i].added {
      SlackRemove(g.ops, i);
      SlackBound(g.ops - {i});
    }
    SlackRemove(g.ops, op);
  }

  lemma RoomLeft(g: G, op: nat, size: nat)
    requires Inv(g) && op in g.ops && g.ops[op].added < MAXOPBLOCKS && LOGSIZE < size
    ensures !Panics(g, size)
  {
    PanicsExactly(g, op, size);
  }

  /** An operation that has logged fewer than MAXOPBLOCKS different blocks can log any block. */
  lemma FewBlocksFit(g: G, op: nat, k: nat, size: nat)
    requires Inv(g) && op in g.ops && |g.ops[op].blocks| < MAXOPBLOCKS && LOGSIZE < size
    ensures !Panics(g, size) && CanLog(g, op, k) && Logged(g, op, k).ops[op].blocks == g.ops[op].blocks + {k}
  {
    RoomLeft(g, op, size);
  }

  ghost predicate Run(run: seq<G>) {
    |run| > 0 && run[0] == Init && forall i :: 0 <= i < |run| - 1 ==> Next(run[i], run[i + 1])
  }

  ghost function Interval(a: nat, b: nat): (r: set<nat>)
    ensures forall k :: k in r <==> a <= k < b
    decreases b - a
  {
    if a < b then {a} + Interval(a + 1, b) else {}
  }

  /** The state after operations 0, 1 and 2 have logged blocks 0 to n - 1, ten blocks each. */
  ghost function Filling(n: nat): G {
    var a := if n <= 10 then n else 10;
    var b := if n <= 10 then 10 else if n <= 20 then n else 20;
    var c := if n <= 20 then 20 else n;
    var first := Op(0, Interval(0, a), a);
    var second := Op(0, Interval(10, b), b - 10);
    var third := Op(0, Interval(20, c), c - 20);
    G(seq(n, k => k), map[0 := first, 1 := second, 2 := third], false, 0)
  }

  lemma FillingStarts() returns (run: seq<G>)
    ensures Run(run) && run[|run| - 1] == Filling(0)
  {
    var g1, g2 := Begun(Init, 0), Begun(Begun(Init, 0), 1);
    assert CanBegin(Init) && CanBegin(g1) && CanBegin(g2);
    run := [Init, g1, g2, Begun(g2, 2)];
    assert Interval(0, 0) == Interval(10, 10) == Interval(20, 20) == {};
    assert Begun(g2, 2) == Filling(0);
  }

  lemma FillingStep(n: nat)
    requires n < 30
    ensures Next(Filling(n), Filling(n + 1))
  {
    hide Interval;
    var g, op := Filling(n), if n < 10 then 0 else if n < 20 then 1 else 2;
    assert Interval(10 * op, n) + {n} == Interval(10 * op, n + 1);
    assert CanLog(g, op, n);
    assert Logged(g, op, n).lh == Filling(n + 1).lh;
    assert Logged(g, op, n) == Filling(n + 1);
  }

  lemma {:induction false} FillingReached(n: nat) returns (run: seq<G>)
    requires n <= 30
    ensures Run(run) && run[|run| - 1] == Filling(n)
  {
    hide Next, Filling;
    if n == 0 {
      run := FillingStarts();
    } else {
      run := FillingReached(n - 1);
      FillingStep(n - 1);
      run := run + [Filling(n)];
    }
  }

  /**
    Three operations that log ten blocks each fill the header; the next log_write panics, even on a block already
    there.
   */
  lemma FullHeaderPanics(size: nat) returns (run: seq<G>)
    requires LOGSIZE < size
    ensures Run(run)
    ensures var g := run[|run| - 1]; 0 in g.ops && 0 in g.ops[0].blocks && 0 in g.lh && Panics(g, size)
  {
    run := FillingReached(30);
    assert Filling(30).lh[0] == 0;
  }

  // ---------- when an operation is refused ----------

  /** After the last operation out the log is empty again. */
  ghost predicate Quiet(g: G) { g.ops == map[] && !g.committing ==> g.lh == [] }

  lemma {:induction false} AlwaysQuiet(run: seq<G>, n: nat)
    requires Run(run) && n < |run|
    ensures Quiet(run[n])
  {
    hide Next, Quiet;
    if n == 0 {
      assert Quiet(Init) by { StartsQuiet(); }
    } else {
      AlwaysQuiet(run, n - 1);
      QuietKept(run[n - 1], run[n]);
    }
  }

  lemma StartsQuiet()
    ensures Quiet(Init)
  {
  }

  lemma QuietKept(g: G, h: G)
    requires Next(g, h)
    ensures Quiet(h)
  {
    if op :| op !in g.ops && CanBegin(g) && h == Begun(g, op) {
      assert op in h.ops;
    } else if op, k :| CanLog(g, op, k) && h == Logged(g, op, k) {
      assert op in h.ops;
    } else if op :| op in g.ops && h == Ended(g, op) {
      assert h.ops.Keys == g.ops.Keys - {op};
    }
  }

  /**
    In every interleaving an operation has to wait only while a commit is under way or others are at work: with nobody
    at work there is room. Right after a commit there is room for three.
   */
  lemma RefusedOnlyWhenBusy(run: seq<G>, n: nat)
    requires Run(run) && n < |run|
    ensures !CanBegin(run[n]) ==> run[n].committing || |run[n].ops| > 0
    ensures run[n].lh == [] ==> (CanBegin(run[n]) <==> !run[n].committing && |run[n].ops| < 3)
  {
    AlwaysQuiet(run, n);
  }

  /**
    A refusal is needed, in that admitting would break the invariant, whenever no operation at work has added entries
    yet; in general admission is never wrong.
   */
  lemma AdmissionExactly(g: G, op: nat)
    requires Inv(g) && op !in g.ops
    ensures CanBegin(g) ==> Inv(Begun(g, op))
    ensures (forall i :: i in g.ops ==> g.ops[i].added == 0) ==> (CanBegin(g) <==> Inv(Begun(g, op)))
  {
    if CanBegin(g) { BegunKeeps(g, op); }
    BegunSlack(g, op);
    if forall i :: i in g.ops ==> g.ops[i].added == 0 { NothingAdded(g.ops); }
  }

  lemma {:induction false} NothingAdded(ops: map<nat, Op>)
    requires forall i :: i in ops ==> ops[i].added == 0
    ensures Slack(ops) == |ops| * MAXOPBLOCKS
    decreases |ops|
  {
    if |ops| != 0 {
      var i :| i in ops;
      SlackRemove(ops, i);
      NothingAdded(ops - {i});
    }
  }

  /**
    begin_op counts the entries that operations at work have added twice, so it can make one wait that would fit: here
    after one block logged by the first of two.
   */
  lemma RefusedThoughItFits() returns (run: seq<G>)
    ensures Run(run)
    ensures var g := run[|run| - 1]; !g.committing && !CanBegin(g) && 2 !in g.ops && Inv(Begun(g, 2))
  {
    hide Slack, Inv;
    var g1, g2 := Begun(Init, 0), Begun(Begun(Init, 0), 1);
    var g3 := Logged(g2, 0, 100);
    assert CanBegin(Init) && CanBegin(g1) && CanLog(g2, 0, 100);
    run := [Init, g1, g2, g3];
    AlwaysInv(run, 0);
    AlwaysInv(run, 1);
    AlwaysInv(run, 3);
    BegunSlack(Init, 0);
    BegunSlack(g1, 1);
    assert Slack(Init.ops) == 0 by { NoneAtWork(); }
    LoggedSlack(g2, 0, 100);
    assert g3.ops.Keys == {0, 1};
    FitsThen(g3, 2);
  }

  lemma NoneAtWork()
    ensures Slack(Init.ops) == 0
  {
  }

  /** With room for ten more entries one more operation keeps the invariant. */
  lemma FitsThen(g: G, op: nat)
    requires Inv(g) && op !in g.ops && !g.committing && |g.lh| + Slack(g.ops) + MAXOPBLOCKS <= LOGSIZE
    ensures Inv(Begun(g, op))
  {
    BegunSlack(g, op);
    hide Slack;
  }
}
