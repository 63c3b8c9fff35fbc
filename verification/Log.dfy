/** The log as kernel/log.c runs it, over the buffer cache. */
module Log {
  import opened Blocks
  import opened BufferCache
  import opened CacheUse
  import opened LogState
  import opened Recovery
  import GC = GroupCommit

  /** The stores of write_head. */
  method FormatHeader(b: Block, blocks: seq<nat>) returns (r: Block)
    requires |blocks| <= LOGSIZE && forall i :: 0 <= i < |blocks| ==> blocks[i] < 0x1_0000_0000
    ensures r == PutHeader(b, blocks, |blocks|)
  {
    hide PutWord;
    r := PutWord(b, 0, |blocks|);
    for i := 0 to |blocks|
      invariant r == PutHeader(b, blocks, i)
    {
      r := PutWord(r, i + 1, blocks[i]);
    }
  }

  /** The loads of read_head. */
  method ParseHeader(b: Block) returns (blocks: seq<nat>)
    requires HeaderCount(b) <= LOGSIZE
    ensures blocks == HeaderBlocks(b)
  {
    hide GetWord;
    var n := GetWord(b, 0);
    blocks := [];
    for i := 0 to n
      invariant |blocks| == i && forall j :: 0 <= j < i ==> blocks[j] == GetWord(b, j + 1)
    {
      blocks := blocks + [GetWord(b, i + 1)];
    }
  }

  class Log {
    const l: Layout
    const cache: Cache
    var lh: seq<nat>                // lh.block[..lh.n]
    var outstanding: nat
    var committing: bool
    var held: multiset<nat>         // buffers that file system code has got and not yet given back
    ghost var logical: Image        // each block as its last log_write stored it
    ghost var committed: Image      // the logical disk at the last commit
    ghost var dirty: set<nat>       // blocks changed in the cache and not yet passed to log_write
    ghost var ops: map<nat, GC.Op>
    ghost var epoch: nat
    ghost var answers: seq<Answer>  // what the breads outside this module's own have returned

    ghost function G(): GC.G
      reads this
    {
      GC.G(lh, ops, committing, epoch)
    }

    /** The admission state is one of GroupCommit's. */
    ghost predicate Admitted()
      reads this
    {
      GC.Inv(G()) && outstanding == |ops|
    }

    constructor (layout: Layout, image: Image)
      requires LOGSIZE < layout.size && layout.start + layout.size <= |image|
      ensures l == layout && fresh(cache) && fresh(cache.buf) && cache.Valid() && cache.trace == [image] && lh == []
      ensures cache.pins == seq(NBUF, _ => 0) && cache.holders == seq(NBUF, _ => 0) && cache.index == map[]
      ensures committed == logical == image && dirty == {} && held == multiset{} && answers == []
      ensures Admitted() && ops == map[] && !committing
    {
      l := layout;
      cache := new Cache(image);
      lh, logical, committed, dirty, held, answers := [], image, image, {}, multiset{}, [];
      outstanding, committing, ops, epoch := 0, false, map[], 0;
    }

    ghost predicate Core()
      reads this, cache, cache.buf
    {
      cache.Valid() && Targets(l, |cache.disk|, lh) && Truthful(answers)
    }

    ghost predicate Valid()
      reads this, cache, cache.buf
    {
      && Core() && PinsOk(cache.S(), lh) && LogicalOk(l, cache.S(), lh, logical, dirty)
      && DistinctBlocks(lh) && HeaderCount(cache.disk[l.start]) == 0 && HeldOk(l, cache.S(), held)
      && HomeEq(l, cache.disk, committed)
    }

    /**
      bread(src), bread(dst) in either order, memmove, bwrite(dst), optional bunpin(dst), brelse both: the
      body of the loops of write_log and install_trans. False stands for the panic "bget: no buffers".
     */
    method CopyBlock(src: nat, dst: nat, srcFirst: bool, unpin: bool) returns (ok: bool)
      requires cache.Valid() && src < |cache.disk| && dst < |cache.disk| && src != dst
      requires unpin ==> dst in cache.index && cache.pins[cache.index[dst]] > 0
      modifies cache, cache.buf
      ensures cache.Valid()
      ensures !ok ==> cache.disk == old(cache.disk) && cache.trace == old(cache.trace)
      ensures ok ==>
                && Rewritten(old(cache.S()), cache.S(), dst, View(old(cache.S()), src))
                   && cache.trace == old(cache.trace) + [cache.disk]
                && cache.pins ==
                     if unpin then old(cache.pins)[old(cache.index)[dst] := old(cache.pins)[old(cache.index)[dst]] - 1]
                                 else old(cache.pins)
      ensures ok ==>
                PairFits(old(cache.S()), src, dst, srcFirst) && Spare(old(cache.S())) <= Spare(cache.S())
      ensures !ok ==> Spare(cache.S()) == {} && !PairSurelyFits(old(cache.S()), src, dst, srcFirst)
    {
      hide View, ListInv, StillIndexed, SameView, Rewritten, Spare, PairFits, PairSurelyFits;
      ghost var s := cache.S();
      var from, to := ReadPair(src, dst, srcFirst);
      ok := from != HEAD && to != HEAD;
      if !ok { return; }
      MoveAndRelease(src, dst, from, to, unpin, s);
      CopySpares(s, cache.S(), dst, View(s, src), to, unpin);
    }

    method MoveInto(from: nat, to: nat, unpin: bool)
      requires cache.Valid() && from < NBUF && to < NBUF && from != to && cache.buf[to].valid
               && cache.buf[to].dev == ROOTDEV
      requires cache.holders[to] > 0 && (unpin ==> cache.pins[to] > 0)
      modifies cache`disk, cache`trace, cache`pins, cache.buf
      ensures cache.Valid() && Moved(old(cache.S()), cache.S(), from, to, unpin)
      ensures cache.trace == old(cache.trace) + [cache.disk]
    {
      hide View, ListInv, SameView;
      ghost var t := cache.S();
      cache.Fill(to, cache.buf[from].data);
      cache.Bwrite(to);
      MoveKeeps(t, from, to);
      if unpin {
        UnpinKeeps(t, cache.S(), from, to);
        cache.Bunpin(to);
      }
    }

    method ReadPair(src: nat, dst: nat, srcFirst: bool) returns (from: nat, to: nat)
      requires cache.Valid() && src < |cache.disk| && dst < |cache.disk| && src != dst
      modifies cache`index, cache`holders, cache.buf
      ensures cache.Valid()
      ensures from != HEAD && to != HEAD ==> HeldPair(old(cache.S()), cache.S(), src, from, dst, to)
      ensures from != HEAD && to != HEAD && dst in old(cache.index) && cache.pins[old(cache.index)[dst]] > 0 ==>
                to == old(cache.index)[dst]
      ensures from != HEAD && to != HEAD ==> PairFits(old(cache.S()), src, dst, srcFirst)
      ensures from == HEAD || to == HEAD ==>
                Spare(cache.S()) == {} && !PairSurelyFits(old(cache.S()), src, dst, srcFirst)
    {
      hide Spare, ListInv, Indexed, Counted, View, StillIndexed;
      from, to := HEAD, HEAD;
      ghost var s := cache.S();
      Lengths(s);
      if srcFirst {
        from := cache.Bread(ROOTDEV, src);
        if from == HEAD { FirstFails(s, src, dst); return; }
        ghost var m := cache.S();
        GotSpare(s, m, src, from);
        to := cache.Bread(ROOTDEV, dst);
        if to == HEAD { SecondFails(s, m, src, from, dst); return; }
        PairHeld(s, m, cache.S(), src, from, dst, to);
      } else {
        to := cache.Bread(ROOTDEV, dst);
        if to == HEAD { FirstFails(s, dst, src); return; }
        ghost var m := cache.S();
        GotSpare(s, m, dst, to);
        from := cache.Bread(ROOTDEV, src);
        if from == HEAD { SecondFails(s, m, dst, to, src); return; }
        PairHeld(s, m, cache.S(), dst, to, src, from);
        HeldEitherWay(s, cache.S(), dst, to, src, from);
      }
      PinnedStays(s, cache.S(), src, from, dst, to);
    }

    /** memmove, bwrite(to), optional bunpin(to), brelse(from), brelse(to). */
    method MoveAndRelease(src: nat, dst: nat, from: nat, to: nat, unpin: bool, ghost s: State)
      requires cache.Valid() && Inv(s) && src < |s.disk| && dst < |s.disk| && src != dst
      requires HeldPair(s, cache.S(), src, from, dst, to)
      requires unpin ==> s.pins[to] > 0
      modifies cache, cache.buf
      ensures cache.Valid() && Rewritten(s, cache.S(), dst, View(s, src))
      ensures cache.trace == old(cache.trace) + [cache.disk]
      ensures cache.pins == if unpin then s.pins[to := s.pins[to] - 1] else s.pins
    {
      hide View, ListInv, StillIndexed, SameView, Rewritten;
      ghost var t := cache.S();
      MoveInto(from, to, unpin);
      ghost var m := cache.S();
      cache.Brelse(from);
      ghost var n := cache.S();
      cache.Brelse(to);
      CopyFinished(s, t, m, n, cache.S(), src, from, dst, to, unpin);
    }

    // ---------- other processes between the log's own steps ----------

    /** A bread by another process; pending is what is still logged and not yet at home. */
    method ServeGet(blockno: nat, ghost pending: seq<nat>) returns (ok: bool)
      requires Core() && HeldOk(l, cache.S(), held) && blockno < |cache.disk| && !InLog(l, blockno)
      requires PinsOk(cache.S(), pending) && LogicalOk(l, cache.S(), pending, logical, {})
      modifies this`held, this`answers, cache`index, cache`holders, cache.buf
      ensures Core() && cache.disk == old(cache.disk) && cache.trace == old(cache.trace)
      ensures ok ==>
                HeldOk(l, cache.S(), held) && PinsOk(cache.S(), pending)
                && LogicalOk(l, cache.S(), pending, logical, {})
      ensures ok ==> blockno < |logical| && answers == old(answers) + [Answer(blockno, logical[blockno], logical)]
      ensures !ok ==> Spare(cache.S()) == {}
    {
      hide View, ListInv, StillIndexed, SameView, PinsOk, LogicalOk, HeldOk, Targets, Spare;
      ghost var s := cache.S();
      Lengths(s);
      SameLength(l, s, pending, logical, {});
      var b := cache.Bread(ROOTDEV, blockno);
      ok := b != HEAD;
      if !ok {
        NoneSpare(cache.S());
      } else {
        ReadKeepsLog(l, s, cache.S(), blockno, b, pending, logical, {});
        HeldGot(l, s, cache.S(), blockno, b, held);
        held := held + multiset{b};
        answers := answers + [Answer(blockno, cache.buf[b].data, logical)];
      }
    }

    /** A brelse by another process. */
    method ServePut(b: nat, ghost pending: seq<nat>)
      requires Core() && HeldOk(l, cache.S(), held) && b in held
      requires PinsOk(cache.S(), pending) && LogicalOk(l, cache.S(), pending, logical, {})
      modifies this`held, cache`ring, cache`pos, cache`holders, cache.buf
      ensures Core() && HeldOk(l, cache.S(), held) && Spare(old(cache.S())) <= Spare(cache.S())
      ensures PinsOk(cache.S(), pending) && LogicalOk(l, cache.S(), pending, logical, {})
    {
      hide View, ListInv, StillIndexed, SameView, PinsOk, LogicalOk, HeldOk, Targets, Spare;
      ghost var s := cache.S();
      HeldReleasable(l, s, b, held);
      Releasable(l, s, b, pending, logical, {});
      cache.Brelse(b);
      ReleaseKeepsLog(l, s, cache.S(), b, pending, logical, {});
      ReleasedSpares(s, cache.S(), b);
      HeldReleased(l, s, cache.S(), b, held);
      held := held - multiset{b};
    }

    method Serve(u: Use, ghost pending: seq<nat>) returns (ok: bool)
      requires Core() && HeldOk(l, cache.S(), held)
      requires PinsOk(cache.S(), pending) && LogicalOk(l, cache.S(), pending, logical, {})
      modifies this`held, this`answers, cache`index, cache`holders, cache`ring, cache`pos, cache.buf
      ensures Core() && cache.disk == old(cache.disk) && cache.trace == old(cache.trace)
      ensures ok ==>
                HeldOk(l, cache.S(), held) && PinsOk(cache.S(), pending)
                && LogicalOk(l, cache.S(), pending, logical, {})
      ensures ok ==> answers == old(answers) + AnswersTo(l, logical, [u])
      ensures !ok ==> Spare(cache.S()) == {}
      ensures u.Put? ==> ok && Spare(old(cache.S())) <= Spare(cache.S())
    {
      hide View, ListInv, Indexed, Counted, StillIndexed, SameView, PinsOk, LogicalOk, HeldOk, Targets, Spare;
      ok := true;
      SameLength(l, cache.S(), pending, logical, {});
      match u
      case Get(blockno) =>
        if blockno < |cache.disk| && !InLog(l, blockno) {
          ok := ServeGet(blockno, pending);
        }
      case Put(b) =>
        if b in held {
          ServePut(b, pending);
        }
    }

    /** Any number of them. Each bread returns the last contents logged for its block. */
    method Interlude(uses: seq<Use>, ghost pending: seq<nat>) returns (ok: bool)
      requires Core() && HeldOk(l, cache.S(), held)
      requires PinsOk(cache.S(), pending) && LogicalOk(l, cache.S(), pending, logical, {})
      modifies this`held, this`answers, cache`index, cache`holders, cache`ring, cache`pos, cache.buf
      ensures Core() && cache.disk == old(cache.disk) && cache.trace == old(cache.trace)
      ensures ok ==>
                HeldOk(l, cache.S(), held) && PinsOk(cache.S(), pending)
                && LogicalOk(l, cache.S(), pending, logical, {})
      ensures ok ==> answers == old(answers) + AnswersTo(l, logical, uses)
      ensures !ok ==> Spare(cache.S()) == {}
      ensures Puts(uses) ==> ok && Spare(old(cache.S())) <= Spare(cache.S())
      ensures uses == [] ==> Spare(cache.S()) == Spare(old(cache.S()))
    {
      hide View, ListInv, Indexed, Counted, StillIndexed, SameView, PinsOk, LogicalOk, HeldOk, Targets, Truthful;
      hide Spare;
      ok := true;
      for i := 0 to |uses|
        invariant Core() && cache.disk == old(cache.disk) && cache.trace == old(cache.trace)
        invariant HeldOk(l, cache.S(), held) && PinsOk(cache.S(), pending)
                  && LogicalOk(l, cache.S(), pending, logical, {})
        invariant answers == old(answers) + AnswersTo(l, logical, uses[..i])
        invariant Puts(uses) ==> Spare(old(cache.S())) <= Spare(cache.S())
        invariant i == 0 ==> Spare(cache.S()) == Spare(old(cache.S()))
      {
        AnswerNext(l, logical, uses, i);
        ok := Serve(uses[i], pending);
        if !ok { return; }
      }
      assert uses[..|uses|] == uses;
    }

    // ---------- commit ----------

    /** Copies the cached contents of every logged block to the log area. */
    method WriteLog(others: nat -> seq<Use>) returns (ok: bool)
      requires Valid() && dirty == {}
      modifies this`held, this`answers, cache, cache.buf
      ensures Core() && WriteLogTrace(l, old(cache.trace), cache.trace, lh, logical)
      ensures ok ==>
                |cache.trace| == |old(cache.trace)| + |lh| && HeldOk(l, cache.S(), held)
                && |cache.disk| == |old(cache.disk)|
      ensures ok ==> PinsOk(cache.S(), lh) && LogicalOk(l, cache.S(), lh, logical, {})
      ensures ok ==> answers == old(answers) + Heard(l, logical, others, 0, |lh|)
      ensures !ok ==> Spare(cache.S()) == {}
      ensures PutsFrom(others, 0, |lh|) && Spare(old(cache.S())) != {} ==> ok && Spare(cache.S()) != {}
      ensures |lh| > 0 && others(0) == [] && Spare(old(cache.S())) == {} ==> !ok && cache.trace == old(cache.trace)
    {
      hide ListInv, Indexed, Counted, View, PinsOk, LogicalOk, WriteLogTrace, HeldOk, AnswersTo, HeaderCount;
      hide DistinctBlocks, Spare, Puts, HomeEq, Truthful;
      ok := true;
      SameLength(l, cache.S(), lh, logical, {});
      WriteLogTraceStarts(l, cache.trace, lh, logical);
      for tail := 0 to |lh|
        invariant Core() && |cache.trace| == |old(cache.trace)| + tail && HeldOk(l, cache.S(), held)
        invariant PinsOk(cache.S(), lh) && LogicalOk(l, cache.S(), lh, logical, {}) && |cache.disk| == |old(cache.disk)|
        invariant WriteLogTrace(l, old(cache.trace), cache.trace, lh, logical)
        invariant answers == old(answers) + Heard(l, logical, others, 0, tail)
        invariant PutsFrom(others, 0, |lh|) && Spare(old(cache.S())) != {} ==> Spare(cache.S()) != {}
        invariant tail == 0 ==> Spare(cache.S()) == Spare(old(cache.S())) && cache.trace == old(cache.trace)
        invariant tail > 0 ==> !(others(0) == [] && Spare(old(cache.S())) == {})
      {
        ok := LogOne(tail, others(tail), old(cache.trace));
        if !ok { return; }
      }
    }

    method LogOne(tail: nat, uses: seq<Use>, ghost was: seq<Image>) returns (ok: bool)
      requires Core() && tail < |lh| && PinsOk(cache.S(), lh) && LogicalOk(l, cache.S(), lh, logical, {})
      requires |was| > 0 && Targets(l, |was[|was| - 1]|, lh) && |logical| == |was[|was| - 1]|
      requires WriteLogTrace(l, was, cache.trace, lh, logical) && |cache.trace| == |was| + tail
               && HeldOk(l, cache.S(), held)
      modifies this`held, this`answers, cache, cache.buf
      ensures Core() && WriteLogTrace(l, was, cache.trace, lh, logical)
      ensures ok ==>
                PinsOk(cache.S(), lh) && LogicalOk(l, cache.S(), lh, logical, {}) && |cache.trace| == |was| + tail + 1
      ensures ok ==> HeldOk(l, cache.S(), held) && answers == old(answers) + AnswersTo(l, logical, uses)
      ensures |cache.disk| == |old(cache.disk)|
      ensures !ok ==> Spare(cache.S()) == {}
      ensures Puts(uses) && Spare(old(cache.S())) != {} ==> ok && Spare(cache.S()) != {}
      ensures uses == [] && Spare(old(cache.S())) == {} ==> !ok
      ensures !ok ==> cache.trace == old(cache.trace)
    {
      hide ListInv, Indexed, Counted, View, PinsOk, LogicalOk, Rewritten, WriteLogTrace, LogFilled, HeldOk;
      hide StillIndexed, Spare, Kept, Truthful, Puts;
      ok := Interlude(uses, lh);
      if !ok { return; }
      ghost var s, now := cache.S(), cache.trace;
      var dst := l.start + tail + 1;
      PinnedKept(s, lh, lh[tail]);
      if Spare(s) == {} { NoLogCached(l, s, lh, held, dst); }
      ok := CopyBlock(lh[tail], dst, false, false);
      if !ok { return; }
      RewriteKeepsPins(s, cache.S(), lh, dst, View(s, lh[tail]));
      HeldRewritten(l, s, cache.S(), dst, View(s, lh[tail]), held);
      LoggedFrom(l, s, lh, logical, tail);
      RewriteInLog(l, s, cache.S(), dst, View(s, lh[tail]), lh, logical);
      WriteLogTraceStep(l, was, now, lh, logical);
    }

    /** Stores the count and the block numbers in the header block, and writes it. */
    method WriteHead() returns (ok: bool)
      requires Core() && View(cache.S(), l.start) == cache.disk[l.start]
      modifies cache, cache.buf
      ensures cache.Valid() && cache.pins == old(cache.pins)
      ensures !ok ==> cache.S() == old(cache.S()) && cache.trace == old(cache.trace)
      ensures ok ==>
                && Rewritten(old(cache.S()), cache.S(), l.start, PutHeader(old(cache.disk)[l.start], lh, |lh|))
                && cache.trace == old(cache.trace) + [cache.disk]
      ensures !ok ==> Spare(cache.S()) == {}
      ensures ok ==> Spare(old(cache.S())) <= Spare(cache.S())
    {
      hide View, ListInv, StillIndexed, SameView, Spare;
      ghost var s := cache.S();
      Lengths(s);
      var b := cache.Bread(ROOTDEV, l.start);
      ok := b != HEAD;
      if !ok {
        NoneSpare(s);
        return;
      }
      ghost var t := cache.S();
      var data := FormatHeader(cache.buf[b].data, lh);
      cache.Fill(b, data);
      cache.Bwrite(b);
      ghost var m := cache.S();
      FillKeeps(t, b, data);
      cache.Brelse(b);
      RewriteFinished(s, t, m, cache.S(), l.start, b, data);
      CopySpares(s, cache.S(), l.start, data, 0, false);
    }

    /** Copies every logged block home; outside recovery each one then loses its pin. */
    method InstallTrans(recovering: bool, others: nat -> seq<Use>, base: nat) returns (ok: bool)
      requires Core() && InstallReady(l, cache.S(), lh, logical, recovering, 0) && HeldOk(l, cache.S(), held)
      modifies this`held, this`answers, cache, cache.buf
      ensures Core() && InstallTrace(l, old(cache.trace), cache.trace, lh)
      ensures ok ==>
                |cache.trace| == |old(cache.trace)| + |lh| && InstallReady(l, cache.S(), lh, logical, recovering, |lh|)
      ensures ok ==> HeldOk(l, cache.S(), held)
      ensures ok && !recovering ==> answers == old(answers) + Heard(l, logical, others, base, base + |lh|)
      ensures !ok ==> Spare(cache.S()) == {}
      ensures recovering ==> held == old(held)
      ensures recovering && |Spare(old(cache.S()))| >= 2 ==> ok && |Spare(cache.S())| >= 2
      ensures !recovering && PutsFrom(others, base, base + |lh|) && Spare(old(cache.S())) != {} ==>
                ok && Spare(cache.S()) != {}
    {
      hide ListInv, Indexed, Counted, View, PinsOk, LogicalOk, InstallReady, Installed, InstallTrace, HeldOk;
      hide Spare, Puts, Truthful, DistinctBlocks, AnswersTo;
      ok := true;
      InstallTraceStarts(l, cache.trace, lh);
      for tail := 0 to |lh|
        invariant Core() && |cache.trace| == |old(cache.trace)| + tail && |cache.disk| == |old(cache.disk)|
        invariant InstallTrace(l, old(cache.trace), cache.trace, lh)
                  && InstallReady(l, cache.S(), lh, logical, recovering, tail)
        invariant HeldOk(l, cache.S(), held)
        invariant !recovering ==> answers == old(answers) + Heard(l, logical, others, base, base + tail)
        invariant recovering ==> held == old(held)
        invariant recovering && |Spare(old(cache.S()))| >= 2 ==> |Spare(cache.S())| >= 2
        invariant !recovering && PutsFrom(others, base, base + |lh|) && Spare(old(cache.S())) != {} ==>
                    Spare(cache.S()) != {}
      {
        ok := InstallOne(tail, recovering, others(base + tail), old(cache.trace));
        if !ok { return; }
      }
    }

    method InstallOne(tail: nat, recovering: bool, uses: seq<Use>, ghost was: seq<Image>) returns (ok: bool)
      requires Core() && tail < |lh| && InstallReady(l, cache.S(), lh, logical, recovering, tail)
               && HeldOk(l, cache.S(), held)
      requires |was| > 0 && Targets(l, |was[|was| - 1]|, lh)
      requires InstallTrace(l, was, cache.trace, lh) && |cache.trace| == |was| + tail
      modifies this`held, this`answers, cache, cache.buf
      ensures Core() && InstallTrace(l, was, cache.trace, lh) && |cache.disk| == |old(cache.disk)|
      ensures ok ==> |cache.trace| == |was| + tail + 1 && InstallReady(l, cache.S(), lh, logical, recovering, tail + 1)
      ensures ok ==>
                HeldOk(l, cache.S(), held) && (!recovering ==> answers == old(answers) + AnswersTo(l, logical, uses))
      ensures !ok ==> Spare(cache.S()) == {}
      ensures recovering ==> held == old(held)
      ensures recovering && |Spare(old(cache.S()))| >= 2 ==> ok && |Spare(cache.S())| >= 2
      ensures !recovering && Puts(uses) && Spare(old(cache.S())) != {} ==> ok && Spare(cache.S()) != {}
    {
      hide ListInv, Indexed, Counted, View, PinsOk, LogicalOk, Rewritten, InstallTrace, Installed, InstallReady, HeldOk;
      hide StillIndexed, Spare, Kept, Truthful, Puts;
      if !recovering {
        InstallPending(l, cache.S(), lh, logical, tail);
        ghost var s := cache.S();
        ok := Interlude(uses, lh[tail..]);
        if !ok { return; }
        StillReady(l, s, cache.S(), lh, logical, tail);
      }
      ghost var s, now := cache.S(), cache.trace;
      InstallNeeds(l, s, lh, logical, recovering, tail);
      if !recovering { PinnedIsKept(s, lh[tail]); }
      ok := CopyBlock(l.start + tail + 1, lh[tail], true, !recovering);
      if !ok { return; }
      HeldRewritten(l, s, cache.S(), lh[tail], View(s, l.start + tail + 1), held);
      InstalledOne(l, s, cache.S(), lh, logical, recovering, tail);
      InstallTraceStep(l, was, now, lh);
      MoreSpare(s, cache.S());
    }

    /**
      Commits the logged blocks. However far it gets before a panic or a crash, the disk recovers to all of it or none.
      Before each of its writes other processes do what others says; their breads return the last contents logged.
     */
    method Commit(others: nat -> seq<Use>) returns (ok: bool)
      requires Valid() && dirty == {}
      modifies this`lh, this`committed, this`held, this`answers, cache, cache.buf
      ensures CommitTrace(l, old(cache.trace), cache.trace, old(lh), logical) && Truthful(answers)
      ensures ok ==> Valid() && lh == [] && committed == logical
      ensures ok ==> answers == old(answers) + Heard(l, logical, others, 0, |cache.trace| - |old(cache.trace)|)
      ensures ok && old(lh) != [] ==> |cache.trace| == |old(cache.trace)| + 2 * |old(lh)| + 2
      ensures !ok ==> Spare(cache.S()) == {} && old(lh) != []
      ensures NoBreads(others, |old(lh)|) && Spare(old(cache.S())) != {} ==> ok
      ensures old(lh) != [] && others(0) == [] && Spare(old(cache.S())) == {} ==>
                !ok && cache.trace == old(cache.trace) && lh == old(lh)
    {
      hide ListInv, Indexed, Counted, View, PinsOk, LogicalOk, CommitTrace, HomeEq, HeldOk, Stored, Truthful, Heard;
      hide HeaderCount, Spare, Puts, NoBreads;
      ok := true;
      if |lh| > 0 {
        ok := CommitLogged(others);
      } else {
        StoredAtStart(l, cache.S(), lh, logical, {});
        NoImages(l, cache.trace, lh, logical);
        NothingLogged(l, cache.S(), logical);
        HeardNothing(l, logical, others);
        committed := logical;
      }
    }

    method CommitLogged(others: nat -> seq<Use>) returns (ok: bool)
      requires Valid() && dirty == {}
      modifies this`lh, this`committed, this`held, this`answers, cache, cache.buf
      ensures CommitTrace(l, old(cache.trace), cache.trace, old(lh), logical) && Truthful(answers)
      ensures ok ==> Valid() && lh == [] && committed == logical
      ensures ok ==> answers == old(answers) + Heard(l, logical, others, 0, |cache.trace| - |old(cache.trace)|)
      ensures ok ==> |cache.trace| == |old(cache.trace)| + 2 * |old(lh)| + 2
      ensures !ok ==> Spare(cache.S()) == {}
      ensures NoBreads(others, |old(lh)|) && Spare(old(cache.S())) != {} ==> ok
      ensures old(lh) != [] && others(0) == [] && Spare(old(cache.S())) == {} ==>
                !ok && cache.trace == old(cache.trace) && lh == old(lh)
    {
      hide ListInv, Indexed, Counted, View, PinsOk, LogicalOk, InstallReady, CommitTrace, AtCommit, HomeEq, HeldOk;
      hide HeaderCount, Spare, Puts;
      hide Truthful, AnswersTo, Heard;
      var k := |lh|;
      ok := WriteAndCommit(others);
      if !ok { return; }
      ok := InstallAndClear(others, k, old(cache.trace));
      HeardInAll(l, logical, others, k);
    }

    /** write_log and the first write_head: the commit point. */
    method WriteAndCommit(others: nat -> seq<Use>) returns (ok: bool)
      requires Valid() && dirty == {}
      modifies this`held, this`answers, cache, cache.buf
      ensures CommitTrace(l, old(cache.trace), cache.trace, lh, logical) && Truthful(answers)
      ensures ok ==> Core() && |cache.trace| == |old(cache.trace)| + |lh| + 1 && HeldOk(l, cache.S(), held)
      ensures ok ==> AtCommit(l, cache.disk, lh, logical) && InstallReady(l, cache.S(), lh, logical, false, 0)
      ensures ok ==> answers == old(answers) + Heard(l, logical, others, 0, |lh|) + AnswersTo(l, logical, others(|lh|))
      ensures !ok ==> Spare(cache.S()) == {}
      ensures PutsFrom(others, 0, |lh| + 1) && Spare(old(cache.S())) != {} ==> ok && Spare(cache.S()) != {}
      ensures lh != [] && others(0) == [] && Spare(old(cache.S())) == {} ==> !ok && cache.trace == old(cache.trace)
    {
      hide ListInv, Indexed, Counted, View, PinsOk, LogicalOk, Rewritten, InstallReady, WriteLogTrace, CommitTrace;
      hide AtCommit;
      hide PutHeader, HomeEq, Stored, StillIndexed, HeaderCount, HeldOk, Truthful, AnswersTo, Heard, Spare, Puts;
      ghost var t0 := cache.trace;
      StoredAtStart(l, cache.S(), lh, logical, {});
      ok := WriteLog(others);
      ghost var t1 := cache.trace;
      FirstPhase(l, t0, t1, lh, logical);
      if !ok { return; }
      ok := Interlude(others(|lh|), lh);
      if !ok { return; }
      ghost var s1 := cache.S();
      HeadReadable(l, s1, lh, logical);
      ok := WriteHead();
      if !ok { return; }
      AfterHead(l, s1, cache.S(), t0, t1, lh, logical);
      HeldRewritten(l, s1, cache.S(), l.start, PutHeader(s1.disk[l.start], lh, |lh|), held);
    }

    /** install_trans and the second write_head. */
    method InstallAndClear(others: nat -> seq<Use>, k: nat, ghost t0: seq<Image>) returns (ok: bool)
      requires Core() && k == |lh| && DistinctBlocks(lh) && dirty == {} && HeldOk(l, cache.S(), held)
      requires |cache.trace| == |t0| + k + 1 && CommitTrace(l, t0, cache.trace, lh, logical)
      requires AtCommit(l, cache.disk, lh, logical) && InstallReady(l, cache.S(), lh, logical, false, 0)
      modifies this`lh, this`committed, this`held, this`answers, cache, cache.buf
      ensures CommitTrace(l, t0, cache.trace, old(lh), logical) && Truthful(answers)
      ensures ok ==> Valid() && lh == [] && committed == logical && |cache.trace| == |t0| + 2 * k + 2
      ensures ok ==>
                answers ==
                  old(answers) + Heard(l, logical, others, k + 1, 2 * k + 1) + AnswersTo(l, logical, others(2 * k + 1))
      ensures !ok ==> Spare(cache.S()) == {}
      ensures PutsFrom(others, k + 1, 2 * k + 2) && Spare(old(cache.S())) != {} ==> ok
    {
      hide ListInv, Indexed, Counted, View, PinsOk, LogicalOk, Rewritten, InstallTrace, Installed, InstallReady;
      hide CommitTrace;
      hide AtCommit, PutHeader, HomeEq, StillIndexed, HeaderCount, HeldOk, Truthful, AnswersTo, Heard, Spare, Puts;
      ghost var t2, blocks := cache.trace, lh;
      ok := InstallTrans(false, others, k + 1);
      ghost var t3 := cache.trace;
      AfterInstall(l, t0, t2, t3, blocks, logical);
      if !ok { return; }
      InstalledAll(l, cache.S(), blocks, logical);
      ok := Interlude(others(2 * k + 1), []);
      if !ok { return; }
      ghost var s3 := cache.S();
      lh := [];
      HeadReadable(l, s3, [], logical);
      ok := WriteHead();
      if !ok { return; }
      AfterClear(l, s3, cache.S(), t0, t2, t3, blocks, logical);
      HeldRewritten(l, s3, cache.S(), l.start, PutHeader(s3.disk[l.start], [], 0), held);
      committed := logical;
    }

    // ---------- recovery ----------

    /** Reads the header into lh. */
    method ReadHead() returns (ok: bool)
      requires cache.Valid() && lh == [] && WfImage(l, cache.disk) && PinsOk(cache.S(), [])
      requires forall k :: 0 <= k < |cache.disk| ==> View(cache.S(), k) == cache.disk[k]
      modifies this`lh, cache, cache.buf
      ensures cache.Valid() && cache.disk == old(cache.disk) && cache.trace == old(cache.trace)
      ensures ok ==> lh == HeaderBlocks(cache.disk[l.start]) && InstallReady(l, cache.S(), lh, logical, true, 0)
      ensures ok ==> cache.holders == old(cache.holders) && Spare(old(cache.S())) <= Spare(cache.S())
      ensures !ok ==> Spare(cache.S()) == Spare(old(cache.S())) == {}
    {
      hide View, ListInv, StillIndexed, SameView, PinsOk, HeaderBlocks, InstallReady, Targets, Spare;
      ghost var s := cache.S();
      Lengths(s);
      var b := cache.Bread(ROOTDEV, l.start);
      ok := b != HEAD;
      if !ok {
        NoneSpare(s);
        return;
      }
      ghost var t := cache.S();
      lh := ParseHeader(cache.buf[b].data);
      ReadReleasable(s, t, l.start, b);
      cache.Brelse(b);
      HeadRead(l, s, t, cache.S(), b, logical);
      GotAndReleased(s, t, cache.S(), l.start, b);
    }

    /** recover_from_log. A crash or panic on the way leaves an image from which recovery ends up in the same place. */
    method RecoverFromLog() returns (ok: bool)
      requires cache.Valid() && lh == [] && WfImage(l, cache.disk) && PinsOk(cache.S(), [])
      requires held == multiset{} && cache.holders == seq(NBUF, _ => 0) && Truthful(answers)
      requires forall k :: 0 <= k < |cache.disk| ==> View(cache.S(), k) == cache.disk[k]
      modifies this`lh, this`logical, this`committed, this`dirty, this`held, this`answers, cache, cache.buf
      ensures |old(cache.trace)| <= |cache.trace|
      ensures forall i :: |old(cache.trace)| <= i < |cache.trace| ==> DuringRecovery(l, old(cache.disk), cache.trace[i])
      ensures ok ==>
                && Valid() && lh == [] && dirty == {} && held == multiset{}
                && cache.disk == Recovered(l, old(cache.disk)) == logical == committed
      ensures ok ==>
                |cache.trace| == |old(cache.trace)| + |HeaderBlocks(old(cache.disk)[l.start])| + 1
      ensures !ok ==> Spare(cache.S()) == {}
      ensures |Spare(old(cache.S()))| >= 2 ==> ok
    {
      hide View, ListInv, Indexed, Counted, StillIndexed, SameView, PinsOk, Rewritten, InstallReady, InstallTrace;
      hide Recovered, Installed, HeaderCount, LogicalOk, PutHeader, Truthful, DuringRecovery, Spare;
      ghost var d, t0 := cache.disk, cache.trace;
      ghost var s0 := cache.S();
      ok := ReadHead();
      if !ok { return; }
      MoreSpare(s0, cache.S());
      ok := InstallTrans(true, _ => [], 0);
      RecoveryImages(l, t0, cache.trace, lh);
      if !ok { return; }
      ok := ClearRecovered(t0);
    }

    /** The second write_head of recover_from_log, after which the disk is the logical disk. */
    method ClearRecovered(ghost t0: seq<Image>) returns (ok: bool)
      requires Core() && HeldOk(l, cache.S(), held) && InstallReady(l, cache.S(), lh, logical, true, |lh|)
      requires |t0| > 0 && WfImage(l, t0[|t0| - 1]) && lh == HeaderBlocks(t0[|t0| - 1][l.start])
      requires InstallTrace(l, t0, cache.trace, lh) && |cache.trace| == |t0| + |lh|
      modifies this`lh, this`logical, this`committed, this`dirty, cache, cache.buf
      ensures !ok ==> cache.trace == old(cache.trace)
      ensures ok ==>
                && cache.trace == old(cache.trace) + [cache.disk] && DuringRecovery(l, t0[|t0| - 1], cache.disk)
                && Valid() && lh == [] && dirty == {}
                && cache.disk == Recovered(l, t0[|t0| - 1]) == logical == committed
      ensures !ok ==> Spare(cache.S()) == {}
      ensures Spare(old(cache.S())) != {} ==> ok
    {
      hide View, ListInv, Indexed, Counted, StillIndexed, SameView, PinsOk, Rewritten, InstallReady, InstallTrace;
      hide Recovered, Installed, HeaderCount, LogicalOk, PutHeader, Truthful, DuringRecovery, HeldOk, Spare;
      ghost var t1, s1, blocks := cache.trace, cache.S(), lh;
      RecoveredHome(l, s1, lh, logical);
      lh := [];
      ok := WriteHead();
      if !ok { return; }
      RecoveryDone(l, s1, cache.S(), t0, t1, blocks, logical);
      HeldRewritten(l, s1, cache.S(), l.start, PutHeader(s1.disk[l.start], [], 0), held);
      logical, committed, dirty := cache.disk, cache.disk, {};
    }

    // ---------- what file system code calls ----------

    /** bread outside the log area: the last contents logged, whether or not the home block has them yet. */
    method Read(blockno: nat) returns (b: nat)
      requires Valid() && blockno < |cache.disk| && !InLog(l, blockno)
      modifies this`held, cache`index, cache`holders, cache.buf
      ensures Valid() && b <= NBUF && held == (if b == HEAD then old(held) else old(held) + multiset{b})
      ensures b != HEAD ==> Got(old(cache.S()), cache.S(), blockno, b)
      ensures b != HEAD && blockno !in dirty ==> cache.buf[b].data == logical[blockno]
      ensures b == HEAD ==> cache.S() == old(cache.S()) && Spare(cache.S()) == {}
    {
      hide View, ListInv, StillIndexed, SameView, PinsOk, LogicalOk, HeldOk, HomeEq, Spare;
      ghost var s := cache.S();
      Lengths(s);
      b := cache.Bread(ROOTDEV, blockno);
      if b == HEAD {
        NoneSpare(s);
      } else {
        ReadKeepsLog(l, s, cache.S(), blockno, b, lh, logical, dirty);
        HeldGot(l, s, cache.S(), blockno, b, held);
        held := held + multiset{b};
      }
    }

    /** A holder changes the contents of its buffer. */
    method Modify(b: nat, data: Block)
      requires Valid() && b < NBUF && cache.buf[b].valid && cache.holders[b] > 0 && !InLog(l, cache.buf[b].blockno)
      modifies this`dirty, cache.buf
      ensures Valid() && cache.S() == Filled(old(cache.S()), b, data) && dirty == old(dirty) + {cache.buf[b].blockno}
    {
      hide View, ListInv, StillIndexed, SameView, PinsOk, LogicalOk, HeldOk, HomeEq;
      ghost var s := cache.S();
      cache.Fill(b, data);
      dirty := dirty + {cache.buf[b].blockno};
      ModifyKeepsLog(l, s, b, data, lh, logical, old(dirty));
      HeldFilled(l, s, b, data, held);
    }

    /** brelse by a caller that has logged its change, or is not the only holder. */
    method Release(b: nat)
      requires Valid() && b in held && b < NBUF && (cache.holders[b] == 1 ==> cache.buf[b].blockno !in dirty)
      modifies this`held, cache`ring, cache`pos, cache`holders, cache.buf
      ensures Valid() && old(cache.holders[b]) > 0 && Released(old(cache.S()), cache.S(), b)
              && held == old(held) - multiset{b}
    {
      hide View, ListInv, StillIndexed, SameView, PinsOk, LogicalOk, HeldOk, HomeEq;
      ghost var s := cache.S();
      HeldReleasable(l, s, b, held);
      Releasable(l, s, b, lh, logical, dirty);
      cache.Brelse(b);
      ReleaseKeepsLog(l, s, cache.S(), b, lh, logical, dirty);
      HeldReleased(l, s, cache.S(), b, held);
      held := held - multiset{b};
    }

    /**
      log_write by operation op; false stands for its two panics. An operation that does not add more than MAXOPBLOCKS
      entries keeps the admission state; blocks that are already in the header may be logged again at any time.
     */
    method LogWrite(b: nat, ghost op: nat) returns (ok: bool)
      requires Valid() && b < NBUF && cache.buf[b].valid && cache.holders[b] > 0
      requires !InLog(l, cache.buf[b].blockno) && cache.buf[b].blockno < 0x1_0000_0000
      requires outstanding == |ops| && (ops != map[] ==> op in ops)
      modifies this`lh, this`logical, this`dirty, this`ops, cache`pins, cache.buf
      ensures Valid() && outstanding == |ops| && ok == !GC.Panics(old(G()), l.size)
      ensures !ok ==> G() == old(G()) && logical == old(logical) && dirty == old(dirty) && cache.S() == old(cache.S())
      ensures ok ==> op in old(ops) && G() == GC.Logged(old(G()), op, cache.buf[b].blockno)
      ensures ok ==> logical == old(logical)[cache.buf[b].blockno := cache.buf[b].data]
      ensures ok ==>
                dirty == old(dirty) - {cache.buf[b].blockno} && cache.S() == LoggedState(old(cache.S()), b, old(lh))
      ensures old(Admitted()) && (ok ==> GC.CanLog(old(G()), op, cache.buf[b].blockno)) ==> Admitted()
    {
      hide View, ListInv, StillIndexed, SameView, PinsOk, LogicalOk, GC.Inv, HeaderCount, Targets, DistinctBlocks;
      hide LoggedState, GC.Absorbed, HeldOk, HomeEq;
      hide Truthful, Counted, Indexed;
      Lengths(cache.S());
      ValidBuffer(cache.S(), b);
      ghost var s, k, g, data := cache.S(), cache.buf[b].blockno, G(), cache.buf[b].data;
      ok := !(|lh| >= LOGSIZE || |lh| >= l.size - 1) && outstanding >= 1;
      if !ok { return; }
      WriteKeepsTargets(l, |cache.disk|, lh, k);
      if GC.Inv(g) && GC.CanLog(g, op, k) { GC.LoggedKeeps(g, op, k); }
      ops := ops[op := GC.Logs(ops[op], lh, k)];
      assert ops.Keys == old(ops.Keys);
      WriteKeepsLog(l, s, b, lh, logical, dirty);
      HeldLogged(l, s, b, lh, held);
      logical := logical[k := data];
      dirty := dirty - {k};
      AppendIfNew(b);
    }

    method AppendIfNew(b: nat)
      requires cache.Valid() && b < NBUF && cache.buf[b].valid
      modifies this`lh, cache`pins, cache.buf
      ensures cache.Valid() && cache.S() == LoggedState(old(cache.S()), b, old(lh))
              && lh == GC.Absorbed(old(lh), old(cache.buf[b].blockno))
      ensures cache.buf[b].blockno == old(cache.buf[b].blockno) && cache.buf[b].data == old(cache.buf[b].data)
    {
      hide View, ListInv;
      var i := 0;
      while i < |lh| && lh[i] != cache.buf[b].blockno
        invariant i <= |lh| && forall j :: 0 <= j < i ==> lh[j] != cache.buf[b].blockno
      {
        i := i + 1;
      }
      if i == |lh| {
        lh := lh + [cache.buf[b].blockno];
        cache.Bpin(b);
      }
    }

    /** bread, a copy of the contents, brelse, of a block that nobody is changing. */
    method Look(blockno: nat) returns (ok: bool, data: Block)
      requires Valid() && blockno < |cache.disk| && !InLog(l, blockno) && blockno !in dirty
      modifies this`held, cache`index, cache`holders, cache`ring, cache`pos, cache.buf
      ensures Valid() && |logical| == |cache.disk| && (ok ==> data == logical[blockno] && held == old(held))
      ensures !ok ==> Spare(old(cache.S())) == {}
    {
      hide View, ListInv, Indexed, Counted, PinsOk, LogicalOk, HeldOk, HomeEq, HeaderCount, Targets, DistinctBlocks;
      hide Truthful, Released, Spare;
      SameLength(l, cache.S(), lh, logical, dirty);
      ghost var s := cache.S();
      var b := Read(blockno);
      ok, data := b != HEAD, ZeroBlock();
      if !ok { return; }
      GotBuffer(s, cache.S(), blockno, b);
      data := cache.buf[b].data;
      Release(b);
    }

    /** bread, new contents, log_write, brelse, of a block that nobody else is changing. */
    method Store(blockno: nat, data: Block, ghost op: nat) returns (ok: bool)
      requires Valid() && Admitted() && blockno < |cache.disk| && !InLog(l, blockno) && blockno !in dirty
      requires blockno < 0x1_0000_0000 && GC.CanLog(G(), op, blockno) && !GC.Panics(G(), l.size)
      modifies this`lh, this`logical, this`dirty, this`ops, this`held, cache`index, cache`holders, cache`ring, cache`pos
      modifies cache`pins, cache.buf
      ensures Valid() && Admitted() && dirty == old(dirty) && |logical| == |old(logical)| == |cache.disk|
      ensures ok ==> logical == old(logical)[blockno := data] && G() == GC.Logged(old(G()), op, blockno)
      ensures ok ==> held == old(held)
      ensures !ok ==> logical == old(logical) && G() == old(G()) && Spare(old(cache.S())) == {}
    {
      hide View, ListInv, Indexed, Counted, PinsOk, LogicalOk, HeldOk, HomeEq, HeaderCount, Targets, DistinctBlocks;
      hide Truthful, Released, GC.Inv, GC.CanLog, GC.Panics, GC.Logged, InLog, Got, Spare;
      SameLength(l, cache.S(), lh, logical, dirty);
      ghost var s := cache.S();
      var b := Read(blockno);
      ok := b != HEAD;
      if !ok { return; }
      GotBuffer(s, cache.S(), blockno, b);
      Fill(b, data, op);
      Release(b);
    }

    /** New contents and log_write of a buffer that the caller holds. */
    method Fill(b: nat, data: Block, ghost op: nat)
      requires Valid() && Admitted() && b < NBUF && cache.buf[b].valid && cache.holders[b] > 0
      requires var k := cache.buf[b].blockno;
               && !InLog(l, k) && k !in dirty && k < 0x1_0000_0000 && k < |logical|
               && GC.CanLog(G(), op, k) && !GC.Panics(G(), l.size)
      modifies this`lh, this`logical, this`dirty, this`ops, cache`pins, cache.buf
      ensures Valid() && Admitted() && dirty == old(dirty) && cache.buf[b].blockno == old(cache.buf[b].blockno)
      ensures logical == old(logical)[old(cache.buf[b].blockno) := data]
      ensures G() == GC.Logged(old(G()), op, old(cache.buf[b].blockno))
    {
      hide View, ListInv, Indexed, Counted, PinsOk, LogicalOk, HeldOk, HomeEq, HeaderCount, Targets, DistinctBlocks;
      hide Truthful, GC.Inv, LoggedState;
      Lengths(cache.S());
      ghost var k := cache.buf[b].blockno;
      Modify(b, data);
      ghost var s, was := cache.S(), lh;
      assert s.buf[b].blockno == k && s.buf[b].data == data;
      var _ := LogWrite(b, op);
      LoggedBuffer(s, b, was);
    }

    /** One pass of the loop of begin_op; false means that the caller sleeps and tries again. */
    method BeginOp(ghost op: nat) returns (admitted: bool)
      requires Admitted() && op !in ops
      modifies this`outstanding, this`ops
      ensures Admitted() && admitted == GC.CanBegin(old(G()))
      ensures G() == if admitted then GC.Begun(old(G()), op) else old(G())
      ensures admitted <==> !committing && |lh| + (old(outstanding) + 1) * MAXOPBLOCKS <= LOGSIZE
      ensures if admitted then ops == old(ops)[op := GC.Op(epoch, {}, 0)] && outstanding == old(outstanding) + 1
              else ops == old(ops) && outstanding == old(outstanding)
    {
      if committing {
        admitted := false;
      } else if |lh| + (outstanding + 1) * MAXOPBLOCKS > LOGSIZE {
        admitted := false;
      } else {
        GC.BegunKeeps(G(), op);
        outstanding := outstanding + 1;
        ops := ops[op := GC.Op(epoch, {}, 0)];
        admitted := true;
      }
    }

    /** end_op: the last operation out commits everything that was logged, while others go on reading. */
    method EndOp(ghost op: nat, others: nat -> seq<Use>) returns (ok: bool)
      requires Valid() && Admitted() && op in ops && (ops.Keys == {op} ==> dirty == {})
      modifies this, cache, cache.buf
      ensures logical == old(logical)
      ensures CommitTrace(l, old(cache.trace), cache.trace, old(lh), logical) && Truthful(answers)
      ensures ok ==> answers == old(answers) + Heard(l, logical, others, 0, |cache.trace| - |old(cache.trace)|)
      ensures HomeEq(l, old(cache.trace)[|old(cache.trace)| - 1], old(committed))
      ensures old(ops.Keys) != {op} ==>
                ok && G() == GC.Ended(old(G()), op) && cache.trace == old(cache.trace) && committed == old(committed)
      ensures old(ops.Keys) == {op} && ok ==>
                G() == GC.CommitDone(GC.Ended(old(G()), op)) && HomeEq(l, cache.disk, logical) && committed == logical
      ensures ok ==> Valid() && Admitted() && dirty == old(dirty)
      ensures ops == old(ops) - {op} && outstanding == old(outstanding) - 1 && (ok ==> !committing)
      ensures old(ops.Keys) == {op} && ok ==> lh == []
      ensures old(ops.Keys) == {op} && ok && old(lh) != [] ==> |cache.trace| == |old(cache.trace)| + 2 * |old(lh)| + 2
      ensures !ok ==> Spare(cache.S()) == {} && old(lh) != []
      ensures NoBreads(others, |old(lh)|) && Spare(old(cache.S())) != {} ==> ok
      ensures NoBreads(others, |old(lh)|) && |old(held)| + |old(lh)| < NBUF ==> ok
      ensures old(ops.Keys) == {op} && old(lh) != [] && others(0) == [] && Spare(old(cache.S())) == {} ==>
                !ok && cache.trace == old(cache.trace) && lh == old(lh)
    {
      hide View, ListInv, StillIndexed, SameView, PinsOk, LogicalOk, GC.Inv, CommitTrace, HomeEq, HeldOk;
      hide AnswersTo, Heard, Truthful, Indexed, Counted, Targets, Stored, DistinctBlocks, HeaderCount, Spare, NoBreads;
      hide GC.Ended;
      ghost var g := G();
      GC.EndedKeeps(g, op);
      NotCommitting(g, op);
      outstanding := outstanding - 1;
      ops := ops - {op};
      ok := true;
      if outstanding == 0 {
        ok := LastOut(others);
      } else {
        NothingDone(l, cache.S(), cache.trace, lh, logical, dirty, others);
      }
    }

    /** The second half of end_op, when nobody else is at work. */
    method LastOut(others: nat -> seq<Use>) returns (ok: bool)
      requires Valid() && dirty == {} && ops == map[] && outstanding == 0 && GC.Inv(GC.G(lh, ops, true, epoch))
      modifies this`lh, this`committed, this`held, this`answers, this`committing, this`epoch, cache, cache.buf
      ensures CommitTrace(l, old(cache.trace), cache.trace, old(lh), logical) && Truthful(answers)
      ensures ok ==> answers == old(answers) + Heard(l, logical, others, 0, |cache.trace| - |old(cache.trace)|)
      ensures ok ==>
                && G() == GC.G([], map[], false, old(epoch) + 1) && HomeEq(l, cache.disk, logical)
                && committed == logical && Valid() && Admitted()
      ensures ok && old(lh) != [] ==> |cache.trace| == |old(cache.trace)| + 2 * |old(lh)| + 2
      ensures !ok ==> Spare(cache.S()) == {} && old(lh) != []
      ensures NoBreads(others, |old(lh)|) && Spare(old(cache.S())) != {} ==> ok
      ensures NoBreads(others, |old(lh)|) && |old(held)| + |old(lh)| < NBUF ==> ok
      ensures old(lh) != [] && others(0) == [] && Spare(old(cache.S())) == {} ==>
                !ok && cache.trace == old(cache.trace) && lh == old(lh)
    {
      hide View, ListInv, StillIndexed, SameView, PinsOk, LogicalOk, GC.Inv, CommitTrace, HomeEq, HeldOk;
      hide AnswersTo, Heard, Truthful, Indexed, Counted, Targets, Stored, DistinctBlocks, HeaderCount, Spare, NoBreads;
      ghost var g := GC.G(lh, map[], true, epoch);
      SomeSpare(l, cache.S(), lh, held);
      committing := true;
      ok := Commit(others);
      if !ok { return; }
      GC.CommitDoneKeeps(g);
      committing := false;
      epoch := epoch + 1;
    }
  }
}
