/**
  The logical disk that the cache and the log together represent, and why each use of the
  cache by kernel/log.c and its callers keeps it.
 */
module LogState {
  import opened Blocks
  import opened BufferCache
  import opened CacheUse
  import opened Recovery
  import GC = GroupCommit

  /** Exactly the buffers of logged blocks are pinned, once each. */
  ghost predicate PinsOk(s: State, lh: seq<nat>)
    requires Inv(s)
  {
    && (forall k :: k in lh ==> k in s.index && s.buf[s.index[k]].valid && s.pins[s.index[k]] == 1)
    && (forall b :: 0 <= b < NBUF && s.pins[b] > 0 ==> s.buf[b].dev == ROOTDEV && s.buf[b].blockno in lh)
  }

  /**
    The logical disk is what the last log_write of each block stored. Readers see it, except in blocks
    somebody is changing now; the disk itself holds it except in logged blocks.
   */
  ghost predicate LogicalOk(l: Layout, s: State, lh: seq<nat>, logical: Image, dirty: set<nat>)
    requires Inv(s)
  {
    && |logical| == |s.disk|
    && (forall k :: 0 <= k < |s.disk| && !InLog(l, k) && k !in dirty ==> View(s, k) == logical[k])
    && (forall k :: 0 <= k < |s.disk| && !InLog(l, k) && k !in lh ==> s.disk[k] == logical[k])
    && (forall k :: 0 <= k < |s.disk| && InLog(l, k) ==> View(s, k) == s.disk[k])
    && (forall k :: k in dirty ==> k in s.index && !InLog(l, k) && s.holders[s.index[k]] > 0)
  }

  // ---------- other processes' breads and brelses, which go on during a commit ----------

  /** A bread of a block, a brelse of a buffer. */
  datatype Use = Get(blockno: nat) | Put(b: nat)

  /** What a bread returned, and the logical disk at that time. */
  datatype Answer = Answer(blockno: nat, got: Block, logical: Image)

  ghost predicate Truthful(answers: seq<Answer>) {
    forall i :: 0 <= i < |answers| ==>
      answers[i].blockno < |answers[i].logical| && answers[i].got == answers[i].logical[answers[i].blockno]
  }

  /** The answers that the breads among some uses get when the logical disk is as given. */
  ghost function AnswersTo(l: Layout, logical: Image, uses: seq<Use>): seq<Answer> {
    if uses == [] then []
    else
      var u := uses[|uses| - 1];
      AnswersTo(l, logical, uses[..|uses| - 1])
        + if u.Get? && u.blockno < |logical| && !InLog(l, u.blockno) then
            [Answer(u.blockno, logical[u.blockno], logical)]
          else []
  }

  /** The answers to the uses made while the number of images the disk has had is from a to b - 1. */
  ghost function Heard(l: Layout, logical: Image, others: nat -> seq<Use>, a: nat, b: nat): seq<Answer>
    decreases b
  {
    if a >= b then [] else Heard(l, logical, others, a, b - 1) + AnswersTo(l, logical, others(b - 1))
  }

  /** Uses without a bread: they take no buffer. */
  ghost predicate Puts(uses: seq<Use>) { forall i :: 0 <= i < |uses| ==> uses[i].Put? }

  ghost predicate PutsFrom(others: nat -> seq<Use>, a: nat, b: nat) { forall j :: a <= j < b ==> Puts(others(j)) }

  /** Nobody else asks for a buffer during a commit of n blocks. */
  ghost predicate NoBreads(others: nat -> seq<Use>, n: nat) { PutsFrom(others, 0, 2 * n + 2) }

  lemma AnswerNext(l: Layout, logical: Image, uses: seq<Use>, i: nat)
    requires i < |uses|
    ensures AnswersTo(l, logical, uses[..i + 1]) == AnswersTo(l, logical, uses[..i]) + AnswersTo(l, logical, [uses[i]])
  {
    assert uses[..i + 1][..i] == uses[..i] && [uses[i]][..0] == [];
  }

  /** k rounds of write_log, the header, k rounds of install_trans, the header. */
  lemma HeardInAll(l: Layout, logical: Image, others: nat -> seq<Use>, k: nat)
    ensures Heard(l, logical, others, 0, k) + AnswersTo(l, logical, others(k))
              + Heard(l, logical, others, k + 1, 2 * k + 1)
              + AnswersTo(l, logical, others(2 * k + 1))
            == Heard(l, logical, others, 0, 2 * k + 2)
  {
    HeardTogether(l, logical, others, 0, k + 1, 2 * k + 1);
  }

  lemma HeardNothing(l: Layout, logical: Image, others: nat -> seq<Use>)
    ensures Heard(l, logical, others, 0, 0) == []
  {
  }

  lemma {:induction false} HeardTogether(l: Layout, logical: Image, others: nat -> seq<Use>, a: nat, b: nat, c: nat)
    requires a <= b <= c
    ensures Heard(l, logical, others, a, b) + Heard(l, logical, others, b, c) == Heard(l, logical, others, a, c)
    decreases c
  {
    if b < c { HeardTogether(l, logical, others, a, b, c - 1); }
  }

  /** Exactly the buffers that file system code has got and not yet given back are held. */
  ghost predicate HeldOk(l: Layout, s: State, held: multiset<nat>)
    requires Inv(s)
  {
    && (forall b :: b in held ==> b < NBUF && s.buf[b].valid && s.buf[b].dev == ROOTDEV && !InLog(l, s.buf[b].blockno))
    && (forall b :: 0 <= b < NBUF ==> s.holders[b] == held[b])
  }

  lemma HeldStays(l: Layout, s: State, u: State, held: multiset<nat>)
    requires Inv(s) && Inv(u) && HeldOk(l, s, held) && StillIndexed(s, u) && u.holders == s.holders
    ensures HeldOk(l, u, held)
  {
    hide ListInv;
  }

  lemma HeldRewritten(l: Layout, s: State, u: State, k: nat, data: Block, held: multiset<nat>)
    requires Inv(s) && Inv(u) && k < |s.disk| && Rewritten(s, u, k, data) && HeldOk(l, s, held)
    ensures HeldOk(l, u, held)
  {
    hide View, ListInv, Indexed, Counted, StillIndexed, HeldOk;
    HeldStays(l, s, u, held);
  }

  lemma HeldGot(l: Layout, s: State, t: State, k: nat, b: nat, held: multiset<nat>)
    requires Inv(s) && Inv(t) && k < |s.disk| && Got(s, t, k, b) && !InLog(l, k) && HeldOk(l, s, held)
    ensures HeldOk(l, t, held + multiset{b})
  {
    hide ListInv, View;
    GotStill(s, t, k, b);
  }

  lemma HeldReleased(l: Layout, s: State, t: State, b: nat, held: multiset<nat>)
    requires Inv(s) && Inv(t) && HeldOk(l, s, held) && b in held && Released(s, t, b)
    ensures HeldOk(l, t, held - multiset{b})
  {
    hide ListInv, View;
  }

  lemma HeldLogged(l: Layout, s: State, b: nat, lh: seq<nat>, held: multiset<nat>)
    requires Inv(s) && b < NBUF && Inv(LoggedState(s, b, lh)) && HeldOk(l, s, held)
    ensures HeldOk(l, LoggedState(s, b, lh), held)
  {
    hide ListInv, View;
  }

  lemma HeldFilled(l: Layout, s: State, b: nat, data: Block, held: multiset<nat>)
    requires Inv(s) && b < NBUF && Inv(Filled(s, b, data)) && HeldOk(l, s, held)
    ensures HeldOk(l, Filled(s, b, data), held)
  {
    hide ListInv, View;
  }

  lemma HeldReleasable(l: Layout, s: State, b: nat, held: multiset<nat>)
    requires Inv(s) && HeldOk(l, s, held) && b in held
    ensures b < NBUF && s.buf[b].valid && s.buf[b].dev == ROOTDEV && s.holders[b] > 0 && !InLog(l, s.buf[b].blockno)
  {
    hide ListInv, View;
  }

  lemma PinnedKept(s: State, lh: seq<nat>, k: nat)
    requires Inv(s) && PinsOk(s, lh) && k in lh
    ensures Kept(s, k)
  {
    hide ListInv, View;
  }

  /** With every buffer referenced no log block is cached: buffers are held or pinned for other blocks only. */
  lemma NoLogCached(l: Layout, s: State, lh: seq<nat>, held: multiset<nat>, k: nat)
    requires Inv(s) && Targets(l, |s.disk|, lh) && PinsOk(s, lh) && HeldOk(l, s, held) && Spare(s) == {}
    requires InLog(l, k)
    ensures k !in s.index
  {
    hide ListInv, View, Spare;
    if k in s.index { IsSpare(s, s.index[k]); }
  }

  // ---------- how many buffers are spare ----------

  ghost function Buffers(n: nat): (r: set<nat>)
    ensures |r| == n && forall b :: b in r <==> 0 <= b < n
  {
    if n == 0 then {} else Buffers(n - 1) + {n - 1}
  }

  /** The buffers of the blocks in a list. */
  ghost function BuffersOf(s: State, lh: seq<nat>): (r: set<nat>)
    requires forall k :: k in lh ==> k in s.index
    ensures |r| <= |lh| && forall b :: b in r <==> exists k :: k in lh && s.index[k] == b
    decreases |lh|
  {
    if lh == [] then {}
    else
      var most, k := lh[..|lh| - 1], lh[|lh| - 1];
      assert forall x :: x in lh <==> x in most || x == k;
      BuffersOf(s, most) + {s.index[k]}
  }

  /** Different blocks are in different buffers. */
  lemma {:induction false} BuffersApart(s: State, lh: seq<nat>)
    requires Inv(s) && DistinctBlocks(lh) && forall k :: k in lh ==> k in s.index
    ensures |BuffersOf(s, lh)| == |lh|
    decreases |lh|
  {
    hide ListInv, Counted, View;
    if |lh| > 0 {
      var most, k := lh[..|lh| - 1], lh[|lh| - 1];
      assert forall x :: x in lh <==> x in most || x == k;
      BuffersApart(s, most);
      assert s.index[k] !in BuffersOf(s, most);
    }
  }

  lemma {:induction false} Support(held: multiset<nat>, n: nat) returns (h: set<nat>)
    ensures |h| <= |held| && forall b :: b in h <==> b in held && 0 <= b < n
    decreases n
  {
    if n == 0 {
      h := {};
    } else {
      var b := n - 1;
      h := Support(held[b := 0], n - 1);
      assert held == held[b := 0] + multiset{}[b := held[b]];
      assert |held| == |held[b := 0]| + held[b];
      if b in held { h := h + {b}; }
    }
  }

  lemma Union(a: set<nat>, b: set<nat>, c: set<nat>, all: set<nat>)
    requires all <= a + b + c
    ensures |all| <= |a| + |b| + |c|
  {
    assert |a + b| == |a| + |b| - |a * b|;
    assert |a + b + c| == |a + b| + |c| - |(a + b) * c|;
    assert a + b + c == all + (a + b + c - all);
  }

  /** All buffers but those that are held and those pinned for the log are spare. */
  lemma SpareBuffers(l: Layout, s: State, lh: seq<nat>, held: multiset<nat>)
    requires Inv(s) && PinsOk(s, lh) && HeldOk(l, s, held)
    ensures |Spare(s)| + |held| + |lh| >= NBUF
  {
    hide ListInv, View, Spare;
    var h := Support(held, NBUF);
    var p := BuffersOf(s, lh);
    forall b | b in Buffers(NBUF) ensures b in Spare(s) + h + p {
      IsSpare(s, b);
      if s.pins[b] > 0 { assert s.index[s.buf[b].blockno] == b; }
    }
    Union(Spare(s), h, p, Buffers(NBUF));
  }

  /** Before anybody has got a buffer all are spare. */
  lemma AllSpare(s: State)
    requires Inv(s) && s.holders == seq(NBUF, _ => 0) && s.pins == seq(NBUF, _ => 0)
    ensures |Spare(s)| == NBUF
  {
    hide ListInv, View, Spare;
    forall b ensures b in Spare(s) <==> b in Buffers(NBUF) {
      SpareBelow(s);
      if 0 <= b < NBUF { IsSpare(s, b); }
    }
    assert Spare(s) == Buffers(NBUF);
  }

  lemma SomeSpare(l: Layout, s: State, lh: seq<nat>, held: multiset<nat>)
    requires Inv(s) && PinsOk(s, lh) && HeldOk(l, s, held)
    ensures |held| + |lh| < NBUF ==> Spare(s) != {}
  {
    hide Inv, PinsOk, HeldOk, Spare;
    SpareBuffers(l, s, lh, held);
  }

  /** As many logged blocks as there are buffers leave none. */
  lemma AllPinned(s: State, lh: seq<nat>)
    requires Inv(s) && PinsOk(s, lh) && DistinctBlocks(lh) && |lh| >= NBUF
    ensures Spare(s) == {}
  {
    hide ListInv, Counted, View, Spare, Buffers, BuffersOf;
    BuffersApart(s, lh);
    PinnedBuffers(s, lh);
    Whole(BuffersOf(s, lh), NBUF);
    forall b ensures b !in Spare(s) {
      SpareBelow(s);
      if b in Spare(s) { IsSpare(s, b); }
    }
  }

  lemma PinnedBuffers(s: State, lh: seq<nat>)
    requires Inv(s) && PinsOk(s, lh)
    ensures forall b :: b in BuffersOf(s, lh) ==> 0 <= b < NBUF && s.pins[b] == 1
  {
    hide ListInv, View;
  }

  lemma Whole(p: set<nat>, n: nat)
    requires |p| >= n && forall b :: b in p ==> 0 <= b < n
    ensures forall b :: 0 <= b < n ==> b in p
  {
    var r := Buffers(n);
    assert r == p + (r - p);
    assert r - p == {};
  }

  lemma SpareBelow(s: State)
    ensures forall b :: b in Spare(s) ==> 0 <= b < NBUF
  {
  }

  lemma ReleasedSpares(s: State, t: State, b: nat)
    requires Inv(s) && Inv(t) && b < NBUF && s.holders[b] > 0 && Released(s, t, b)
    ensures Spare(s) <= Spare(t)
  {
    hide View, ListInv, Indexed, Spare;
    SpareStays(s, t);
  }

  lemma StablePins(s: State, t: State, lh: seq<nat>)
    requires Inv(s) && Inv(t) && Stable(s, t) && PinsOk(s, lh)
    ensures PinsOk(t, lh)
  {
    forall b | 0 <= b < NBUF && t.pins[b] > 0 ensures t.buf[b].dev == ROOTDEV && t.buf[b].blockno in lh {
      assert s.index[s.buf[b].blockno] == b;
    }
  }

  lemma RewriteKeepsPins(s: State, u: State, lh: seq<nat>, k: nat, data: Block)
    requires Inv(s) && Inv(u) && k < |s.disk|
    requires PinsOk(s, lh) && u.pins == s.pins && Rewritten(s, u, k, data)
    ensures PinsOk(u, lh)
  {
    assert Stable(s, u) by { hide View, ListInv, PinsOk; }
    StablePins(s, u, lh);
  }

  lemma LoggedFrom(l: Layout, s: State, lh: seq<nat>, logical: Image, tail: nat)
    requires Inv(s) && Targets(l, |s.disk|, lh) && tail < |lh| && LogicalOk(l, s, lh, logical, {})
    ensures View(s, lh[tail]) == logical[lh[tail]]
  {
    hide ListInv, Counted, View;
  }

  /** What the loop of install_trans needs before round tail. */
  ghost predicate InstallReady(l: Layout, s: State, lh: seq<nat>, logical: Image, recovering: bool, tail: nat)
    requires Inv(s) && Targets(l, |s.disk|, lh) && tail <= |lh|
  {
    if recovering then
      PinsOk(s, []) && forall k :: 0 <= k < |s.disk| ==> View(s, k) == s.disk[k]
    else
      && PinsOk(s, lh[tail..]) && LogicalOk(l, s, lh[tail..], logical, {}) && DistinctBlocks(lh)
      && forall i :: tail <= i < |lh| ==> s.disk[l.start + 1 + i] == logical[lh[i]]
  }

  lemma SameLength(l: Layout, s: State, lh: seq<nat>, logical: Image, dirty: set<nat>)
    requires Inv(s) && LogicalOk(l, s, lh, logical, dirty)
    ensures |logical| == |s.disk|
  {
  }

  lemma InstallPending(l: Layout, s: State, lh: seq<nat>, logical: Image, tail: nat)
    requires Inv(s) && Targets(l, |s.disk|, lh) && tail <= |lh| && InstallReady(l, s, lh, logical, false, tail)
    ensures PinsOk(s, lh[tail..]) && LogicalOk(l, s, lh[tail..], logical, {})
  {
    hide PinsOk, LogicalOk;
  }

  lemma StillReady(l: Layout, s: State, t: State, lh: seq<nat>, logical: Image, tail: nat)
    requires Inv(s) && Inv(t) && Targets(l, |s.disk|, lh) && tail <= |lh|
             && InstallReady(l, s, lh, logical, false, tail)
    requires t.disk == s.disk && PinsOk(t, lh[tail..]) && LogicalOk(l, t, lh[tail..], logical, {})
    ensures InstallReady(l, t, lh, logical, false, tail)
  {
    hide PinsOk, LogicalOk;
  }

  /** While install_trans copies blocks home, a bread of any block returns what was last logged for it. */
  lemma ReaderDuringInstall(l: Layout, s: State, t: State, lh: seq<nat>, logical: Image, tail: nat, k: nat, b: nat)
    requires Inv(s) && Inv(t) && Targets(l, |s.disk|, lh) && tail <= |lh|
             && InstallReady(l, s, lh, logical, false, tail)
    requires k < |s.disk| && Got(s, t, k, b) && SameView(s, t) && !InLog(l, k)
    ensures t.disk == s.disk && InstallReady(l, t, lh, logical, false, tail)
    ensures k < |logical| && t.buf[b].data == logical[k]
  {
    hide ListInv, View, PinsOk, LogicalOk;
    SameLength(l, s, lh[tail..], logical, {});
    ReadKeepsLog(l, s, t, k, b, lh[tail..], logical, {});
  }

  lemma InstallNeeds(l: Layout, s: State, lh: seq<nat>, logical: Image, recovering: bool, tail: nat)
    requires Inv(s) && Targets(l, |s.disk|, lh) && tail < |lh| && InstallReady(l, s, lh, logical, recovering, tail)
    ensures !recovering ==> lh[tail] in s.index && s.pins[s.index[lh[tail]]] > 0
    ensures View(s, l.start + tail + 1) == s.disk[l.start + tail + 1]
  {
    hide ListInv, Counted, View;
    assert lh[tail] in lh[tail..];
  }

  lemma InstalledOne(l: Layout, s: State, u: State, lh: seq<nat>, logical: Image, recovering: bool, tail: nat)
    requires Inv(s) && Inv(u) && Targets(l, |s.disk|, lh) && tail < |lh|
             && InstallReady(l, s, lh, logical, recovering, tail)
    requires Rewritten(s, u, lh[tail], View(s, l.start + tail + 1))
    requires recovering ==> u.pins == s.pins
    requires !recovering ==>
               lh[tail] in s.index && s.pins[s.index[lh[tail]]] > 0
               && u.pins == s.pins[s.index[lh[tail]] := s.pins[s.index[lh[tail]]] - 1]
    ensures InstallReady(l, u, lh, logical, recovering, tail + 1)
    ensures u.disk == s.disk[lh[tail] := s.disk[l.start + tail + 1]]
  {
    hide ListInv, Counted, Indexed, View, InstallReady, Rewritten;
    if recovering {
      InstalledRecovering(l, s, u, lh, logical, tail);
    } else {
      InstalledCommitting(l, s, u, lh, logical, tail);
    }
  }

  lemma InstalledRecovering(l: Layout, s: State, u: State, lh: seq<nat>, logical: Image, tail: nat)
    requires Inv(s) && Inv(u) && Targets(l, |s.disk|, lh) && tail < |lh| && InstallReady(l, s, lh, logical, true, tail)
    requires Rewritten(s, u, lh[tail], View(s, l.start + tail + 1)) && u.pins == s.pins
    ensures InstallReady(l, u, lh, logical, true, tail + 1)
    ensures u.disk == s.disk[lh[tail] := s.disk[l.start + tail + 1]]
  {
    hide ListInv, Counted, Indexed, View, PinsOk, StillIndexed;
    RewriteKeepsPins(s, u, [], lh[tail], View(s, l.start + tail + 1));
  }

  lemma InstalledCommitting(l: Layout, s: State, u: State, lh: seq<nat>, logical: Image, tail: nat)
    requires Inv(s) && Inv(u) && Targets(l, |s.disk|, lh) && tail < |lh| && InstallReady(l, s, lh, logical, false, tail)
    requires Rewritten(s, u, lh[tail], View(s, l.start + tail + 1))
    requires lh[tail] in s.index && s.pins[s.index[lh[tail]]] > 0
             && u.pins == s.pins[s.index[lh[tail]] := s.pins[s.index[lh[tail]]] - 1]
    ensures InstallReady(l, u, lh, logical, false, tail + 1)
    ensures u.disk == s.disk[lh[tail] := s.disk[l.start + tail + 1]]
  {
    hide ListInv, Counted, Indexed, View, PinsOk, LogicalOk, Rewritten, StillIndexed, InstallReady;
    var k, rest := lh[tail], lh[tail + 1..];
    CommittingRound(l, s, lh, logical, tail);
    UnpinOne(s, u, k, rest, logical[k]);
    HomeOne(l, s, u, k, rest, logical);
    RewrittenDisk(s, u, k, logical[k]);
    CommittingNext(l, s, u, lh, logical, tail);
  }

  lemma CommittingRound(l: Layout, s: State, lh: seq<nat>, logical: Image, tail: nat)
    requires Inv(s) && Targets(l, |s.disk|, lh) && tail < |lh| && InstallReady(l, s, lh, logical, false, tail)
    ensures var k, rest := lh[tail], lh[tail + 1..];
            && k !in rest && |logical| == |s.disk|
               && s.disk[l.start + tail + 1] == logical[k] == View(s, l.start + tail + 1)
            && PinsOk(s, [k] + rest) && LogicalOk(l, s, [k] + rest, logical, {})
  {
    hide ListInv, Counted, Indexed, View, PinsOk, LogicalOk;
    assert lh[tail..] == [lh[tail]] + lh[tail + 1..];
    InstallNeeds(l, s, lh, logical, false, tail);
    SameLength(l, s, lh[tail..], logical, {});
  }

  lemma CommittingNext(l: Layout, s: State, u: State, lh: seq<nat>, logical: Image, tail: nat)
    requires Inv(s) && Inv(u) && Targets(l, |s.disk|, lh) && tail < |lh| && InstallReady(l, s, lh, logical, false, tail)
    requires |logical| == |s.disk| && u.disk == s.disk[lh[tail] := logical[lh[tail]]]
    requires PinsOk(u, lh[tail + 1..]) && LogicalOk(l, u, lh[tail + 1..], logical, {})
    ensures InstallReady(l, u, lh, logical, false, tail + 1)
  {
    hide ListInv, Counted, Indexed, View, PinsOk, LogicalOk;
  }

  lemma UnpinOne(s: State, u: State, k: nat, rest: seq<nat>, data: Block)
    requires Inv(s) && Inv(u) && k < |s.disk| && Rewritten(s, u, k, data) && k !in rest
    requires PinsOk(s, [k] + rest) && k in s.index && s.pins[s.index[k]] > 0
    requires u.pins == s.pins[s.index[k] := s.pins[s.index[k]] - 1]
    ensures PinsOk(u, rest)
  {
    hide ListInv, View;
    forall b | 0 <= b < NBUF && u.pins[b] > 0 ensures u.buf[b].dev == ROOTDEV && u.buf[b].blockno in rest {
      assert s.pins[b] > 0 && s.index[s.buf[b].blockno] == b;
    }
  }

  lemma HomeOne(l: Layout, s: State, u: State, k: nat, rest: seq<nat>, logical: Image)
    requires Inv(s) && Inv(u) && k < |s.disk| && |logical| == |s.disk| && !InLog(l, k) && Rewritten(s, u, k, logical[k])
    requires LogicalOk(l, s, [k] + rest, logical, {})
    ensures LogicalOk(l, u, rest, logical, {})
  {
    hide ListInv, Counted, View, StillIndexed;
  }

  lemma StoredAtStart(l: Layout, s: State, lh: seq<nat>, logical: Image, dirty: set<nat>)
    requires Inv(s) && LogicalOk(l, s, lh, logical, dirty)
    ensures Stored(l, s.disk, lh, logical) && |logical| == |s.disk|
  {
    hide ListInv, Counted, Indexed, View;
  }

  /** Without a commit there is no image and nothing is heard. */
  lemma NothingDone(l: Layout, s: State, trace: seq<Image>, lh: seq<nat>, logical: Image, dirty: set<nat>,
          others: nat -> seq<Use>)
    requires Inv(s) && LogicalOk(l, s, lh, logical, dirty) && |trace| > 0 && trace[|trace| - 1] == s.disk
    ensures CommitTrace(l, trace, trace, lh, logical) && Heard(l, logical, others, 0, 0) == []
  {
    hide Inv, LogicalOk, Stored, CommitTrace;
    StoredAtStart(l, s, lh, logical, dirty);
    NoImages(l, trace, lh, logical);
  }

  lemma NothingLogged(l: Layout, s: State, logical: Image)
    requires Inv(s) && LogicalOk(l, s, [], logical, {})
    ensures HomeEq(l, s.disk, logical)
  {
    hide ListInv, Counted, Indexed, View;
  }

  lemma HeadReadable(l: Layout, s: State, lh: seq<nat>, logical: Image)
    requires Inv(s) && LOGSIZE < l.size && l.start + l.size <= |s.disk| && LogicalOk(l, s, lh, logical, {})
    ensures View(s, l.start) == s.disk[l.start]
  {
    hide ListInv, Counted, View;
  }

  lemma RewriteInLog(l: Layout, s: State, u: State, k: nat, data: Block, lh: seq<nat>, logical: Image)
    requires Inv(s) && Inv(u) && k < |s.disk| && InLog(l, k) && Rewritten(s, u, k, data)
    requires LogicalOk(l, s, lh, logical, {})
    ensures LogicalOk(l, u, lh, logical, {}) && u.disk == s.disk[k := data]
  {
    hide ListInv, Counted, StillIndexed, View;
  }

  lemma AfterHead(l: Layout, s: State, u: State, t0: seq<Image>, t1: seq<Image>, lh: seq<nat>, logical: Image)
    requires Inv(s) && Inv(u) && Targets(l, |s.disk|, lh) && DistinctBlocks(lh)
    requires PinsOk(s, lh) && LogicalOk(l, s, lh, logical, {}) && u.pins == s.pins
    requires Rewritten(s, u, l.start, PutHeader(s.disk[l.start], lh, |lh|))
    requires |t0| > 0 && |t0[|t0| - 1]| == |s.disk| && Stored(l, t0[|t0| - 1], lh, logical)
    requires HeaderCount(t0[|t0| - 1][l.start]) == 0 && WriteLogTrace(l, t0, t1, lh, logical)
    requires |t1| == |t0| + |lh| && t1[|t1| - 1] == s.disk
    ensures |u.disk| == |s.disk| && InstallReady(l, u, lh, logical, false, 0)
    ensures AtCommit(l, u.disk, lh, logical) && CommitTrace(l, t0, t1 + [u.disk], lh, logical)
  {
    hide ListInv, Counted, Indexed, StillIndexed, View, PinsOk, LogicalOk, PutHeader, Recovered, HomeEq, CommitTrace;
    hide AtCommit, Rewritten;
    RewriteKeepsPins(s, u, lh, l.start, PutHeader(s.disk[l.start], lh, |lh|));
    RewriteInLog(l, s, u, l.start, PutHeader(s.disk[l.start], lh, |lh|), lh, logical);
    HeadWritten(l, t0, t1, lh, logical);
    assert lh[0..] == lh;
  }

  lemma InstalledAll(l: Layout, s: State, lh: seq<nat>, logical: Image)
    requires Inv(s) && Targets(l, |s.disk|, lh) && InstallReady(l, s, lh, logical, false, |lh|)
    ensures PinsOk(s, []) && LogicalOk(l, s, [], logical, {})
  {
    hide ListInv, Counted, Indexed, View, PinsOk, LogicalOk;
    assert lh[|lh|..] == [];
  }

  lemma AfterClear(l: Layout, s: State, u: State, t0: seq<Image>, t2: seq<Image>, t3: seq<Image>, lh: seq<nat>,
          logical: Image)
    requires Inv(s) && Inv(u) && Targets(l, |s.disk|, lh)
    requires PinsOk(s, []) && LogicalOk(l, s, [], logical, {}) && u.pins == s.pins
    requires Rewritten(s, u, l.start, PutHeader(s.disk[l.start], [], 0))
    requires |t2| == |t0| + |lh| + 1 && AtCommit(l, t2[|t2| - 1], lh, logical) && CommitTrace(l, t0, t3, lh, logical)
    requires InstallTrace(l, t2, t3, lh) && |t3| == |t2| + |lh| && t3[|t3| - 1] == s.disk
    ensures PinsOk(u, []) && LogicalOk(l, u, [], logical, {}) && |u.disk| == |s.disk|
    ensures HeaderCount(u.disk[l.start]) == 0 && HomeEq(l, u.disk, logical)
    ensures CommitTrace(l, t0, t3 + [u.disk], lh, logical)
  {
    RewriteKeepsPins(s, u, [], l.start, PutHeader(s.disk[l.start], [], 0));
    RewriteInLog(l, s, u, l.start, PutHeader(s.disk[l.start], [], 0), [], logical);
    hide ListInv, Counted, Indexed, StillIndexed, View, PinsOk, LogicalOk, Rewritten;
    ClearedLast(l, t0, t2, t3, lh, logical);
  }

  /** A block that is read and released leaves the cache coherent. */
  lemma HeadRead(l: Layout, s: State, t: State, u: State, b: nat, logical: Image)
    requires Inv(s) && Inv(t) && Inv(u) && l.start < |s.disk| && WfImage(l, s.disk)
    requires PinsOk(s, []) && forall k :: 0 <= k < |s.disk| ==> View(s, k) == s.disk[k]
    requires Got(s, t, l.start, b) && SameView(s, t) && t.holders[b] > 0 && Released(t, u, b) && SameView(t, u)
    ensures u.disk == s.disk && InstallReady(l, u, HeaderBlocks(s.disk[l.start]), logical, true, 0)
  {
    ViewTransitive(s, t, u);
    hide View, ListInv, Indexed, Counted;
  }

  lemma RecoveredHome(l: Layout, s: State, lh: seq<nat>, logical: Image)
    requires Inv(s) && Targets(l, |s.disk|, lh) && InstallReady(l, s, lh, logical, true, |lh|)
    ensures View(s, l.start) == s.disk[l.start]
  {
    hide View, ListInv, Counted;
  }

  lemma RecoveryDone(l: Layout, s: State, u: State, t0: seq<Image>, t1: seq<Image>, blocks: seq<nat>, logical: Image)
    requires |t0| > 0 && WfImage(l, t0[|t0| - 1]) && blocks == HeaderBlocks(t0[|t0| - 1][l.start])
    requires InstallTrace(l, t0, t1, blocks) && |t1| == |t0| + |blocks| && t1[|t1| - 1] == s.disk
    requires Inv(s) && Inv(u) && Targets(l, |s.disk|, blocks) && InstallReady(l, s, blocks, logical, true, |blocks|)
    requires Rewritten(s, u, l.start, PutHeader(s.disk[l.start], [], 0)) && u.pins == s.pins
    ensures PinsOk(u, []) && LogicalOk(l, u, [], u.disk, {}) && HeaderCount(u.disk[l.start]) == 0
    ensures u.disk == Recovered(l, t0[|t0| - 1]) && |u.disk| == |s.disk| && DuringRecovery(l, t0[|t0| - 1], u.disk)
  {
    hide View, ListInv, Indexed, Counted, StillIndexed, PinsOk, Installed, HeaderBlocks, InstallReady, LogicalOk;
    hide Rewritten, DuringRecovery;
    RewrittenDisk(s, u, l.start, PutHeader(s.disk[l.start], [], 0));
    ClearedHeader(l, s.disk);
    assert s.disk == Installed(l, t0[|t0| - 1], blocks, |blocks|);
    RecoveredLogical(l, s, u, blocks, logical);
    IsDuring(l, t0[|t0| - 1]);
  }

  lemma IsDuring(l: Layout, d: Image)
    requires WfImage(l, d)
    ensures DuringRecovery(l, d, Recovered(l, d))
  {
  }

  lemma RecoveredLogical(l: Layout, s: State, u: State, blocks: seq<nat>, logical: Image)
    requires Inv(s) && Inv(u) && Targets(l, |s.disk|, blocks) && InstallReady(l, s, blocks, logical, true, |blocks|)
    requires Rewritten(s, u, l.start, PutHeader(s.disk[l.start], [], 0)) && u.pins == s.pins
    ensures PinsOk(u, []) && LogicalOk(l, u, [], u.disk, {})
  {
    hide View, ListInv, Counted, StillIndexed, PinsOk, PutHeader;
    RewriteKeepsPins(s, u, [], l.start, PutHeader(s.disk[l.start], [], 0));
  }

  lemma ReadKeepsLog(l: Layout, s: State, t: State, k: nat, b: nat, lh: seq<nat>, logical: Image, dirty: set<nat>)
    requires Inv(s) && Inv(t) && k < |s.disk| && Got(s, t, k, b) && SameView(s, t) && !InLog(l, k)
    requires PinsOk(s, lh) && LogicalOk(l, s, lh, logical, dirty)
    ensures PinsOk(t, lh) && LogicalOk(l, t, lh, logical, dirty)
    ensures k !in dirty ==> t.buf[b].data == logical[k]
  {
    hide ListInv, View, PinsOk;
    GotStill(s, t, k, b);
    ReadKeepsPins(s, t, k, b, lh);
  }

  lemma ReadKeepsPins(s: State, t: State, k: nat, b: nat, lh: seq<nat>)
    requires Inv(s) && Inv(t) && k < |s.disk| && Got(s, t, k, b) && StillIndexed(s, t) && PinsOk(s, lh)
    ensures PinsOk(t, lh)
  {
    hide ListInv, View;
  }

  lemma ModifyKeepsLog(l: Layout, s: State, b: nat, data: Block, lh: seq<nat>, logical: Image, dirty: set<nat>)
    requires Inv(s) && b < NBUF && s.buf[b].valid && s.holders[b] > 0 && s.buf[b].dev == ROOTDEV
             && !InLog(l, s.buf[b].blockno)
    requires PinsOk(s, lh) && LogicalOk(l, s, lh, logical, dirty)
    ensures var t := Filled(s, b, data);
            Inv(t) && PinsOk(t, lh) && LogicalOk(l, t, lh, logical, dirty + {s.buf[b].blockno})
  {
    hide ListInv, View, PinsOk, LogicalOk;
    FilledKeeps(s, b, data);
    FilledPins(s, b, data, lh);
    FilledLogical(l, s, b, data, lh, logical, dirty);
  }

  lemma FilledPins(s: State, b: nat, data: Block, lh: seq<nat>)
    requires Inv(s) && b < NBUF && Inv(Filled(s, b, data)) && PinsOk(s, lh)
    ensures PinsOk(Filled(s, b, data), lh)
  {
    hide ListInv;
  }

  lemma FilledLogical(l: Layout, s: State, b: nat, data: Block, lh: seq<nat>, logical: Image, dirty: set<nat>)
    requires Inv(s) && b < NBUF && s.buf[b].valid && s.holders[b] > 0 && s.buf[b].dev == ROOTDEV
             && !InLog(l, s.buf[b].blockno)
    requires Inv(Filled(s, b, data)) && LogicalOk(l, s, lh, logical, dirty)
    ensures LogicalOk(l, Filled(s, b, data), lh, logical, dirty + {s.buf[b].blockno})
  {
    hide ListInv, Counted;
  }

  lemma Releasable(l: Layout, s: State, b: nat, lh: seq<nat>, logical: Image, dirty: set<nat>)
    requires Inv(s) && b < NBUF && s.buf[b].valid && s.holders[b] > 0 && !InLog(l, s.buf[b].blockno)
    requires PinsOk(s, lh) && LogicalOk(l, s, lh, logical, dirty)
    requires s.holders[b] == 1 ==> s.buf[b].blockno !in dirty
    ensures s.buf[b].dev == ROOTDEV && (s.buf[b].refcnt == 1 ==> s.buf[b].data == s.disk[s.buf[b].blockno])
  {
    hide ListInv;
    if s.buf[b].refcnt == 1 { assert s.buf[b].data == View(s, s.buf[b].blockno); }
  }

  lemma ReleaseKeepsLog(l: Layout, s: State, t: State, b: nat, lh: seq<nat>, logical: Image, dirty: set<nat>)
    requires Inv(s) && Inv(t) && b < NBUF && s.buf[b].dev == ROOTDEV && s.holders[b] > 0
    requires Released(s, t, b) && SameView(s, t) && PinsOk(s, lh) && LogicalOk(l, s, lh, logical, dirty)
    requires s.holders[b] == 1 ==> s.buf[b].blockno !in dirty
    ensures PinsOk(t, lh) && LogicalOk(l, t, lh, logical, dirty)
  {
    hide ListInv, View;
  }

  ghost function LoggedState(s: State, b: nat, lh: seq<nat>): State
    requires Inv(s) && b < NBUF
  {
    if s.buf[b].blockno in lh then s else Pinned(s, b)
  }

  lemma LoggedBuffer(s: State, b: nat, lh: seq<nat>)
    requires Inv(s) && b < NBUF
    ensures var t := LoggedState(s, b, lh);
            |t.buf| == |s.buf| == NBUF + 1 && t.buf[b].blockno == s.buf[b].blockno && t.buf[b].data == s.buf[b].data
  {
    hide ListInv;
  }

  lemma WriteKeepsPins(s: State, b: nat, lh: seq<nat>)
    requires Inv(s) && b < NBUF && s.buf[b].valid && s.holders[b] > 0 && s.buf[b].dev == ROOTDEV && PinsOk(s, lh)
    ensures var t := LoggedState(s, b, lh);
            && Inv(t) && SameView(s, t) && PinsOk(t, GC.Absorbed(lh, s.buf[b].blockno))
            && t.index == s.index && t.disk == s.disk && t.holders == s.holders
  {
    hide ListInv, View, SameView;
    if s.buf[b].blockno in lh { ViewReflexive(s); } else { PinnedKeeps(s, b); }
  }

  lemma ViewReflexive(s: State)
    requires Indexed(s)
    ensures SameView(s, s)
  {
    hide View;
  }

  lemma HeldIsViewed(s: State, b: nat)
    requires Inv(s) && b < NBUF && s.buf[b].valid && s.buf[b].dev == ROOTDEV
    ensures s.buf[b].blockno < |s.disk| && View(s, s.buf[b].blockno) == s.buf[b].data
  {
    hide ListInv, Counted;
  }

  lemma WriteKeepsLog(l: Layout, s: State, b: nat, lh: seq<nat>, logical: Image, dirty: set<nat>)
    requires Inv(s) && b < NBUF && s.buf[b].valid && s.holders[b] > 0 && s.buf[b].dev == ROOTDEV
             && !InLog(l, s.buf[b].blockno)
    requires PinsOk(s, lh) && LogicalOk(l, s, lh, logical, dirty)
    ensures |logical| == |s.disk|
    ensures var k := s.buf[b].blockno; var t := LoggedState(s, b, lh);
            Inv(t) && PinsOk(t, GC.Absorbed(lh, k))
            && LogicalOk(l, t, GC.Absorbed(lh, k), logical[k := s.buf[b].data], dirty - {k})
  {
    hide ListInv, View, PinsOk, LoggedState;
    WriteKeepsPins(s, b, lh);
    HeldIsViewed(s, b);
    var k, t := s.buf[b].blockno, LoggedState(s, b, lh);
    forall x | 0 <= x < |t.disk| && !InLog(l, x) && x !in dirty - {k}
      ensures View(t, x) == logical[k := s.buf[b].data][x]
    {
      assert View(t, x) == View(s, x);
    }
  }

  lemma WriteKeepsTargets(l: Layout, n: nat, lh: seq<nat>, k: nat)
    requires Targets(l, n, lh) && DistinctBlocks(lh) && k < n && k < 0x1_0000_0000 && !InLog(l, k) && |lh| < LOGSIZE
    ensures Targets(l, n, GC.Absorbed(lh, k)) && DistinctBlocks(GC.Absorbed(lh, k))
  {
  }

  lemma NotCommitting(g: GC.G, op: nat)
    requires GC.Inv(g) && op in g.ops
    ensures !g.committing && |g.ops| >= 1 && |g.ops - {op}| == |g.ops| - 1
    ensures GC.Ended(g, op) == GC.G(g.lh, g.ops - {op}, g.ops.Keys == {op}, g.epoch)
    ensures |g.ops - {op}| == 0 <==> g.ops.Keys == {op}
  {
    assert g.ops.Keys - {op} == {} <==> g.ops.Keys == {op};
    assert g.ops.Keys == (g.ops - {op}).Keys + {op};
  }
}
