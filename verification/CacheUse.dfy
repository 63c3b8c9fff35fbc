/**
  What the short sequences of cache calls in kernel/log.c do: bread one or two blocks, change one,
  bwrite it, and brelse.
 */
module CacheUse {
  import opened Blocks
  import opened BufferCache

  /** References held across a call stay where they are. */
  ghost predicate Stable(s: State, t: State)
    requires Inv(s) && Inv(t)
  {
    && |s.disk| == |t.disk| && t.holders == s.holders && t.pins == s.pins
    && forall k ::
         k in s.index && s.buf[s.index[k]].refcnt > 0 ==>
           k in t.index && t.index[k] == s.index[k] && (s.buf[s.index[k]].valid ==> t.buf[s.index[k]].valid)
  }

  /** Blocks a and b have been read into x and y. */
  ghost predicate HeldPair(s: State, t: State, a: nat, x: nat, b: nat, y: nat)
    requires Inv(s) && Inv(t) && a < |s.disk| && b < |s.disk|
  {
    && x < NBUF && y < NBUF && x != y && t.disk == s.disk && t.pins == s.pins && SameView(s, t)
    && t.holders == s.holders[x := s.holders[x] + 1][y := s.holders[y] + 1]
    && t.buf[x].valid && t.buf[x].dev == ROOTDEV && t.buf[x].blockno == a && t.buf[x].data == View(s, a)
    && t.buf[y].valid && t.buf[y].dev == ROOTDEV && t.buf[y].blockno == b && t.buf[y].data == View(s, b)
    && (t.buf[x].refcnt == 1 ==> View(s, a) == s.disk[a]) && (t.buf[y].refcnt == 1 ==> View(s, b) == s.disk[b])
    && StillIndexed(s, t)
  }

  ghost predicate StillIndexed(s: State, t: State)
    requires Inv(s) && Inv(t)
  {
    forall k :: k in s.index && s.buf[s.index[k]].refcnt > 0 ==>
      k in t.index && t.index[k] == s.index[k] && (s.buf[s.index[k]].valid ==> t.buf[s.index[k]].valid)
  }

  lemma GotStill(s: State, t: State, k: nat, b: nat)
    requires Inv(s) && Inv(t) && k < |s.disk| && Got(s, t, k, b)
    ensures StillIndexed(s, t) && t.holders == s.holders[b := s.holders[b] + 1]
    ensures t.buf[b].refcnt == 1 ==> View(s, k) == s.disk[k]
  {
  }

  lemma StillTransitive(s: State, m: State, t: State)
    requires Inv(s) && Inv(m) && Inv(t) && StillIndexed(s, m) && StillIndexed(m, t)
    requires forall b :: 0 <= b < NBUF && s.buf[b].refcnt > 0 ==> m.buf[b].refcnt > 0
    ensures StillIndexed(s, t)
  {
    hide ListInv, Counted;
  }

  lemma ViewTransitive(s: State, m: State, t: State)
    requires Indexed(s) && Indexed(m) && Indexed(t) && SameView(s, m) && SameView(m, t)
    ensures SameView(s, t)
  {
    hide Indexed, View;
    forall k | 0 <= k < |s.disk| ensures View(t, k) == View(s, k) {
      assert View(m, k) == View(s, k);
    }
  }

  lemma DifferentBuffers(s: State, m: State, t: State, a: nat, x: nat, b: nat, y: nat)
    requires Inv(s) && Inv(m) && Inv(t) && a < |s.disk| && b < |m.disk| && a != b
    requires Got(s, m, a, x) && Got(m, t, b, y)
    ensures x != y && t.buf[x] == m.buf[x]
  {
    hide ListInv, Counted, View;
  }

  lemma PairStill(s: State, m: State, t: State, a: nat, x: nat, b: nat, y: nat)
    requires Inv(s) && Inv(m) && Inv(t) && a < |s.disk| && b < |s.disk| && a != b
    requires Got(s, m, a, x) && |m.disk| == |s.disk| && Got(m, t, b, y)
    ensures StillIndexed(s, t)
  {
    hide ListInv, Indexed, Counted, View, Got, StillIndexed;
    GotStill(s, m, a, x);
    GotStill(m, t, b, y);
    GotCounts(s, m, a, x);
    StillTransitive(s, m, t);
  }

  lemma GotCounts(s: State, m: State, a: nat, x: nat)
    requires Inv(s) && Inv(m) && a < |s.disk| && Got(s, m, a, x)
    ensures forall c :: 0 <= c < NBUF && s.buf[c].refcnt > 0 ==> m.buf[c].refcnt > 0
  {
    hide View, ListInv, Indexed;
  }

  lemma PairHeld(s: State, m: State, t: State, a: nat, x: nat, b: nat, y: nat)
    requires Inv(s) && Inv(m) && Inv(t) && a < |s.disk| && b < |s.disk| && a != b
    requires Got(s, m, a, x) && Got(m, t, b, y) && SameView(s, m) && SameView(m, t)
    ensures HeldPair(s, t, a, x, b, y)
  {
    hide View, StillIndexed, SameView, Inv, Got;
    GotBuffer(s, m, a, x);
    PairStill(s, m, t, a, x, b, y);
    GotBuffer(m, t, b, y);
    DifferentBuffers(s, m, t, a, x, b, y);
    PairView(s, m, t, b);
  }

  lemma PairView(s: State, m: State, t: State, b: nat)
    requires Inv(s) && Inv(m) && Inv(t) && SameView(s, m) && SameView(m, t) && b < |s.disk|
    ensures SameView(s, t) && View(m, b) == View(s, b)
  {
    hide View, Indexed, ListInv, Counted;
    ViewTransitive(s, m, t);
    ViewSame(s, m, b);
  }

  lemma GotBuffer(s: State, t: State, k: nat, b: nat)
    requires Inv(s) && Inv(t) && k < |s.disk| && Got(s, t, k, b)
    ensures b < NBUF && |t.buf| == NBUF + 1 && |s.holders| == |t.holders| == NBUF
    ensures t.disk == s.disk && t.pins == s.pins && t.holders == s.holders[b := s.holders[b] + 1]
    ensures t.buf[b].valid && t.buf[b].dev == ROOTDEV && t.buf[b].blockno == k && t.buf[b].data == View(s, k)
    ensures t.buf[b].refcnt == 1 ==> View(s, k) == s.disk[k]
  {
    hide View, ListInv;
    GotStill(s, t, k, b);
  }

  lemma ViewSame(s: State, t: State, k: nat)
    requires Indexed(s) && Indexed(t) && SameView(s, t) && k < |s.disk|
    ensures View(t, k) == View(s, k)
  {
    hide View, Indexed;
  }

  lemma HeldEitherWay(s: State, t: State, a: nat, x: nat, b: nat, y: nat)
    requires Inv(s) && Inv(t) && a < |s.disk| && b < |s.disk| && HeldPair(s, t, a, x, b, y)
    ensures HeldPair(s, t, b, y, a, x)
  {
    hide View, ListInv, Indexed, StillIndexed, SameView;
  }

  lemma PinnedStays(s: State, t: State, a: nat, x: nat, b: nat, y: nat)
    requires Inv(s) && Inv(t) && a < |s.disk| && b < |s.disk| && HeldPair(s, t, a, x, b, y)
    ensures b in s.index && s.pins[s.index[b]] > 0 ==> y == s.index[b]
  {
    hide View, ListInv, SameView;
  }

  /** Block k has new contents, in the cache and on the disk, and no reference taken on the way is left. */
  ghost predicate Rewritten(s: State, u: State, k: nat, data: Block)
    requires Inv(s) && Inv(u) && k < |s.disk|
  {
    && u.disk == s.disk[k := data] && View(u, k) == data
    && (forall i :: 0 <= i < |u.disk| && i != k ==> View(u, i) == View(s, i))
    && u.holders == s.holders && StillIndexed(s, u)
  }

  /** The contents of buffer from are in buffer to and on the disk, and to may have lost its pin. */
  ghost predicate Moved(t: State, m: State, from: nat, to: nat, unpin: bool)
    requires Inv(t) && Inv(m) && from < NBUF && to < NBUF && t.buf[to].blockno < |t.disk|
  {
    && m.disk == t.disk[t.buf[to].blockno := t.buf[from].data] && m.index == t.index && m.holders == t.holders
    && m.pins == (if unpin then t.pins[to := m.pins[to]] else t.pins) && (unpin ==> m.pins[to] + 1 == t.pins[to])
    && m.buf[to].data == t.buf[from].data && m.buf[to].dev == t.buf[to].dev && m.buf[to].blockno == t.buf[to].blockno
       && m.buf[to].valid
    && (forall b :: 0 <= b < NBUF && b != to ==> m.buf[b] == t.buf[b])
    && View(m, t.buf[to].blockno) == t.buf[from].data
    && forall k :: 0 <= k < |t.disk| && k != t.buf[to].blockno ==> View(m, k) == View(t, k)
  }

  lemma MoveKeeps(t: State, from: nat, to: nat)
    requires Inv(t) && from < NBUF && to < NBUF && from != to && t.buf[to].valid && t.buf[to].dev == ROOTDEV
             && t.buf[to].refcnt > 0
    ensures var m := Written(Filled(t, to, t.buf[from].data), to); Inv(m) && Moved(t, m, from, to, false)
  {
    FilledKeeps(t, to, t.buf[from].data);
    WrittenKeeps(Filled(t, to, t.buf[from].data), to);
  }

  lemma UnpinKeeps(t: State, m: State, from: nat, to: nat)
    requires Inv(t) && Inv(m) && from < NBUF && to < NBUF && from != to && t.buf[to].blockno < |t.disk|
             && Moved(t, m, from, to, false)
    requires m.pins[to] > 0 && m.holders[to] > 0
    ensures Inv(Unpinned(m, to)) && Moved(t, Unpinned(m, to), from, to, true)
  {
    UnpinnedKeeps(m, to);
  }

  lemma CopyHolders(s: State, t: State, m: State, n: State, u: State, src: nat, from: nat, dst: nat, to: nat,
          unpin: bool)
    requires Inv(s) && Inv(t) && Inv(m) && Inv(n) && Inv(u) && src < |s.disk| && dst < |s.disk| && src != dst
    requires HeldPair(s, t, src, from, dst, to) && Moved(t, m, from, to, unpin)
    requires m.holders[from] > 0 && Released(m, n, from) && n.holders[to] > 0 && Released(n, u, to)
             && (unpin ==> s.pins[to] > 0)
    ensures u.holders == s.holders && u.pins == (if unpin then s.pins[to := s.pins[to] - 1] else s.pins)
    ensures u.disk == s.disk[dst := View(s, src)] && u.index == t.index
  {
    hide View, ListInv, Indexed, StillIndexed, SameView, SameButLinks;
  }

  lemma CopyStill(s: State, t: State, m: State, n: State, u: State, src: nat, from: nat, dst: nat, to: nat, unpin: bool)
    requires Inv(s) && Inv(t) && Inv(m) && Inv(n) && Inv(u) && src < |s.disk| && dst < |s.disk| && src != dst
    requires HeldPair(s, t, src, from, dst, to) && Moved(t, m, from, to, unpin)
    requires m.holders[from] > 0 && Released(m, n, from) && n.holders[to] > 0 && Released(n, u, to)
    ensures StillIndexed(s, u)
  {
    hide View, ListInv, SameView, Counted;
    assert forall b :: 0 <= b < NBUF && t.buf[b].valid ==> u.buf[b].valid;
  }

  lemma CopyFinished(s: State, t: State, m: State, n: State, u: State, src: nat, from: nat, dst: nat, to: nat,
          unpin: bool)
    requires Inv(s) && Inv(t) && Inv(m) && Inv(n) && Inv(u) && src < |s.disk| && dst < |s.disk| && src != dst
    requires HeldPair(s, t, src, from, dst, to) && Moved(t, m, from, to, unpin)
    requires m.holders[from] > 0 && Released(m, n, from) && SameView(m, n)
    requires n.holders[to] > 0 && Released(n, u, to) && SameView(n, u) && (unpin ==> s.pins[to] > 0)
    ensures Rewritten(s, u, dst, View(s, src)) && u.pins == if unpin then s.pins[to := s.pins[to] - 1] else s.pins
  {
    CopyHolders(s, t, m, n, u, src, from, dst, to, unpin);
    CopyStill(s, t, m, n, u, src, from, dst, to, unpin);
    hide ListInv, Counted, Indexed, StillIndexed, Released, View;
    forall k | 0 <= k < |u.disk| ensures View(u, k) == if k == dst then View(s, src) else View(s, k) {
      assert View(u, k) == View(n, k) && View(n, k) == View(m, k) && View(t, k) == View(s, k);
    }
  }

  /** Buffer b and its block on the disk have new contents. */
  ghost predicate FilledAndWritten(t: State, m: State, b: nat, data: Block)
    requires Inv(t) && Inv(m) && b < NBUF && t.buf[b].blockno < |t.disk|
  {
    && m.disk == t.disk[t.buf[b].blockno := data] && m.index == t.index && m.holders == t.holders && m.pins == t.pins
    && m.buf[b] == t.buf[b].(data := data, valid := true)
    && (forall x :: 0 <= x < NBUF && x != b ==> m.buf[x] == t.buf[x])
    && View(m, t.buf[b].blockno) == data
    && forall k :: 0 <= k < |t.disk| && k != t.buf[b].blockno ==> View(m, k) == View(t, k)
  }

  lemma FillKeeps(t: State, b: nat, data: Block)
    requires Inv(t) && b < NBUF && t.buf[b].valid && t.buf[b].dev == ROOTDEV && t.buf[b].refcnt > 0
    ensures var m := Written(Filled(t, b, data), b); Inv(m) && FilledAndWritten(t, m, b, data)
  {
    FilledKeeps(t, b, data);
    WrittenKeeps(Filled(t, b, data), b);
  }

  lemma RewriteFinished(s: State, t: State, m: State, u: State, k: nat, b: nat, data: Block)
    requires Inv(s) && Inv(t) && Inv(m) && Inv(u) && k < |s.disk|
    requires Got(s, t, k, b) && SameView(s, t) && FilledAndWritten(t, m, b, data)
    requires m.holders[b] > 0 && Released(m, u, b) && SameView(m, u)
    ensures Rewritten(s, u, k, data) && u.pins == s.pins
  {
    GotStill(s, t, k, b);
    assert u.holders == s.holders by { hide View, ListInv, Indexed, StillIndexed, SameView; }
    assert StillIndexed(s, u) by { hide View, ListInv, SameView; }
    hide ListInv, Counted, Indexed, StillIndexed, Released, View;
    forall i | 0 <= i < |u.disk| ensures View(u, i) == if i == k then data else View(s, i) {
      assert View(u, i) == View(m, i) && View(t, i) == View(s, i);
    }
  }

  lemma RewrittenDisk(s: State, u: State, k: nat, data: Block)
    requires Inv(s) && Inv(u) && k < |s.disk| && Rewritten(s, u, k, data)
    ensures u.disk == s.disk[k := data]
  {
  }

  lemma ReadReleasable(s: State, t: State, k: nat, b: nat)
    requires Inv(s) && Inv(t) && k < |s.disk| && Got(s, t, k, b)
    ensures t.holders[b] > 0 && (t.buf[b].refcnt == 1 ==> t.buf[b].data == t.disk[t.buf[b].blockno])
  {
    GotStill(s, t, k, b);
  }

  // ---------- buffers that bget may recycle ----------

  /** The buffers that nobody references. */
  ghost function Spare(s: State): set<nat> { set b | 0 <= b < NBUF && b < |s.buf| && s.buf[b].refcnt == 0 }

  /** Block k is cached in a buffer that somebody references. */
  ghost predicate Kept(s: State, k: nat)
    requires Inv(s)
  {
    k in s.index && s.buf[s.index[k]].refcnt > 0
  }

  lemma NoneSpare(s: State)
    requires |s.buf| == NBUF + 1 && forall b :: 0 <= b < NBUF ==> s.buf[b].refcnt != 0
    ensures Spare(s) == {}
  {
  }

  lemma IsSpare(s: State, b: nat)
    requires Inv(s) && b < NBUF
    ensures b in Spare(s) <==> s.holders[b] == 0 && s.pins[b] == 0
  {
    hide ListInv, View;
  }

  /** A bread takes its buffer out of the spare ones, and takes a spare one if the block is not cached. */
  lemma GotSpare(s: State, t: State, k: nat, b: nat)
    requires Inv(s) && Inv(t) && k < |s.disk| && Got(s, t, k, b)
    ensures Spare(t) == Spare(s) - {b} && (k !in s.index ==> b in Spare(s)) && Kept(t, k)
  {
    hide ListInv, View;
    forall x ensures x in Spare(t) <==> x in Spare(s) - {b} {}
  }

  /** With no new holders and no new pins the spare buffers stay so. */
  lemma SpareStays(s: State, t: State)
    requires Inv(s) && Inv(t)
    requires forall b :: 0 <= b < NBUF ==> t.holders[b] <= s.holders[b] && t.pins[b] <= s.pins[b]
    ensures Spare(s) <= Spare(t)
  {
    hide ListInv, View;
    forall b | b in Spare(s) ensures b in Spare(t) {
      IsSpare(s, b);
      IsSpare(t, b);
    }
  }

  lemma GotAndReleased(s: State, t: State, u: State, k: nat, b: nat)
    requires Inv(s) && Inv(t) && Inv(u) && k < |s.disk| && Got(s, t, k, b) && t.holders[b] > 0 && Released(t, u, b)
    ensures u.holders == s.holders && Spare(s) <= Spare(u)
  {
    hide View, ListInv, Spare;
    GotStill(s, t, k, b);
    SpareStays(s, u);
  }

  lemma PinnedIsKept(s: State, k: nat)
    requires Inv(s) && k in s.index && s.pins[s.index[k]] > 0
    ensures Kept(s, k)
  {
    hide ListInv, View;
  }

  lemma MoreSpare(s: State, t: State)
    requires Spare(s) <= Spare(t)
    ensures |Spare(s)| <= |Spare(t)|
  {
    hide Spare;
    assert Spare(t) == Spare(s) + (Spare(t) - Spare(s));
  }

  lemma Smaller(a: set<nat>, x: nat)
    requires a - {x} == {}
    ensures |a| <= 1
  {
    if a != {} { assert a == {x}; }
  }

  /** Needed to read two blocks one after the other: a buffer for the first at least. */
  ghost predicate PairFits(s: State, src: nat, dst: nat, srcFirst: bool) {
    (if srcFirst then src else dst) in s.index || Spare(s) != {}
  }

  /** Enough for it: two spare buffers, or one when the second block cannot be lost meanwhile. */
  ghost predicate PairSurelyFits(s: State, src: nat, dst: nat, srcFirst: bool)
    requires Inv(s)
  {
    |Spare(s)| >= 2 || (Spare(s) != {} && Kept(s, if srcFirst then dst else src))
  }

  lemma FirstFails(s: State, a: nat, b: nat)
    requires Inv(s) && a !in s.index && forall x :: 0 <= x < NBUF ==> s.buf[x].refcnt != 0
    ensures Spare(s) == {} && |Spare(s)| == 0
  {
    hide ListInv, View;
    NoneSpare(s);
  }

  lemma SecondFails(s: State, m: State, a: nat, x: nat, b: nat)
    requires Inv(s) && Inv(m) && a < |s.disk| && Got(s, m, a, x)
    requires b !in m.index && forall y :: 0 <= y < NBUF ==> m.buf[y].refcnt != 0
    ensures Spare(m) == {} && |Spare(s)| < 2 && !Kept(s, b)
  {
    hide ListInv, View;
    NoneSpare(m);
    GotSpare(s, m, a, x);
    Smaller(Spare(s), x);
    GotStill(s, m, a, x);
  }

  lemma CopySpares(s: State, u: State, k: nat, data: Block, to: nat, unpin: bool)
    requires Inv(s) && Inv(u) && k < |s.disk| && Rewritten(s, u, k, data) && to < NBUF && (unpin ==> s.pins[to] > 0)
    requires u.pins == if unpin then s.pins[to := s.pins[to] - 1] else s.pins
    ensures Spare(s) <= Spare(u)
  {
    hide View, ListInv, Indexed, StillIndexed, Spare;
    SpareStays(s, u);
  }
}
