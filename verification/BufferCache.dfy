/**
  The buffer cache (kernel/bio.c): NBUF buffers on a doubly linked list, most recently
  released first, in front of one disk. A pointer into the static array bcache.buf is an
  index; index NBUF is bcache.head. Each method is one critical section under
  bcache.lock, so what every method keeps holds under every interleaving of callers.
 */
module BufferCache {
  import opened Blocks

  datatype Buf = Buf(valid: bool, dev: nat, blockno: nat, refcnt: nat, data: Block, prev: nat, next: nat)

  const HEAD: nat := NBUF

  /** Everything the cache's methods change. */
  datatype State = State(
    buf: seq<Buf>,          // NBUF buffers, then the list head
    disk: Image,
    ring: seq<nat>,         // the list in next order, with the head first and last
    pos: map<nat, nat>,     // where in ring each buffer is
    index: map<nat, nat>,   // which buffer holds which block of ROOTDEV
    holders: seq<nat>,      // references taken by bread and not yet given back
    pins: seq<nat>)         // references taken by bpin

  // ---------- the invariant ----------

  ghost predicate Ordered(ring: seq<nat>, pos: map<nat, nat>) {
    && |ring| >= 2 && ring[0] == ring[|ring| - 1] == HEAD && HEAD !in pos
    && (forall i :: 0 < i < |ring| - 1 ==> ring[i] in pos && pos[ring[i]] == i)
    && (forall b :: b in pos ==> b < NBUF && 0 < pos[b] < |ring| - 1 && ring[pos[b]] == b)
  }

  ghost predicate Linked(buf: seq<Buf>, ring: seq<nat>) {
    && |buf| == NBUF + 1
    && (forall i :: 0 <= i < |ring| ==> ring[i] <= NBUF)
    && (forall i :: 0 <= i < |ring| - 1 ==> LinkAt(buf, ring, i))
  }

  ghost predicate LinkAt(buf: seq<Buf>, ring: seq<nat>, i: nat)
    requires i < |ring| - 1 && ring[i] < |buf| && ring[i + 1] < |buf|
  {
    buf[ring[i]].next == ring[i + 1] && buf[ring[i + 1]].prev == ring[i]
  }

  ghost predicate ListInv(s: State) {
    Ordered(s.ring, s.pos) && Linked(s.buf, s.ring) && forall b :: 0 <= b < NBUF ==> b in s.pos
  }

  /** No two buffers hold the same block of ROOTDEV; a buffer of device 0 is unused. */
  ghost predicate Indexed(s: State) {
    && |s.buf| == NBUF + 1
    && (forall k ::
          k in s.index ==>
            k < |s.disk| && s.index[k] < NBUF && s.buf[s.index[k]].dev == ROOTDEV && s.buf[s.index[k]].blockno == k)
    && (forall b :: 0 <= b < NBUF ==>
         if s.buf[b].dev == ROOTDEV then s.buf[b].blockno in s.index && s.index[s.buf[b].blockno] == b
         else s.buf[b].dev == 0 && !s.buf[b].valid && s.buf[b].refcnt == 0)
  }

  /** Every reference is accounted for, and a buffer that may be recycled holds nothing the disk lacks. */
  ghost predicate Counted(s: State)
    requires Indexed(s)
  {
    && |s.holders| == NBUF && |s.pins| == NBUF
    && (forall b :: 0 <= b < NBUF ==> s.buf[b].refcnt == s.holders[b] + s.pins[b])
    && (forall b ::
          0 <= b < NBUF && s.buf[b].valid && s.buf[b].refcnt == 0 ==> s.buf[b].data == s.disk[s.buf[b].blockno])
  }

  ghost predicate Inv(s: State) {
    ListInv(s) && Indexed(s) && Counted(s)
  }

  /** What a reader of block k sees: the cached copy if there is one, the disk otherwise. */
  ghost function View(s: State, k: nat): Block
    requires Indexed(s) && k < |s.disk|
  {
    if k in s.index && s.buf[s.index[k]].valid then s.buf[s.index[k]].data else s.disk[k]
  }

  ghost predicate SameView(s: State, t: State)
    requires Indexed(s) && Indexed(t)
  {
    |s.disk| == |t.disk| && forall k :: 0 <= k < |s.disk| ==> View(t, k) == View(s, k)
  }

  // ---------- the state changes ----------

  ghost function Hit(s: State, b: nat): State
    requires Inv(s) && b < NBUF
  {
    s.(buf := s.buf[b := s.buf[b].(refcnt := s.buf[b].refcnt + 1)], holders := s.holders[b := s.holders[b] + 1])
  }

  ghost function Recycled(s: State, b: nat, blockno: nat): State
    requires Inv(s) && b < NBUF
  {
    s.(buf := s.buf[b := s.buf[b].(dev := ROOTDEV, blockno := blockno, valid := false, refcnt := 1)],
       index := (if s.buf[b].dev == ROOTDEV then s.index - {s.buf[b].blockno} else s.index)[blockno := b],
       holders := s.holders[b := 1])
  }

  ghost function Filled(s: State, b: nat, data: Block): State
    requires b < |s.buf|
  {
    s.(buf := s.buf[b := s.buf[b].(valid := true, data := data)])
  }

  ghost function Written(s: State, b: nat): State
    requires b < |s.buf| && s.buf[b].blockno < |s.disk|
  {
    s.(disk := s.disk[s.buf[b].blockno := s.buf[b].data])
  }

  ghost function Dropped(s: State, b: nat): State
    requires Inv(s) && b < NBUF && s.holders[b] > 0
  {
    s.(buf := s.buf[b := s.buf[b].(refcnt := s.buf[b].refcnt - 1)], holders := s.holders[b := s.holders[b] - 1])
  }

  ghost function Pinned(s: State, b: nat): State
    requires Inv(s) && b < NBUF
  {
    s.(buf := s.buf[b := s.buf[b].(refcnt := s.buf[b].refcnt + 1)], pins := s.pins[b := s.pins[b] + 1])
  }

  ghost function Unpinned(s: State, b: nat): State
    requires Inv(s) && b < NBUF && s.pins[b] > 0
  {
    s.(buf := s.buf[b := s.buf[b].(refcnt := s.buf[b].refcnt - 1)], pins := s.pins[b := s.pins[b] - 1])
  }

  /** The list after the buffer at p moves to the front. */
  ghost function FrontRing(ring: seq<nat>, p: nat): seq<nat>
    requires 0 < p < |ring|
  {
    seq(|ring|, i requires 0 <= i < |ring| => if i == 1 then ring[p] else if 2 <= i <= p then ring[i - 1] else ring[i])
  }

  ghost function FrontPos(pos: map<nat, nat>, b: nat): map<nat, nat>
    requires b in pos
  {
    map x | x in pos :: if x == b then 1 else if pos[x] < pos[b] then pos[x] + 1 else pos[x]
  }

  /** b is the most recently released buffer now, and the others are in the order they had. */
  ghost predicate FirstNow(was: map<nat, nat>, pos: map<nat, nat>, b: nat) {
    && b in pos && pos[b] == 1 && pos.Keys == was.Keys
    && (forall x :: x in was && x != b ==> x in pos && pos[x] > 1)
    && forall x, y :: x in was && y in was && x != b && y != b ==> (pos[x] < pos[y] <==> was[x] < was[y])
  }

  /** The same buffers, with any links. */
  ghost predicate SameButLinks(s: seq<Buf>, t: seq<Buf>) {
    |s| == |t| && forall b :: 0 <= b < |s| ==> SameBut(s[b], t[b])
  }

  ghost predicate SameBut(s: Buf, t: Buf) {
    s.valid == t.valid && s.dev == t.dev && s.blockno == t.blockno && s.refcnt == t.refcnt && s.data == t.data
  }

  /** The unused buffer nearest the tail of the list: the least recently released one. */
  ghost predicate LeastRecentFree(s: State, b: nat)
    requires ListInv(s)
  {
    && b < NBUF && s.buf[b].refcnt == 0
    && forall x :: 0 <= x < NBUF && s.pos[x] > s.pos[b] ==> s.buf[x].refcnt != 0
  }

  /** What bread(k) does to the cache when it returns buffer b. */
  ghost predicate Got(s: State, t: State, k: nat, b: nat)
    requires Inv(s) && k < |s.disk|
  {
    && b < NBUF && |t.buf| == NBUF + 1 && |t.holders| == NBUF
    && t.index ==
         (if k in s.index then s.index
          else (if s.buf[b].dev == ROOTDEV then s.index - {s.buf[b].blockno} else s.index)[k := b])
    && (k in s.index ==> b == s.index[k])
    && (k !in s.index ==> s.buf[b].refcnt == 0)
    && t.disk == s.disk && t.pins == s.pins && t.ring == s.ring && t.pos == s.pos
    && t.holders == s.holders[b := (if k in s.index then s.holders[b] else 0) + 1]
    && (forall x :: 0 <= x <= NBUF && x != b ==> t.buf[x] == s.buf[x])
    && t.buf[b].valid && t.buf[b].dev == ROOTDEV && t.buf[b].blockno == k && t.buf[b].data == View(s, k)
    && t.buf[b].refcnt == (if k in s.index then s.buf[b].refcnt else 0) + 1
  }

  /** What brelse(b) does to the cache, apart from moving b in the list. */
  ghost predicate Released(s: State, t: State, b: nat)
    requires Inv(s) && b < NBUF && s.holders[b] > 0
  {
    && t.disk == s.disk && t.index == s.index && t.pins == s.pins
    && t.holders == Dropped(s, b).holders && SameButLinks(Dropped(s, b).buf, t.buf)
  }

  // ---------- every change keeps the invariant, and only filling by hand changes what readers see ----------

  lemma LinksKept(was: seq<Buf>, now: seq<Buf>, ring: seq<nat>)
    requires Linked(was, ring) && |now| == |was|
    requires forall b :: 0 <= b < |was| ==> now[b].prev == was[b].prev && now[b].next == was[b].next
    ensures Linked(now, ring)
  {
    forall i | 0 <= i < |ring| - 1 ensures LinkAt(now, ring, i) { assert LinkAt(was, ring, i); }
  }

  lemma HitKeeps(s: State, b: nat)
    requires Inv(s) && b < NBUF && s.buf[b].dev == ROOTDEV
    ensures Inv(Hit(s, b)) && SameView(s, Hit(s, b))
  {
    LinksKept(s.buf, Hit(s, b).buf, s.ring);
  }

  lemma RecycledKeeps(s: State, b: nat, blockno: nat)
    requires Inv(s) && b < NBUF && s.buf[b].refcnt == 0 && blockno !in s.index && blockno < |s.disk|
    ensures Inv(Recycled(s, b, blockno)) && SameView(s, Recycled(s, b, blockno))
  {
    var t := Recycled(s, b, blockno);
    LinksKept(s.buf, t.buf, s.ring);
    assert ListInv(t) && Indexed(t) && Counted(t);
    forall k | 0 <= k < |s.disk| ensures View(t, k) == View(s, k) {
    }
  }

  lemma FilledKeeps(s: State, b: nat, data: Block)
    requires Inv(s) && b < NBUF && s.buf[b].dev == ROOTDEV && s.buf[b].refcnt > 0
    ensures Inv(Filled(s, b, data)) && View(Filled(s, b, data), s.buf[b].blockno) == data
    ensures forall k :: 0 <= k < |s.disk| && k != s.buf[b].blockno ==> View(Filled(s, b, data), k) == View(s, k)
  {
    LinksKept(s.buf, Filled(s, b, data).buf, s.ring);
  }

  lemma WrittenKeeps(s: State, b: nat)
    requires Inv(s) && b < NBUF && s.buf[b].valid && s.buf[b].dev == ROOTDEV
    ensures Inv(Written(s, b)) && SameView(s, Written(s, b))
  {
  }

  lemma DroppedKeeps(s: State, b: nat)
    requires Inv(s) && b < NBUF && s.buf[b].valid && s.holders[b] > 0
    requires s.buf[b].refcnt == 1 ==> s.buf[b].data == s.disk[s.buf[b].blockno]
    ensures Inv(Dropped(s, b)) && SameView(s, Dropped(s, b))
  {
    LinksKept(s.buf, Dropped(s, b).buf, s.ring);
  }

  lemma PinnedKeeps(s: State, b: nat)
    requires Inv(s) && b < NBUF && s.buf[b].valid
    ensures Inv(Pinned(s, b)) && SameView(s, Pinned(s, b))
  {
    LinksKept(s.buf, Pinned(s, b).buf, s.ring);
  }

  lemma UnpinnedKeeps(s: State, b: nat)
    requires Inv(s) && b < NBUF && s.buf[b].valid && s.pins[b] > 0 && s.holders[b] > 0
    ensures Inv(Unpinned(s, b)) && SameView(s, Unpinned(s, b))
  {
    LinksKept(s.buf, Unpinned(s, b).buf, s.ring);
  }

  lemma HitGot(s: State, k: nat, b: nat)
    requires Inv(s) && k in s.index && b == s.index[k]
    ensures var u := Hit(s, b); var t := if u.buf[b].valid then u else Filled(u, b, s.disk[k]);
            Inv(t) && SameView(s, t) && Got(s, t, k, b)
  {
    HitKeeps(s, b);
    FilledKeeps(Hit(s, b), b, s.disk[k]);
  }

  lemma RecycledGot(s: State, k: nat, b: nat)
    requires Inv(s) && k < |s.disk| && k !in s.index && b < NBUF && s.buf[b].refcnt == 0
    ensures var t := Filled(Recycled(s, b, k), b, s.disk[k]);
            Inv(t) && SameView(s, t) && Got(s, t, k, b)
  {
    RecycledKeeps(s, b, k);
    FilledKeeps(Recycled(s, b, k), b, s.disk[k]);
  }

  lemma FrontOrdered(ring: seq<nat>, pos: map<nat, nat>, b: nat)
    requires Ordered(ring, pos) && b in pos
    ensures Ordered(FrontRing(ring, pos[b]), FrontPos(pos, b)) && FirstNow(pos, FrontPos(pos, b), b)
  {
  }

  ghost function UnlinkedBuf(s: seq<Buf>, b: nat): seq<Buf>
    requires |s| == NBUF + 1 && b < NBUF && s[b].next <= NBUF && s[b].prev <= NBUF
  {
    var t := s[s[b].next := s[s[b].next].(prev := s[b].prev)];
    t[t[b].prev := t[t[b].prev].(next := t[b].next)]
  }

  ghost function PushedBuf(s: seq<Buf>, b: nat): seq<Buf>
    requires |s| == NBUF + 1 && b < NBUF && s[HEAD].next <= NBUF
  {
    var t := s[b := s[b].(next := s[HEAD].next, prev := HEAD)];
    var u := t[t[HEAD].next := t[t[HEAD].next].(prev := b)];
    u[HEAD := u[HEAD].(next := b)]
  }

  lemma InsertLinked(was: seq<Buf>, ring: seq<nat>, b: nat)
    requires Linked(was, ring) && |ring| >= 2 && ring[0] == ring[|ring| - 1] == HEAD && b < NBUF && b !in ring
    requires forall i :: 1 < i < |ring| ==> ring[i] != ring[1]
    requires forall i :: 0 < i < |ring| - 1 ==> ring[i] != HEAD
    ensures was[HEAD].next <= NBUF && Linked(PushedBuf(was, b), [HEAD, b] + ring[1..])
  {
    assert LinkAt(was, ring, 0);
    var now, r := PushedBuf(was, b), [HEAD, b] + ring[1..];
    forall i | 0 <= i < |r| - 1 ensures LinkAt(now, r, i) {
      if i >= 2 { assert LinkAt(was, ring, i - 1); assert r[i] == ring[i - 1] && r[i + 1] == ring[i]; }
    }
  }

  ghost function Without(ring: seq<nat>, p: nat): seq<nat>
    requires p < |ring|
  {
    ring[..p] + ring[p + 1..]
  }

  lemma RemoveLinked(was: seq<Buf>, ring: seq<nat>, pos: map<nat, nat>, b: nat)
    requires Ordered(ring, pos) && Linked(was, ring) && b in pos
    ensures was[b].next <= NBUF && was[b].prev <= NBUF && Linked(UnlinkedBuf(was, b), Without(ring, pos[b]))
  {
    var p, r := pos[b], Without(ring, pos[b]);
    assert LinkAt(was, ring, p - 1) && LinkAt(was, ring, p);
    var now := UnlinkedBuf(was, b);
    forall i | 0 <= i < |r| - 1 ensures LinkAt(now, r, i) {
      if i < p - 1 {
        assert r[i] == ring[i] && r[i + 1] == ring[i + 1] && LinkAt(was, ring, i);
      } else if i > p - 1 {
        assert r[i] == ring[i + 1] && r[i + 1] == ring[i + 2] && LinkAt(was, ring, i + 1);
      }
    }
  }

  lemma WithoutDistinct(ring: seq<nat>, pos: map<nat, nat>, b: nat)
    requires Ordered(ring, pos) && b in pos
    ensures var r := Without(ring, pos[b]);
            && |r| >= 2 && r[0] == r[|r| - 1] == HEAD && b < NBUF && b !in r
            && (forall i :: 1 < i < |r| ==> r[i] != r[1]) && (forall i :: 0 < i < |r| - 1 ==> r[i] != HEAD)
  {
    var p, r := pos[b], Without(ring, pos[b]);
    forall i | 0 <= i < |r| ensures r[i] == ring[if i < p then i else i + 1] && r[i] != b {
    }
  }

  lemma OnlyLinksChange(was: seq<Buf>, b: nat)
    requires |was| == NBUF + 1 && b < NBUF && was[b].next <= NBUF && was[b].prev <= NBUF
    requires UnlinkedBuf(was, b)[HEAD].next <= NBUF
    ensures SameButLinks(was, PushedBuf(UnlinkedBuf(was, b), b))
  {
    var s, n := was, was[b].next;
    var t := s[n := s[n].(prev := s[b].prev)];
    assert SameButLinks(s, t);
    var u := t[t[b].prev := t[t[b].prev].(next := t[b].next)];
    assert SameButLinks(s, u);
    var v := u[b := u[b].(next := u[HEAD].next, prev := HEAD)];
    assert SameButLinks(s, v);
    var w := v[v[HEAD].next := v[v[HEAD].next].(prev := b)];
    assert SameButLinks(s, w);
  }

  lemma FrontLinked(was: seq<Buf>, ring: seq<nat>, pos: map<nat, nat>, b: nat)
    requires Ordered(ring, pos) && Linked(was, ring) && b in pos
    ensures was[b].next <= NBUF && was[b].prev <= NBUF
    ensures UnlinkedBuf(was, b)[HEAD].next <= NBUF
    ensures Linked(PushedBuf(UnlinkedBuf(was, b), b), FrontRing(ring, pos[b]))
    ensures SameButLinks(was, PushedBuf(UnlinkedBuf(was, b), b))
  {
    RemoveLinked(was, ring, pos, b);
    ThenInsertLinked(UnlinkedBuf(was, b), ring, pos, b);
    OnlyLinksChange(was, b);
  }

  lemma ThenInsertLinked(mid: seq<Buf>, ring: seq<nat>, pos: map<nat, nat>, b: nat)
    requires Ordered(ring, pos) && b in pos && Linked(mid, Without(ring, pos[b]))
    ensures mid[HEAD].next <= NBUF && Linked(PushedBuf(mid, b), FrontRing(ring, pos[b]))
  {
    var r := Without(ring, pos[b]);
    WithoutDistinct(ring, pos, b);
    WithoutAt(ring, pos[b]);
    InsertLinked(mid, r, b);
  }

  lemma WithoutAt(ring: seq<nat>, p: nat)
    requires 0 < p < |ring| - 1 && ring[0] == HEAD
    ensures var r := Without(ring, p);
            && (forall i :: 0 <= i < |r| ==> r[i] == if i < p then ring[i] else ring[i + 1])
            && [HEAD, ring[p]] + r[1..] == FrontRing(ring, p)
  {
    var r, f := Without(ring, p), FrontRing(ring, p);
    var g := [HEAD, ring[p]] + r[1..];
    forall i | 0 <= i < |f| ensures g[i] == f[i] {
      if i >= 2 { assert g[i] == r[i - 1]; }
    }
  }

  lemma RelinkKeeps(s: State, t: State)
    requires Inv(s) && SameButLinks(s.buf, t.buf) && ListInv(t)
    requires t == s.(buf := t.buf, ring := t.ring, pos := t.pos)
    ensures Inv(t) && SameView(s, t)
  {
  }

  ghost function InitPos(q: map<nat, nat>, b: nat): map<nat, nat> {
    (map x | x in q :: q[x] + 1)[b := 1]
  }

  lemma InitEmpty(buf: seq<Buf>)
    requires |buf| == NBUF + 1 && buf[HEAD].next == buf[HEAD].prev == HEAD
    ensures Ordered([HEAD, HEAD], map[]) && Linked(buf, [HEAD, HEAD])
  {
    assert LinkAt(buf, [HEAD, HEAD], 0);
  }

  lemma InitDistinct(r: seq<nat>, q: map<nat, nat>, b: nat)
    requires Ordered(r, q) && b < NBUF && b !in q
    ensures b !in r
    ensures forall i :: 1 < i < |r| ==> r[i] != r[1]
    ensures forall i :: 0 < i < |r| - 1 ==> r[i] != HEAD
  {
    forall i | 0 <= i < |r| ensures r[i] != b { if 0 < i < |r| - 1 { assert r[i] in q; } }
    forall i | 1 < i < |r| ensures r[i] != r[1] { if i < |r| - 1 { assert q[r[i]] == i; } }
  }

  lemma InitOrdered(r: seq<nat>, q: map<nat, nat>, b: nat, g: seq<nat>, p: map<nat, nat>)
    requires Ordered(r, q) && b < NBUF && b !in q
    requires |g| == |r| + 1 && g[0] == HEAD && g[1] == b && (forall i :: 2 <= i < |g| ==> g[i] == r[i - 1])
    requires p.Keys == q.Keys + {b} && p[b] == 1 && (forall x :: x in q ==> p[x] == q[x] + 1)
    ensures Ordered(g, p)
  {
  }

  /** binit puts each buffer in after the head. */
  lemma InitStep(was: seq<Buf>, r: seq<nat>, q: map<nat, nat>, b: nat)
    requires Ordered(r, q) && Linked(was, r) && b < NBUF && b !in q
    ensures |was| == NBUF + 1 && was[HEAD].next <= NBUF
    ensures Linked(PushedBuf(was, b), [HEAD, b] + r[1..]) && Ordered([HEAD, b] + r[1..], InitPos(q, b))
    ensures forall x :: x in InitPos(q, b) <==> x in q || x == b
  {
    InitDistinct(r, q, b);
    InitOrdered(r, q, b, [HEAD, b] + r[1..], InitPos(q, b));
    InsertLinked(was, r, b);
  }

  lemma ValidBuffer(s: State, b: nat)
    requires Inv(s) && b < NBUF && s.buf[b].valid
    ensures s.buf[b].dev == ROOTDEV && s.buf[b].blockno < |s.disk|
  {
    hide ListInv;
  }

  lemma Lengths(s: State)
    requires Inv(s)
    ensures |s.buf| == NBUF + 1 && |s.holders| == |s.pins| == NBUF
  {
  }

  lemma InList(s: State, b: nat)
    requires Inv(s) && b < NBUF
    ensures b in s.pos && 0 < s.pos[b] < |s.ring| - 1 && s.ring[s.pos[b]] == b
  {
  }

  // ---------- the cache itself ----------

  class Cache {
    const buf: array<Buf>
    var disk: Image
    ghost var ring: seq<nat>
    ghost var pos: map<nat, nat>
    ghost var index: map<nat, nat>
    ghost var holders: seq<nat>
    ghost var pins: seq<nat>
    ghost var trace: seq<Image>   // every image the disk has had, oldest first

    ghost function S(): State
      reads this, buf
    {
      State(buf[..], disk, ring, pos, index, holders, pins)
    }

    ghost predicate Valid()
      reads this, buf
    {
      Inv(S()) && |trace| > 0 && trace[|trace| - 1] == disk
    }

    constructor (image: Image)
      ensures Valid() && fresh(buf)
      ensures disk == image && trace == [image] && index == map[] && pins == seq(NBUF, _ => 0)
              && holders == seq(NBUF, _ => 0)
      ensures forall b :: 0 <= b < NBUF ==> buf[b].refcnt == 0
    {
      ghost var r, q;
      var a;
      a, r, q := Cache.Binit();
      buf := a;
      disk, ring, pos, index := image, r, q, map[];
      holders, pins, trace := seq(NBUF, _ => 0), seq(NBUF, _ => 0), [image];
    }

    /** Every buffer goes in at the front of the list. */
    static method Binit() returns (a: array<Buf>, ghost r: seq<nat>, ghost q: map<nat, nat>)
      ensures fresh(a) && a.Length == NBUF + 1 && Ordered(r, q) && Linked(a[..], r)
      ensures forall b :: b in q <==> 0 <= b < NBUF
      ensures forall b :: 0 <= b < NBUF ==> !a[b].valid && a[b].dev == 0 && a[b].refcnt == 0
    {
      a := new Buf[NBUF + 1](_ => Buf(false, 0, 0, 0, ZeroBlock(), HEAD, HEAD));
      r, q := [HEAD, HEAD], map[];
      hide Ordered, Linked, LinkAt;
      InitEmpty(a[..]);
      for b := 0 to NBUF
        invariant |r| == b + 2 && Ordered(r, q) && Linked(a[..], r)
        invariant forall x :: x in q <==> 0 <= x < b
        invariant forall x :: 0 <= x < NBUF ==> !a[x].valid && a[x].dev == 0 && a[x].refcnt == 0
      {
        ghost var was := a[..];
        InitStep(was, r, q, b);
        var first := a[HEAD].next;
        a[b] := a[b].(next := first, prev := HEAD);
        a[first] := a[first].(prev := b);
        a[HEAD] := a[HEAD].(next := b);
        assert a[..] == PushedBuf(was, b);
        r, q := [HEAD, b] + r[1..], InitPos(q, b);
      }
    }

    /** bget, first loop: the buffer that already holds the block, or the head. */
    method FindCached(dev: nat, blockno: nat) returns (b: nat)
      requires Valid() && dev == ROOTDEV
      ensures b == if blockno in index then index[blockno] else HEAD
    {
      ghost var i := 1;
      assert LinkAt(buf[..], ring, 0);
      b := buf[HEAD].next;
      ghost var at := if blockno in index then pos[index[blockno]] else |ring| - 1;
      assert blockno in index ==> ring[at] == index[blockno];
      while b != HEAD
        invariant 0 < i <= at && b == ring[i]
        invariant forall j {:trigger ring[j]} ::
                    0 < j < i ==> !(buf[ring[j]].dev == dev && buf[ring[j]].blockno == blockno)
        decreases |ring| - i
      {
        if buf[b].dev == dev && buf[b].blockno == blockno {
          return;
        }
        assert LinkAt(buf[..], ring, i);
        b := buf[b].next;
        i := i + 1;
      }
    }

    /** bget, second loop: the least recently released buffer that nobody references, or the head. */
    method FindFree() returns (b: nat)
      requires Valid()
      ensures b == HEAD ==> forall x :: 0 <= x < NBUF ==> buf[x].refcnt != 0
      ensures b != HEAD ==> LeastRecentFree(S(), b)
    {
      ghost var s, i := S(), |ring| - 2;
      assert LinkAt(s.buf, s.ring, i);
      b := buf[HEAD].prev;
      while b != HEAD
        invariant 0 <= i < |s.ring| - 1 && b == s.ring[i]
        invariant forall x :: 0 <= x < NBUF && s.pos[x] > i ==> s.buf[x].refcnt != 0
        decreases i
      {
        if buf[b].refcnt == 0 {
          return;
        }
        assert LinkAt(s.buf, s.ring, i - 1);
        b := buf[b].prev;
        i := i - 1;
      }
    }

    /** HEAD stands for the panic "bget: no buffers". */
    method Bget(dev: nat, blockno: nat) returns (b: nat)
      requires Valid() && dev == ROOTDEV && blockno < |disk|
      modifies this`index, this`holders, buf
      ensures Valid() && b <= NBUF
      ensures blockno in old(index) ==> b == old(index)[blockno] && S() == Hit(old(S()), b)
      ensures blockno !in old(index) && b != HEAD ==>
                old(LeastRecentFree(S(), b)) && S() == Recycled(old(S()), b, blockno)
      ensures b == HEAD ==> blockno !in index && S() == old(S()) && forall x :: 0 <= x < NBUF ==> buf[x].refcnt != 0
    {
      ghost var s := S();
      b := FindCached(dev, blockno);
      if b != HEAD {
        buf[b] := buf[b].(refcnt := buf[b].refcnt + 1);
        holders := holders[b := holders[b] + 1];
        assert S() == Hit(s, b) by { assert S().buf == Hit(s, b).buf; }
        HitKeeps(s, b);
        return;
      }
      b := FindFree();
      if b != HEAD {
        Recycle(b, dev, blockno);
      }
    }

    /** The stores that give an unused buffer to another block. */
    method Recycle(b: nat, dev: nat, blockno: nat)
      requires Valid() && dev == ROOTDEV && blockno < |disk| && blockno !in index && b < NBUF && buf[b].refcnt == 0
      modifies this`index, this`holders, buf
      ensures Valid() && S() == Recycled(old(S()), b, blockno)
    {
      hide ListInv, Indexed, Counted;
      ghost var s := S();
      Lengths(s);
      index := (if buf[b].dev == ROOTDEV then index - {buf[b].blockno} else index)[blockno := b];
      buf[b] := buf[b].(dev := dev, blockno := blockno, valid := false, refcnt := 1);
      holders := holders[b := 1];
      assert S() == Recycled(s, b, blockno) by { assert S().buf == Recycled(s, b, blockno).buf; }
      RecycledKeeps(s, b, blockno);
    }

    method Bread(dev: nat, blockno: nat) returns (b: nat)
      requires Valid() && dev == ROOTDEV && blockno < |disk|
      modifies this`index, this`holders, buf
      ensures Valid() && b <= NBUF && SameView(old(S()), S())
      ensures b == HEAD ==> S() == old(S()) && blockno !in index && forall x :: 0 <= x < NBUF ==> buf[x].refcnt != 0
      ensures b != HEAD ==> Got(old(S()), S(), blockno, b)
    {
      hide ListInv, View, Got;
      ghost var s := S();
      Lengths(s);
      b := Bget(dev, blockno);
      if b == HEAD {
        return;
      }
      ghost var u := S();
      if !buf[b].valid {
        var data := disk[buf[b].blockno];
        buf[b] := buf[b].(valid := true, data := data);
        assert S() == Filled(u, b, data) by { assert S().buf == Filled(u, b, data).buf; }
      }
      if blockno in s.index { HitGot(s, blockno, b); } else { RecycledGot(s, blockno, b); }
    }

    /** A caller that holds a buffer changes its contents. */
    method Fill(b: nat, data: Block)
      requires Valid() && b < NBUF && buf[b].valid && holders[b] > 0
      modifies buf
      ensures Valid() && S() == Filled(old(S()), b, data)
      ensures buf[b] == old(buf[b]).(data := data) && forall x :: 0 <= x <= NBUF && x != b ==> buf[x] == old(buf[x])
    {
      ghost var s := S();
      buf[b] := buf[b].(data := data);
      assert S() == Filled(s, b, data) by { assert S().buf == Filled(s, b, data).buf; }
      FilledKeeps(s, b, data);
    }

    method Bwrite(b: nat)
      requires Valid() && b < NBUF && buf[b].valid && holders[b] > 0
      modifies this`disk, this`trace
      ensures Valid() && S() == Written(old(S()), b) && trace == old(trace) + [disk]
      ensures |disk| == |old(disk)| && buf[b].blockno < |disk| && disk[buf[b].blockno] == buf[b].data
      ensures forall k :: 0 <= k < |disk| && k != buf[b].blockno ==> disk[k] == old(disk)[k]
    {
      ghost var s := S();
      disk := disk[buf[b].blockno := buf[b].data];
      trace := trace + [disk];
      assert S() == Written(s, b);
      WrittenKeeps(s, b);
    }

    /** A caller that drops the last reference must leave nothing behind that the disk lacks. */
    method Brelse(b: nat)
      requires Valid() && b < NBUF && buf[b].valid && holders[b] > 0
      requires buf[b].refcnt == 1 ==> buf[b].data == disk[buf[b].blockno]
      modifies this`ring, this`pos, this`holders, buf
      ensures Valid() && SameView(old(S()), S())
      ensures Released(old(S()), S(), b)
      ensures ring == if buf[b].refcnt == 0 then FrontRing(old(ring), old(pos)[b]) else old(ring)
      ensures buf[b].refcnt == old(buf[b].refcnt) - 1 && holders == old(holders)[b := old(holders)[b] - 1]
      ensures if buf[b].refcnt == 0 then FirstNow(old(pos), pos, b) else pos == old(pos)
    {
      hide Ordered, Linked, Indexed, View;
      ghost var s := S();
      Lengths(s);
      InList(s, b);
      buf[b] := buf[b].(refcnt := buf[b].refcnt - 1);
      holders := holders[b := holders[b] - 1];
      ghost var t := S();
      assert t == Dropped(s, b) by { assert t.buf == Dropped(s, b).buf; }
      DroppedKeeps(s, b);
      if buf[b].refcnt == 0 {
        MoveToFront(b);
      }
    }

    method MoveToFront(b: nat)
      requires Valid() && b < NBUF && b in pos
      modifies this`ring, this`pos, buf
      ensures Valid() && SameView(old(S()), S()) && SameButLinks(old(buf[..]), buf[..])
      ensures ring == FrontRing(old(ring), old(pos)[b]) && FirstNow(old(pos), pos, b)
    {
      hide Ordered, Linked, Indexed, Counted, View, FrontRing, FrontPos, FirstNow, UnlinkedBuf, PushedBuf, SameButLinks;
      ghost var t := S();
      Lengths(t);
      InList(t, b);
      FrontLinked(t.buf, ring, pos, b);
      FrontOrdered(ring, pos, b);
      Unlink(b);
      PushFront(b);
      ring := FrontRing(ring, pos[b]);
      pos := FrontPos(pos, b);
      RelinkKeeps(t, S());
    }

    /** The two assignments that take b out of the list. */
    method Unlink(b: nat)
      requires buf.Length == NBUF + 1 && b < NBUF && buf[b].next <= NBUF && buf[b].prev <= NBUF
      modifies buf
      ensures buf[..] == UnlinkedBuf(old(buf[..]), b)
    {
      buf[buf[b].next] := buf[buf[b].next].(prev := buf[b].prev);
      buf[buf[b].prev] := buf[buf[b].prev].(next := buf[b].next);
    }

    /** The four assignments that put b in after the head. */
    method PushFront(b: nat)
      requires buf.Length == NBUF + 1 && b < NBUF && buf[HEAD].next <= NBUF
      modifies buf
      ensures buf[..] == PushedBuf(old(buf[..]), b)
    {
      buf[b] := buf[b].(next := buf[HEAD].next);
      buf[b] := buf[b].(prev := HEAD);
      buf[buf[HEAD].next] := buf[buf[HEAD].next].(prev := b);
      buf[HEAD] := buf[HEAD].(next := b);
    }

    method Bpin(b: nat)
      requires Valid() && b < NBUF && buf[b].valid
      modifies this`pins, buf
      ensures Valid() && S() == Pinned(old(S()), b)
      ensures pins == old(pins)[b := old(pins)[b] + 1] && buf[b] == old(buf[b]).(refcnt := old(buf[b].refcnt) + 1)
      ensures forall x :: 0 <= x <= NBUF && x != b ==> buf[x] == old(buf[x])
    {
      ghost var s := S();
      buf[b] := buf[b].(refcnt := buf[b].refcnt + 1);
      pins := pins[b := pins[b] + 1];
      assert S() == Pinned(s, b) by { assert S().buf == Pinned(s, b).buf; }
      PinnedKeeps(s, b);
    }

    method Bunpin(b: nat)
      requires Valid() && b < NBUF && buf[b].valid && holders[b] > 0 && pins[b] > 0
      modifies this`pins, buf
      ensures Valid() && S() == Unpinned(old(S()), b)
      ensures pins == old(pins)[b := old(pins)[b] - 1] && buf[b] == old(buf[b]).(refcnt := old(buf[b].refcnt) - 1)
      ensures forall x :: 0 <= x <= NBUF && x != b ==> buf[x] == old(buf[x])
    {
      ghost var s := S();
      buf[b] := buf[b].(refcnt := buf[b].refcnt - 1);
      pins := pins[b := pins[b] - 1];
      assert S() == Unpinned(s, b) by { assert S().buf == Unpinned(s, b).buf; }
      UnpinnedKeeps(s, b);
    }
  }
}
