/**
  The free list of the K&R allocator (user/umalloc.c) as a sequence of blocks in address order: coalescing,
  carving, and what memory must hold for the circular list to stand for the sequence. Addresses and sizes are in
  units of one header.
 */
module FreeList {
  datatype Blk = Blk(at: int, size: nat)

  /** The static header in the data segment, below any heap address. */
  const BASE: int := 1

  predicate In(b: Blk, u: int) { b.at <= u < b.at + b.size }

  predicate Apart(a: Blk, b: Blk) { a.at + a.size <= b.at || b.at + b.size <= a.at }

  /** Address order with a gap after every block: no two neighbours are left unmerged. */
  ghost predicate Ordered(fb: seq<Blk>) {
    && |fb| > 0 && fb[0] == Blk(BASE, 0)
    && (forall k, m :: 0 <= k < m < |fb| ==> fb[k].at + fb[k].size < fb[m].at)
    && (forall k :: 1 <= k < |fb| ==> fb[k].size > 0)
  }

  ghost predicate Covers(fb: seq<Blk>, u: int) { exists k :: 0 <= k < |fb| && In(fb[k], u) }

  // ---------- the circular list in memory ----------

  type Links = map<int, int>
  type Sizes = map<int, nat>

  function Next(n: nat, k: nat): nat
    requires k < n
  {
    if k + 1 < n then k + 1 else 0
  }

  ghost predicate LinkAt(ptr: Links, size: Sizes, fb: seq<Blk>, k: nat)
    requires k < |fb|
  {
    && fb[k].at in ptr && ptr[fb[k].at] == fb[Next(|fb|, k)].at
    && fb[k].at in size && size[fb[k].at] == fb[k].size
  }

  /** The list reached from the static header is fb, and its last block points back: one wrap point. */
  ghost predicate Circular(ptr: Links, size: Sizes, fb: seq<Blk>) {
    forall k :: 0 <= k < |fb| ==> LinkAt(ptr, size, fb, k)
  }

  // ---------- free: where a block goes, and merging ----------

  /** Block b fits between the k-th block and the next. */
  ghost predicate Fits(fb: seq<Blk>, k: nat, b: Blk) {
    && k < |fb| && fb[k].at + fb[k].size <= b.at && fb[k].at < b.at && (k + 1 < |fb| ==> b.at + b.size <= fb[k + 1].at)
  }

  function JoinsUp(fb: seq<Blk>, k: nat, b: Blk): bool { k + 1 < |fb| && b.at + b.size == fb[k + 1].at }

  function JoinsDown(fb: seq<Blk>, k: nat, b: Blk): bool
    requires k < |fb|
  {
    fb[k].at + fb[k].size == b.at
  }

  function Merged(fb: seq<Blk>, k: nat, b: Blk): Blk
    requires k < |fb|
  {
    var up := if JoinsUp(fb, k, b) then fb[k + 1].size else 0;
    if JoinsDown(fb, k, b) then Blk(fb[k].at, fb[k].size + b.size + up) else Blk(b.at, b.size + up)
  }

  /** The blocks from lo up to hi replaced by the one block m. */
  function Replaced(fb: seq<Blk>, lo: nat, hi: nat, m: Blk): seq<Blk>
    requires lo <= hi <= |fb|
  {
    fb[..lo] + [m] + fb[hi..]
  }

  function Coalesced(fb: seq<Blk>, k: nat, b: Blk): seq<Blk>
    requires k < |fb|
  {
    Replaced(fb,
      if JoinsDown(fb, k, b) then k else k + 1,
      if JoinsUp(fb, k, b) then k + 2 else k + 1, Merged(fb, k, b))
  }

  lemma ReplacedAt(fb: seq<Blk>, lo: nat, hi: nat, m: Blk, i: nat)
    requires lo <= hi <= |fb| && i < |Replaced(fb, lo, hi, m)|
    ensures |Replaced(fb, lo, hi, m)| == lo + 1 + |fb| - hi
    ensures Replaced(fb, lo, hi, m)[i] == if i < lo then fb[i] else if i == lo then m else fb[i - lo - 1 + hi]
  {
  }

  lemma ReplacedLength(fb: seq<Blk>, lo: nat, hi: nat, m: Blk)
    requires lo <= hi <= |fb|
    ensures |Replaced(fb, lo, hi, m)| == lo + 1 + |fb| - hi
  {
  }

  lemma ReplacedOrdered(fb: seq<Blk>, lo: nat, hi: nat, m: Blk)
    requires Ordered(fb) && 1 <= lo <= hi <= |fb| && m.size > 0
    requires fb[lo - 1].at + fb[lo - 1].size < m.at && (hi < |fb| ==> m.at + m.size < fb[hi].at)
    ensures Ordered(Replaced(fb, lo, hi, m))
  {
    hide Replaced;
    var g := Replaced(fb, lo, hi, m);
    ReplacedLength(fb, lo, hi, m);
    ReplacedAt(fb, lo, hi, m, 0);
    forall i | 1 <= i < |g| ensures g[i].size > 0 { ReplacedAt(fb, lo, hi, m, i); }
    forall i, j | 0 <= i < j < |g| ensures g[i].at + g[i].size < g[j].at {
      ReplacedAt(fb, lo, hi, m, i);
      ReplacedAt(fb, lo, hi, m, j);
      if j < lo {
        assert fb[i].at + fb[i].size < fb[j].at;
      } else if j == lo {
        if i < lo - 1 { assert fb[i].at + fb[i].size < fb[lo - 1].at; }
      } else {
        var y := j - lo - 1 + hi;
        if i == lo {
          if y > hi { assert fb[hi].at + fb[hi].size < fb[y].at; }
        } else if i < lo {
          assert fb[i].at + fb[i].size < fb[y].at;
        } else {
          assert fb[i - lo - 1 + hi].at + fb[i - lo - 1 + hi].size < fb[y].at;
        }
      }
    }
  }

  lemma CoalescedOrdered(fb: seq<Blk>, k: nat, b: Blk)
    requires Ordered(fb) && Fits(fb, k, b) && b.size > 0 && b.at > BASE
    ensures Ordered(Coalesced(fb, k, b))
  {
    hide Replaced;
    ReplacedOrdered(fb,
      if JoinsDown(fb, k, b) then k else k + 1,
      if JoinsUp(fb, k, b) then k + 2 else k + 1, Merged(fb, k, b));
  }

  ghost predicate CoversRange(fb: seq<Blk>, from: nat, to: nat, u: int) {
    exists k :: from <= k < to && k < |fb| && In(fb[k], u)
  }

  lemma ReplacedCovers(fb: seq<Blk>, lo: nat, hi: nat, m: Blk, u: int)
    requires lo <= hi <= |fb|
    ensures Covers(Replaced(fb, lo, hi, m), u) <==>
              CoversRange(fb, 0, lo, u) || In(m, u) || CoversRange(fb, hi, |fb|, u)
  {
    var g := Replaced(fb, lo, hi, m);
    if Covers(g, u) {
      var i :| 0 <= i < |g| && In(g[i], u);
      ReplacedAt(fb, lo, hi, m, i);
      if i < lo { assert In(fb[i], u); } else if i > lo { assert In(fb[i - lo - 1 + hi], u); }
    }
    if CoversRange(fb, 0, lo, u) {
      var i :| 0 <= i < lo && In(fb[i], u);
      assert In(g[i], u);
    }
    if In(m, u) { assert In(g[lo], u); }
    if CoversRange(fb, hi, |fb|, u) {
      var i :| hi <= i < |fb| && In(fb[i], u);
      assert In(g[i - hi + lo + 1], u);
    }
  }

  /** The units on the free list are those that were there and those of the block. */
  lemma CoalescedCovers(fb: seq<Blk>, k: nat, b: Blk, u: int)
    requires Fits(fb, k, b)
    ensures Covers(Coalesced(fb, k, b), u) <==> Covers(fb, u) || In(b, u)
  {
    hide Replaced;
    var lo := if JoinsDown(fb, k, b) then k else k + 1;
    var hi := if JoinsUp(fb, k, b) then k + 2 else k + 1;
    var m := Merged(fb, k, b);
    ReplacedCovers(fb, lo, hi, m, u);
    assert In(m, u) <==> In(b, u) || (lo == k && In(fb[k], u)) || (hi == k + 2 && In(fb[k + 1], u));
    if Covers(fb, u) {
      var i :| 0 <= i < |fb| && In(fb[i], u);
      if i < lo { assert CoversRange(fb, 0, lo, u); } else if i >= hi { assert CoversRange(fb, hi, |fb|, u); }
    }
  }

  // ---------- malloc: carving ----------

  /** What is left when n units are taken from the end of the j-th block. */
  function Carved(fb: seq<Blk>, j: nat, n: nat): seq<Blk>
    requires j < |fb| && n <= fb[j].size
  {
    if fb[j].size == n then fb[..j] + fb[j + 1..] else fb[j := Blk(fb[j].at, fb[j].size - n)]
  }

  function Taken(fb: seq<Blk>, j: nat, n: nat): Blk
    requires j < |fb| && n <= fb[j].size
  {
    Blk(fb[j].at + fb[j].size - n, n)
  }

  lemma CarvedOrdered(fb: seq<Blk>, j: nat, n: nat)
    requires Ordered(fb) && 1 <= j < |fb| && 1 <= n <= fb[j].size
    ensures Ordered(Carved(fb, j, n)) && Taken(fb, j, n).at > BASE
    ensures forall k :: 0 <= k < |Carved(fb, j, n)| ==> Apart(Taken(fb, j, n), Carved(fb, j, n)[k])
  {
    var g := Carved(fb, j, n);
    if fb[j].size == n {
      forall i | 0 <= i < |g| ensures g[i] == if i < j then fb[i] else fb[i + 1] {}
    }
    assert fb[0].at + fb[0].size < fb[j].at;
  }

  lemma CarvedCovers(fb: seq<Blk>, j: nat, n: nat, u: int)
    requires Ordered(fb) && 1 <= j < |fb| && 1 <= n <= fb[j].size
    ensures Covers(fb, u) <==> Covers(Carved(fb, j, n), u) || In(Taken(fb, j, n), u)
  {
    if fb[j].size == n { RemovedCovers(fb, j, u); } else { ShrunkCovers(fb, j, n, u); }
  }

  lemma RemovedCovers(fb: seq<Blk>, j: nat, u: int)
    requires j < |fb|
    ensures Covers(fb, u) <==> Covers(fb[..j] + fb[j + 1..], u) || In(fb[j], u)
  {
    var g := fb[..j] + fb[j + 1..];
    if Covers(fb, u) {
      var i :| 0 <= i < |fb| && In(fb[i], u);
      if i < j { assert In(g[i], u); } else if i > j { assert In(g[i - 1], u); }
    }
    if Covers(g, u) {
      var i :| 0 <= i < |g| && In(g[i], u);
      if i < j { assert In(fb[i], u); } else { assert In(fb[i + 1], u); }
    }
  }

  lemma ShrunkCovers(fb: seq<Blk>, j: nat, n: nat, u: int)
    requires j < |fb| && n < fb[j].size
    ensures Covers(fb, u) <==> Covers(fb[j := Blk(fb[j].at, fb[j].size - n)], u) || In(Taken(fb, j, n), u)
  {
    var g := fb[j := Blk(fb[j].at, fb[j].size - n)];
    if Covers(fb, u) {
      var i :| 0 <= i < |fb| && In(fb[i], u);
      if i != j || !In(Taken(fb, j, n), u) { assert In(g[i], u); }
    }
    if Covers(g, u) {
      var i :| 0 <= i < |g| && In(g[i], u);
      assert In(fb[i], u);
    }
  }

  /** A block apart from every block of the list stays so when parts of the list are carved away. */
  lemma CarvedApart(fb: seq<Blk>, j: nat, n: nat, c: Blk)
    requires 1 <= j < |fb| && 1 <= n <= fb[j].size && forall k :: 0 <= k < |fb| ==> Apart(c, fb[k])
    ensures Apart(c, Taken(fb, j, n)) && forall k :: 0 <= k < |Carved(fb, j, n)| ==> Apart(c, Carved(fb, j, n)[k])
  {
    var g := Carved(fb, j, n);
    if fb[j].size == n {
      forall i | 0 <= i < |g| ensures g[i] == if i < j then fb[i] else fb[i + 1] {}
    }
    assert Apart(c, fb[j]);
  }

  /** And when a block apart from it is merged in. */
  lemma CoalescedApart(fb: seq<Blk>, k: nat, b: Blk, c: Blk)
    requires Fits(fb, k, b) && c.size > 0 && Apart(c, b) && forall i :: 0 <= i < |fb| ==> Apart(c, fb[i])
    ensures forall i :: 0 <= i < |Coalesced(fb, k, b)| ==> Apart(c, Coalesced(fb, k, b)[i])
  {
    hide Replaced;
    var g := Coalesced(fb, k, b);
    var lo := if JoinsDown(fb, k, b) then k else k + 1;
    var hi := if JoinsUp(fb, k, b) then k + 2 else k + 1;
    assert Apart(c, fb[k]) && (k + 1 < |fb| ==> Apart(c, fb[k + 1]));
    forall i | 0 <= i < |g| ensures Apart(c, g[i]) { ReplacedAt(fb, lo, hi, Merged(fb, k, b), i); }
  }

  // ---------- memory after an update stands for the new sequence ----------

  lemma AtDistinct(fb: seq<Blk>, i: nat, j: nat)
    requires Ordered(fb) && i < |fb| && j < |fb| && fb[i].at == fb[j].at
    ensures i == j
  {
  }

  /** A stretch of the list replaced by one block, by writing that block and its predecessor. */
  lemma CircularReplaced(ptr: Links, size: Sizes, fb: seq<Blk>, lo: nat, hi: nat, m: Blk, ptr2: Links, size2: Sizes)
    requires Circular(ptr, size, fb) && 1 <= lo <= hi <= |fb|
    requires forall i :: 0 <= i < |fb| && (i < lo - 1 || i >= hi) ==> Kept(ptr, size, ptr2, size2, fb[i].at)
    requires fb[lo - 1].at in ptr2 && ptr2[fb[lo - 1].at] == m.at && fb[lo - 1].at in size2
             && size2[fb[lo - 1].at] == fb[lo - 1].size
    requires m.at in ptr2 && ptr2[m.at] == (if hi < |fb| then fb[hi].at else fb[0].at) && m.at in size2
             && size2[m.at] == m.size
    ensures Circular(ptr2, size2, Replaced(fb, lo, hi, m))
  {
    hide Replaced;
    var g := Replaced(fb, lo, hi, m);
    ReplacedLength(fb, lo, hi, m);
    forall i | 0 <= i < |g| ensures LinkAt(ptr2, size2, g, i) {
      ReplacedAt(fb, lo, hi, m, i);
      ReplacedAt(fb, lo, hi, m, Next(|g|, i));
      if i < lo {
        assert LinkAt(ptr, size, fb, i);
      } else if i > lo {
        assert LinkAt(ptr, size, fb, i - lo - 1 + hi);
      }
    }
  }

  ghost predicate Kept(ptr: Links, size: Sizes, ptr2: Links, size2: Sizes, a: int) {
    a in ptr ==> a in ptr2 && ptr2[a] == ptr[a] && (a in size ==> a in size2 && size2[a] == size[a])
  }

  /** The writes of free, p being the block before bp. */
  function FreeSizes(ptr: Links, size: Sizes, p: int, bp: int): Sizes
    requires p in ptr && p in size && bp in size && ptr[p] in size && p != bp
  {
    var s1 := if bp + size[bp] == ptr[p] then size[bp := size[bp] + size[ptr[p]]] else size;
    if p + s1[p] == bp then s1[p := s1[p] + s1[bp]] else s1
  }

  function FreeLinks(ptr: Links, size: Sizes, p: int, bp: int): Links
    requires p in ptr && p in size && bp in size && ptr[p] in ptr && p != bp
  {
    var l1 := if bp + size[bp] == ptr[p] then ptr[bp := ptr[ptr[p]]] else ptr[bp := ptr[p]];
    if p + size[p] == bp then l1[p := l1[bp]] else l1[p := bp]
  }

  lemma CircularCoalesced(ptr: Links, size: Sizes, fb: seq<Blk>, k: nat, b: Blk)
    requires Ordered(fb) && Circular(ptr, size, fb) && Fits(fb, k, b) && b.size > 0 && b.at > BASE && b.at in size
             && size[b.at] == b.size
    ensures LinkAt(ptr, size, fb, k) && LinkAt(ptr, size, fb, Next(|fb|, k))
    ensures Circular(FreeLinks(ptr, size, fb[k].at, b.at), FreeSizes(ptr, size, fb[k].at, b.at), Coalesced(fb, k, b))
  {
    hide Replaced, Ordered;
    assert LinkAt(ptr, size, fb, k) && LinkAt(ptr, size, fb, Next(|fb|, k));
    var p, bp := fb[k].at, b.at;
    var ptr2, size2 := FreeLinks(ptr, size, p, bp), FreeSizes(ptr, size, p, bp);
    BaseLowest(fb, k);
    var up, down := JoinsUp(fb, k, b), JoinsDown(fb, k, b);
    if down { assert k >= 1 by { BaseLowest(fb, 0); } }
    var lo, hi := if down then k else k + 1, if up then k + 2 else k + 1;
    forall i | 0 <= i < |fb| && (i < lo - 1 || i >= hi) ensures Kept(ptr, size, ptr2, size2, fb[i].at) {
      if fb[i].at == p { AtDistinct(fb, i, k); }
      if i < k { EarlierBelow(fb, i, k); } else if i > k + 1 { EarlierBelow(fb, k + 1, i); }
      assert fb[i].at != bp;
    }
    if down { assert LinkAt(ptr, size, fb, k - 1); EarlierBelow(fb, k - 1, k); }
    if up { EarlierBelow(fb, k, k + 1); assert LinkAt(ptr, size, fb, k + 1); }
    CircularReplaced(ptr, size, fb, lo, hi, Merged(fb, k, b), ptr2, size2);
  }

  lemma BaseLowest(fb: seq<Blk>, k: nat)
    requires Ordered(fb) && k < |fb|
    ensures fb[0] == Blk(BASE, 0) && fb[k].at >= BASE && (k > 0 ==> fb[k].at > BASE && fb[k].size > 0)
  {
    if k > 0 { assert fb[0].at + fb[0].size < fb[k].at; }
  }

  lemma EarlierBelow(fb: seq<Blk>, i: nat, k: nat)
    requires Ordered(fb) && i < k < |fb|
    ensures fb[i].at + fb[i].size < fb[k].at
  {
  }

  lemma CircularRemoved(ptr: Links, size: Sizes, fb: seq<Blk>, j: nat)
    requires Ordered(fb) && Circular(ptr, size, fb) && 1 <= j < |fb|
    ensures Circular(ptr[fb[j - 1].at := fb[Next(|fb|, j)].at], size, fb[..j] + fb[j + 1..])
  {
    var g := fb[..j] + fb[j + 1..];
    var ptr2 := ptr[fb[j - 1].at := fb[Next(|fb|, j)].at];
    forall i | 0 <= i < |g| ensures LinkAt(ptr2, size, g, i) {
      var x := if i < j then i else i + 1;
      assert g[i] == fb[x] && LinkAt(ptr, size, fb, x);
      if fb[x].at == fb[j - 1].at { AtDistinct(fb, x, j - 1); }
    }
  }

  lemma CircularShrunk(ptr: Links, size: Sizes, fb: seq<Blk>, j: nat, n: nat)
    requires Ordered(fb) && Circular(ptr, size, fb) && 1 <= j < |fb| && 1 <= n < fb[j].size
    ensures var rest := fb[j].size - n;
            Circular(ptr, size[fb[j].at := rest][fb[j].at + rest := n], fb[j := Blk(fb[j].at, rest)])
  {
    hide Ordered;
    var rest := fb[j].size - n;
    var g := fb[j := Blk(fb[j].at, rest)];
    var size2 := size[fb[j].at := rest][fb[j].at + rest := n];
    forall i | 0 <= i < |g| ensures LinkAt(ptr, size2, g, i) {
      assert LinkAt(ptr, size, fb, i);
      if i < j { EarlierBelow(fb, i, j); } else if i > j { EarlierBelow(fb, j, i); }
    }
  }

  // ---------- going round ----------

  /** Steps along the circle from the i-th block to the t-th. */
  function Dist(n: nat, i: nat, t: nat): nat
    requires i < n && t < n
  {
    if i <= t then t - i else t + n - i
  }

  lemma DistNext(n: nat, i: nat, t: nat)
    requires i < n && t < n
    ensures i != t ==> Dist(n, Next(n, i), t) == Dist(n, i, t) - 1
    ensures i == t ==> Dist(n, Next(n, i), t) == n - 1
    ensures Dist(n, i, t) <= n - 1 && (Dist(n, i, t) == 0 <==> i == t)
  {
  }

  /** Every block apart from the list has a place in it. */
  lemma {:induction false} FindPlace(fb: seq<Blk>, b: Blk, k: nat) returns (t: nat)
    requires Ordered(fb) && b.size > 0 && b.at > BASE && k < |fb| && fb[k].at < b.at
    requires forall i :: 0 <= i < |fb| ==> Apart(b, fb[i])
    ensures Fits(fb, t, b)
    decreases |fb| - k
  {
    assert Apart(b, fb[k]);
    if k + 1 < |fb| && fb[k + 1].at < b.at {
      t := FindPlace(fb, b, k + 1);
    } else {
      t := k;
      if k + 1 < |fb| { assert Apart(b, fb[k + 1]); }
    }
  }

  /** The test of free's loop succeeds at the place where the block fits and nowhere else. */
  lemma PlaceTest(fb: seq<Blk>, t: nat, b: Blk, k: nat)
    requires Ordered(fb) && Fits(fb, t, b) && b.size > 0 && b.at > BASE && k < |fb|
    ensures var p, q := fb[k].at, fb[Next(|fb|, k)].at;
            ((b.at > p && b.at < q) || (p >= q && (b.at > p || b.at < q))) <==> k == t
  {
    hide Ordered;
    BaseLowest(fb, k);
    if k < t { EarlierBelow(fb, k, t); if k + 1 < t { EarlierBelow(fb, k + 1, t); } }
    if t < k { EarlierBelow(fb, t, k); if t + 1 < k { EarlierBelow(fb, t + 1, k); } }
    if k + 1 < |fb| { EarlierBelow(fb, k, k + 1); }
  }
}
