/**
  malloc, free and morecore of user/umalloc.c. A pointer handed to the caller is one unit past the block's header.
 */
module UserMalloc {
  import opened FreeList

  const HEADER: nat := 16         // sizeof(Header)

  ghost predicate LiveCovers(live: map<int, nat>, u: int) { exists a :: a in live && In(Blk(a, live[a]), u) }

  /** Live blocks are apart from one another and from the free ones. */
  ghost predicate LiveOk(live: map<int, nat>, fb: seq<Blk>, size: Sizes) {
    && (forall a :: a in live ==> live[a] > 0 && a > BASE && a in size && size[a] == live[a])
    && (forall a, k :: a in live && 0 <= k < |fb| ==> Apart(Blk(a, live[a]), fb[k]))
    && (forall a, b :: a in live && b in live && a != b ==> Apart(Blk(a, live[a]), Blk(b, live[b])))
  }

  /** The units obtained from sbrk are exactly those of free and live blocks. */
  ghost predicate Conserved(units: set<int>, live: map<int, nat>, fb: seq<Blk>, brk: int) {
    && (forall u :: u in units <==> Covers(fb, u) || LiveCovers(live, u))
    && (forall u :: u in units ==> u < brk)
    && BASE < brk
  }

  ghost function Span(a: int, n: nat): set<int> { set u | a <= u < a + n && In(Blk(a, n), u) }

  function Max(a: nat, b: nat): nat { if a < b then b else a }

  class Allocator {
    var ptr: Links
    var size: Sizes
    var freep: int                  // 0 until the first malloc
    ghost var fb: seq<Blk>          // the free list from the static header on
    ghost var at: nat               // freep is the at-th of them
    ghost var live: map<int, nat>   // headers of blocks handed out, and their sizes
    ghost var units: set<int>       // obtained from sbrk
    var brk: int                    // the end of the process's memory

    ghost predicate Ready()
      reads this
    {
      && Ordered(fb) && Circular(ptr, size, fb) && at < |fb| && freep == fb[at].at
      && LiveOk(live, fb, size) && Conserved(units, live, fb, brk)
    }

    ghost predicate Valid()
      reads this
    {
      if freep == 0 then fb == [] && live == map[] && units == {} && BASE < brk else Ready()
    }

    constructor (heap: int)
      requires heap > BASE
      ensures Valid() && live == map[] && units == {} && brk == heap
    {
      ptr, size, freep := map[], map[], 0;
      fb, at, live, units, brk := [], 0, map[], {}, heap;
    }

    /**
      free: the block's units go from live to free, merged with any neighbour; freep is the block before them.
      The search ends because it goes round the circle towards the one place where the block fits.
     */
    method Free(ap: int) returns (ghost t: nat)
      requires Valid() && ap - 1 in live
      modifies this
      ensures Valid() && freep != 0 && live == old(live) - {ap - 1} && units == old(units) && brk == old(brk)
      ensures var b := Blk(ap - 1, old(live)[ap - 1]); Fits(old(fb), t, b) && fb == Coalesced(old(fb), t, b)
      ensures t < |old(fb)| && freep == old(fb)[t].at
      ensures forall u :: Covers(fb, u) <==> old(Covers(fb, u)) || In(Blk(ap - 1, old(live)[ap - 1]), u)
    {
      hide Ordered, Circular, LiveOk, Conserved, Coalesced, Covers, Fits;
      var bp := ap - 1;
      ghost var b := Blk(bp, live[bp]);
      LiveBlock(live, fb, size, bp);
      t := FindPlace(fb, b, 0);
      var p := freep;
      ghost var k: nat := at;
      LinkedAt(ptr, size, fb, k);
      while !(bp > p && bp < ptr[p])
        invariant k < |fb| && p == fb[k].at && LinkAt(ptr, size, fb, k) && t < |fb|
        modifies {}
        decreases Dist(|fb|, k, t)
      {
        PlaceTest(fb, t, b, k);
        if p >= ptr[p] && (bp > p || bp < ptr[p]) {
          break;
        }
        DistNext(|fb|, k, t);
        LinkedAt(ptr, size, fb, Next(|fb|, k));
        p := ptr[p];
        k := Next(|fb|, k);
      }
      PlaceTest(fb, t, b, k);
      FreeKeeps(ptr, size, fb, t, b, live, units, brk);
      BaseLowest(fb, t);
      ghost var fb1, at1 := Coalesced(fb, t, b), t;
      ghost var ptr1, size1 := FreeLinks(ptr, size, p, bp), FreeSizes(ptr, size, p, bp);
      if bp + size[bp] == ptr[p] {
        size := size[bp := size[bp] + size[ptr[p]]];
        ptr := ptr[bp := ptr[ptr[p]]];
      } else {
        ptr := ptr[bp := ptr[p]];
      }
      if p + size[p] == bp {
        size := size[p := size[p] + size[bp]];
        ptr := ptr[p := ptr[bp]];
      } else {
        ptr := ptr[p := bp];
      }
      freep := p;
      assert ptr == ptr1 && size == size1;
      fb, at, live := fb1, at1, live - {bp};
    }

    /**
      morecore, sbrk being asked for more memory: it may refuse, and another caller may have moved the break by gap
      units before. The new block is freed into the list, and some block is then large enough.
     */
    method Morecore(nu: nat, granted: bool, gap: nat) returns (p: int, ghost big: nat)
      requires Valid() && freep != 0 && Max(nu, 4096) * HEADER < 0x8000_0000
      modifies this
      ensures Valid() && freep != 0 && live == old(live) && p == (if granted then freep else 0)
      ensures !granted ==>
                fb == old(fb) && units == old(units) && brk == old(brk) && ptr == old(ptr) && size == old(size)
                && freep == old(freep) && at == old(at)
      ensures granted ==> big < |fb| && fb[big].size >= nu && brk == old(brk) + gap + Max(nu, 4096)
                          && units == old(units) + Span(old(brk) + gap, Max(nu, 4096))
    {
      hide Ordered, Circular, LiveOk, Conserved, Covers;
      big := 0;
      var n := nu;
      if n < 4096 {
        n := 4096;
      }
      if !granted {
        return 0, 0;
      }
      ghost var a := brk + gap;
      var hp := brk + gap;
      NewBlock(ptr, size, fb, live, units, brk, gap, n);
      size := size[hp := n];
      live := live[hp := n];
      units := units + Span(a, n);
      brk := hp + n;
      ghost var fb0 := fb;
      ghost var t := Free(hp + 1);
      assert live == old(live);
      big := if JoinsDown(fb0, t, Blk(hp, n)) then t else t + 1;
      BigEnough(fb0, t, Blk(hp, n));
      p := freep;
    }

    /**
      malloc: a block of its own with room for nbytes behind its header, or 0 when no free block is large enough and
      the system refuses more memory. The search goes round the list at most once before and once after morecore.
     */
    method Malloc(nbytes: nat, granted: bool, gap: nat) returns (ap: int, ghost j: nat)
      requires Valid() && Max(Units(nbytes), 4096) * HEADER < 0x8000_0000
      modifies this
      ensures Valid() && freep != 0
      ensures ap == 0 ==>
                !granted && live == old(live) && units == old(units)
                && forall k :: 0 <= k < |fb| ==> fb[k].size < Units(nbytes)
      ensures ap != 0 ==>
                ap - 1 !in old(live) && live == old(live)[ap - 1 := Units(nbytes)]
                && (Units(nbytes) - 1) * HEADER >= nbytes
      ensures old(freep) != 0 && (exists x :: 0 <= x < |old(fb)| && old(fb)[x].size >= Units(nbytes)) ==>
                ap != 0 && NextFit(old(fb), old(at), Units(nbytes), j) && freep == old(fb)[Prev(|old(fb)|, j)].at
                && ap - 1 == old(fb)[j].at + old(fb)[j].size - Units(nbytes)
      ensures ap != 0 && brk == old(brk) ==>
                old(freep) != 0 && exists x :: 0 <= x < |old(fb)| && old(fb)[x].size >= Units(nbytes)
      ensures ap != 0 ==> (units == old(units) && brk == old(brk))
                          || (granted && brk == old(brk) + gap + Max(Units(nbytes), 4096)
                              && units == old(units) + Span(old(brk) + gap, Max(Units(nbytes), 4096)))
    {
      hide Ordered, Circular, LiveOk, Conserved, Covers, NextFit, Left, Prev, Next, Dist, Units, LinkAt;
      var nunits := Units(nbytes);
      Initialise();
      var prevp := freep;
      ghost var grown: bool, t: nat := false, 0;
      ghost var fb0, at0 := fb, at;
      j := Next(|fb|, at);
      Around(ptr, size, fb, at);
      AnyLeft(fb, at, nunits);
      var p := ptr[prevp];
      while true
        invariant Valid() && freep != 0 && j < |fb| && p == fb[j].at && Prev(|fb|, j) < |fb|
                  && prevp == fb[Prev(|fb|, j)].at
        invariant Left(fb, j, at, nunits)
        invariant !grown ==> live == old(live) && units == old(units) && brk == old(brk) && fb == fb0 && at == at0
        invariant grown ==> forall x :: 0 <= x < |fb0| ==> fb0[x].size < nunits
        invariant grown ==>
                    granted && t < |fb| && fb[t].size >= nunits && live == old(live)
                    && brk == old(brk) + gap + Max(nunits, 4096)
                            && units == old(units) + Span(old(brk) + gap, Max(nunits, 4096))
        decreases if grown then 0 else 1, Dist(|fb|, j, at)
      {
        Around(ptr, size, fb, j);
        if size[p] >= nunits {
          FirstFound(fb, at, nunits, j);
          ap := Carve(prevp, p, nunits, j);
          return;
        }
        if p == freep {
          AllSeen(fb, j, at, nunits);
          if grown { assert false; }
          ghost var big;
          p, big := Morecore(nunits, granted, gap);
          if p == 0 {
            return 0, 0;
          }
          grown, t, j := true, big, at;
          Around(ptr, size, fb, j);
          AnyLeft(fb, at, nunits);
        } else {
          NotAt(fb, j, at);
          OneSeen(fb, j, at, nunits);
        }
        prevp := p;
        p := ptr[p];
        j := Next(|fb|, j);
      }
    }

    /** malloc's last step: nunits taken off the end of the block at p, or the whole of it unlinked. */
    method Carve(prevp: int, at0: int, nunits: nat, ghost j: nat) returns (ap: int)
      requires Ready() && j < |fb| && at0 == fb[j].at && fb[j].size >= nunits >= 1 && prevp == fb[Prev(|fb|, j)].at
      modifies this
      ensures Ready() && freep != 0 && units == old(units) && brk == old(brk)
      ensures ap != 0 && ap - 1 !in old(live) && live == old(live)[ap - 1 := nunits] && freep == prevp
      ensures ap - 1 == old(fb)[j].at + old(fb)[j].size - nunits
    {
      hide Ordered, Circular, LiveOk, Conserved, Covers;
      BaseSmall(fb, j, nunits);
      CarveKeeps(ptr, size, fb, j, nunits, live, units, brk);
      ghost var fb1 := Carved(fb, j, nunits);
      var p := at0;
      if size[p] == nunits {
        ptr := ptr[prevp := ptr[p]];
      } else {
        size := size[p := size[p] - nunits];
        p := p + size[p];
        size := size[p := nunits];
      }
      freep := prevp;
      fb, at, live := fb1, j - 1, live[p := nunits];
      ap := p + 1;
    }

    /** The first call of malloc makes the static header the whole list. */
    method Initialise()
      requires Valid()
      modifies this
      ensures Ready() && freep != 0 && live == old(live) && units == old(units) && brk == old(brk)
      ensures old(freep) != 0 ==> fb == old(fb) && at == old(at)
      ensures old(freep) == 0 ==> forall x :: 0 <= x < |fb| ==> fb[x].size == 0
    {
      if freep == 0 {
        ptr, size, freep := ptr[BASE := BASE], size[BASE := 0], BASE;
        fb, at := [Blk(BASE, 0)], 0;
      }
    }
  }

  /** Headers and payload, in units. */
  function Units(nbytes: nat): (n: nat)
    ensures n >= 1 && (n - 1) * HEADER >= nbytes && (n == 1 || (n - 2) * HEADER < nbytes)
  {
    (nbytes + HEADER - 1) / HEADER + 1
  }

  function Prev(n: nat, k: nat): nat
    requires k < n
  {
    if k == 0 then n - 1 else k - 1
  }

  /** What the circular list says of one block. */
  lemma Around(ptr: Links, size: Sizes, fb: seq<Blk>, k: nat)
    requires Circular(ptr, size, fb) && k < |fb|
    ensures fb[k].at in size && size[fb[k].at] == fb[k].size && fb[k].at in ptr
    ensures Next(|fb|, k) < |fb| && ptr[fb[k].at] == fb[Next(|fb|, k)].at && Prev(|fb|, Next(|fb|, k)) == k
  {
    LinkedAt(ptr, size, fb, k);
  }

  /** Every block that is large enough is still ahead on this round. */
  ghost predicate Left(fb: seq<Blk>, j: nat, at: nat, nunits: nat)
    requires j < |fb| && at < |fb|
  {
    forall x :: 0 <= x < |fb| && fb[x].size >= nunits ==> Dist(|fb|, j, x) <= Dist(|fb|, j, at)
  }

  /** The first block that is large enough, going round the circle from the one behind the at-th. */
  ghost predicate NextFit(fb: seq<Blk>, at: nat, nunits: nat, j: nat) {
    && at < |fb| && j < |fb| && fb[j].size >= nunits
    && forall x ::
         0 <= x < |fb| && fb[x].size >= nunits ==> Dist(|fb|, Next(|fb|, at), j) <= Dist(|fb|, Next(|fb|, at), x)
  }

  lemma FirstFound(fb: seq<Blk>, at: nat, nunits: nat, j: nat)
    requires at < |fb| && j < |fb| && Left(fb, j, at, nunits) && fb[j].size >= nunits
    ensures NextFit(fb, at, nunits, j)
  {
    forall x | 0 <= x < |fb| && fb[x].size >= nunits
      ensures Dist(|fb|, Next(|fb|, at), j) <= Dist(|fb|, Next(|fb|, at), x)
    {
      assert Dist(|fb|, j, x) <= Dist(|fb|, j, at);
    }
  }

  lemma AnyLeft(fb: seq<Blk>, at: nat, nunits: nat)
    requires at < |fb|
    ensures Left(fb, Next(|fb|, at), at, nunits)
  {
    forall x | 0 <= x < |fb| ensures Dist(|fb|, Next(|fb|, at), x) <= Dist(|fb|, Next(|fb|, at), at) {}
  }

  lemma OneSeen(fb: seq<Blk>, j: nat, at: nat, nunits: nat)
    requires j < |fb| && at < |fb| && j != at && Left(fb, j, at, nunits) && fb[j].size < nunits
    ensures Left(fb, Next(|fb|, j), at, nunits) && Dist(|fb|, Next(|fb|, j), at) < Dist(|fb|, j, at)
  {
    DistNext(|fb|, j, at);
    forall x | 0 <= x < |fb| && fb[x].size >= nunits
      ensures Dist(|fb|, Next(|fb|, j), x) <= Dist(|fb|, Next(|fb|, j), at)
    {
      DistNext(|fb|, j, x);
    }
  }

  lemma AllSeen(fb: seq<Blk>, j: nat, at: nat, nunits: nat)
    requires j < |fb| && at < |fb| && Ordered(fb) && fb[j].at == fb[at].at && Left(fb, j, at, nunits)
             && fb[j].size < nunits
    ensures forall x :: 0 <= x < |fb| ==> fb[x].size < nunits
  {
    AtDistinct(fb, j, at);
    forall x | 0 <= x < |fb| ensures fb[x].size < nunits { DistNext(|fb|, j, x); }
  }

  lemma NotAt(fb: seq<Blk>, j: nat, at: nat)
    requires j < |fb| && at < |fb| && fb[j].at != fb[at].at
    ensures j != at
  {
  }

  lemma BaseSmall(fb: seq<Blk>, j: nat, nunits: nat)
    requires Ordered(fb) && j < |fb| && fb[j].size >= nunits >= 1
    ensures j >= 1
  {
  }

  /** Everything malloc promises about the list it leaves and the block it hands out. */
  lemma CarveKeeps(ptr: Links, size: Sizes, fb: seq<Blk>, j: nat, n: nat, live: map<int, nat>, units: set<int>,
          brk: int)
    requires Ordered(fb) && Circular(ptr, size, fb) && LiveOk(live, fb, size) && Conserved(units, live, fb, brk)
    requires 1 <= j < |fb| && 1 <= n <= fb[j].size
    ensures LinkAt(ptr, size, fb, j) && Taken(fb, j, n).at !in live && j - 1 < |Carved(fb, j, n)|
            && Carved(fb, j, n)[j - 1].at == fb[j - 1].at
    ensures fb[j - 1].at != 0 && Taken(fb, j, n).at > BASE
            && Taken(fb, j, n).at == if n == fb[j].size then fb[j].at else fb[j].at + fb[j].size - n
    ensures var ptr1 := if n == fb[j].size then ptr[fb[j - 1].at := ptr[fb[j].at]] else ptr;
            var size1 := if n == fb[j].size then size else size[fb[j].at := fb[j].size - n][Taken(fb, j, n).at := n];
            var fb1, live1 := Carved(fb, j, n), live[Taken(fb, j, n).at := n];
            Ordered(fb1) && Circular(ptr1, size1, fb1) && LiveOk(live1, fb1, size1) && Conserved(units, live1, fb1, brk)
  {
    hide Ordered, Circular, Covers, LiveCovers;
    var b, fb1 := Taken(fb, j, n), Carved(fb, j, n);
    LinkedAt(ptr, size, fb, j);
    CarvedOrdered(fb, j, n);
    BaseLowest(fb, j - 1);
    if n == fb[j].size { CircularRemoved(ptr, size, fb, j); } else { CircularShrunk(ptr, size, fb, j, n); }
    forall a | a in live
      ensures Apart(Blk(a, live[a]), b) && forall k :: 0 <= k < |fb1| ==> Apart(Blk(a, live[a]), fb1[k])
    {
      CarvedApart(fb, j, n, Blk(a, live[a]));
    }
    forall a | a in live ensures a != b.at { assert Apart(Blk(a, live[a]), b); }
    forall u ensures Covers(fb, u) <==> Covers(fb1, u) || In(b, u) { CarvedCovers(fb, j, n, u); }
    var live1 := live[b.at := n];
    assert live1 - {b.at} == live;
    forall u ensures LiveCovers(live1, u) <==> LiveCovers(live, u) || In(b, u) { LiveLess(live1, b.at, u); }
    forall a | a in live ensures a != fb[j].at { assert Apart(Blk(a, live[a]), fb[j]); }
  }

  /** Memory above the break is apart from everything, so as a live block it keeps the invariant. */
  lemma NewBlock(ptr: Links, size: Sizes, fb: seq<Blk>, live: map<int, nat>, units: set<int>, brk: int, gap: nat,
          n: nat)
    requires Ordered(fb) && Circular(ptr, size, fb) && LiveOk(live, fb, size) && Conserved(units, live, fb, brk)
             && n > 0
    ensures var a := brk + gap;
            a !in live && Circular(ptr, size[a := n], fb) && LiveOk(live[a := n], fb, size[a := n])
            && Conserved(units + Span(a, n), live[a := n], fb, a + n)
  {
    hide Ordered, LiveCovers, Covers;
    var a := brk + gap;
    forall k | 0 <= k < |fb|
      ensures fb[k].at + fb[k].size <= brk && fb[k].at < brk
    {
      FreeBelow(fb, k, units, live, brk);
    }
    forall x | x in live ensures x + live[x] <= brk && x < brk { LiveBelow(fb, units, live, brk, x); }
    var size1 := size[a := n];
    forall k | 0 <= k < |fb| ensures LinkAt(ptr, size1, fb, k) { LinkedAt(ptr, size, fb, k); }
    var live1 := live[a := n];
    assert live1 - {a} == live;
    forall u ensures LiveCovers(live1, u) <==> LiveCovers(live, u) || In(Blk(a, n), u) { LiveLess(live1, a, u); }
  }

  lemma FreeBelow(fb: seq<Blk>, k: nat, units: set<int>, live: map<int, nat>, brk: int)
    requires Ordered(fb) && Conserved(units, live, fb, brk) && k < |fb|
    ensures fb[k].at + fb[k].size <= brk && fb[k].at < brk
  {
    hide LiveCovers;
    BaseLowest(fb, k);
    if fb[k].size > 0 {
      assert In(fb[k], fb[k].at + fb[k].size - 1);
      assert Covers(fb, fb[k].at + fb[k].size - 1);
    }
  }

  lemma LiveBelow(fb: seq<Blk>, units: set<int>, live: map<int, nat>, brk: int, a: int)
    requires Conserved(units, live, fb, brk) && a in live && live[a] > 0
    ensures a + live[a] <= brk && a < brk
  {
    hide Covers;
    assert In(Blk(a, live[a]), a + live[a] - 1);
    assert LiveCovers(live, a + live[a] - 1);
  }

  lemma BigEnough(fb: seq<Blk>, t: nat, b: Blk)
    requires Fits(fb, t, b)
    ensures var k := if JoinsDown(fb, t, b) then t else t + 1;
            k < |Coalesced(fb, t, b)| && Coalesced(fb, t, b)[k].size >= b.size
  {
  }

  lemma LiveBlock(live: map<int, nat>, fb: seq<Blk>, size: Sizes, a: int)
    requires LiveOk(live, fb, size) && Ordered(fb) && a in live
    ensures live[a] > 0 && a > BASE && a in size && size[a] == live[a] && |fb| > 0 && fb[0].at < a
    ensures forall k :: 0 <= k < |fb| ==> Apart(Blk(a, live[a]), fb[k])
  {
  }

  lemma LinkedAt(ptr: Links, size: Sizes, fb: seq<Blk>, k: nat)
    requires Circular(ptr, size, fb) && k < |fb|
    ensures LinkAt(ptr, size, fb, k)
  {
  }

  /** Everything free promises about the new list and the new set of live blocks. */
  lemma FreeKeeps(ptr: Links, size: Sizes, fb: seq<Blk>, t: nat, b: Blk, live: map<int, nat>, units: set<int>, brk: int)
    requires Ordered(fb) && Circular(ptr, size, fb) && LiveOk(live, fb, size) && Conserved(units, live, fb, brk)
    requires Fits(fb, t, b) && b.at in live && b.size == live[b.at]
    ensures t < |fb| && LinkAt(ptr, size, fb, t) && LinkAt(ptr, size, fb, Next(|fb|, t)) && b.at in size
            && fb[t].at != b.at
    ensures var fb1, live1 := Coalesced(fb, t, b), live - {b.at};
            Ordered(fb1) && Circular(FreeLinks(ptr, size, fb[t].at, b.at), FreeSizes(ptr, size, fb[t].at, b.at), fb1)
            && t < |fb1| && fb1[t].at == fb[t].at
            && LiveOk(live1, fb1, FreeSizes(ptr, size, fb[t].at, b.at)) && Conserved(units, live1, fb1, brk)
    ensures forall u :: Covers(Coalesced(fb, t, b), u) <==> Covers(fb, u) || In(b, u)
  {
    hide Ordered, Circular, Coalesced, Covers, LiveCovers;
    LiveBlock(live, fb, size, b.at);
    CircularCoalesced(ptr, size, fb, t, b);
    CoalescedOrdered(fb, t, b);
    var fb1, live1 := Coalesced(fb, t, b), live - {b.at};
    SamePlace(fb, t, b);
    forall u ensures Covers(fb1, u) <==> Covers(fb, u) || In(b, u) { CoalescedCovers(fb, t, b, u); }
    forall u ensures LiveCovers(live, u) <==> LiveCovers(live1, u) || In(b, u) { LiveLess(live, b.at, u); }
    forall a | a in live1 ensures forall k :: 0 <= k < |fb1| ==> Apart(Blk(a, live[a]), fb1[k]) {
      CoalescedApart(fb, t, b, Blk(a, live[a]));
    }
    LinkedAt(ptr, size, fb, t);
    LiveSizes(ptr, size, fb, t, b, live);
  }

  lemma SamePlace(fb: seq<Blk>, t: nat, b: Blk)
    requires Fits(fb, t, b)
    ensures t < |Coalesced(fb, t, b)| && Coalesced(fb, t, b)[t].at == fb[t].at
  {
  }

  lemma LiveLess(live: map<int, nat>, a: int, u: int)
    requires a in live
    ensures LiveCovers(live, u) <==> LiveCovers(live - {a}, u) || In(Blk(a, live[a]), u)
  {
    if LiveCovers(live, u) {
      var x :| x in live && In(Blk(x, live[x]), u);
      if x != a { assert x in live - {a} && (live - {a})[x] == live[x]; }
    }
    if LiveCovers(live - {a}, u) {
      var x :| x in live - {a} && In(Blk(x, (live - {a})[x]), u);
      assert x in live && live[x] == (live - {a})[x];
    }
  }

  /** The headers of the blocks that stay live are not written. */
  lemma LiveSizes(ptr: Links, size: Sizes, fb: seq<Blk>, t: nat, b: Blk, live: map<int, nat>)
    requires LiveOk(live, fb, size) && Fits(fb, t, b) && b.at in live && LinkAt(ptr, size, fb, t)
             && LinkAt(ptr, size, fb, Next(|fb|, t)) && b.at in size && fb[t].at != b.at
    requires Ordered(fb)
    ensures forall a ::
              a in live && a != b.at ==>
                a in FreeSizes(ptr, size, fb[t].at, b.at) && FreeSizes(ptr, size, fb[t].at, b.at)[a] == live[a]
  {
    forall a | a in live && a != b.at ensures a != fb[t].at {
      assert Apart(Blk(a, live[a]), fb[t]);
      BaseLowest(fb, t);
    }
  }
}
