/**
  How memory as a whole moves from one call of vm.c to the next: pages leave the free list for tables and
  users and come back, and what was in use stays as it was.
 */
module UserMemory {
  import opened PageTables
  import opened PageChanges

  /** Every page that was in use keeps its role and, unless it is a table, its contents. */
  ghost predicate Evolved(v: Vm, w: Vm) {
    && w.roots == v.roots && w.lo == v.lo && |w.mem| == |v.mem| && w.role.Keys == v.role.Keys
    && (forall q :: q in v.role && !v.role[q].Free? ==> w.role[q] == v.role[q])
    && (forall q :: q in v.role && q < |v.mem| && !v.role[q].Free? && !v.role[q].Table? ==> w.mem[q] == v.mem[q])
  }

  /** Free pages have stayed free or become page tables of r, nothing else. */
  ghost predicate Settled(v: Vm, w: Vm, r: nat) {
    forall q :: q in v.role && q in w.role && v.role[q].Free? ==> w.role[q].Free? || IsTable(w.role[q], r)
  }

  predicate IsTable(x: Role, r: nat) { x.Table? && x.r == r  }

  lemma EvolvedTwice(v: Vm, w: Vm, x: Vm)
    requires Evolved(v, w) && Evolved(w, x)
    ensures Evolved(v, x)
    ensures forall r :: Settled(v, w, r) && Settled(w, x, r) ==> Settled(v, x, r)
  {
    assert forall q :: q in v.role.Keys <==> q in w.role.Keys;
  }

  lemma NothingEvolved(v: Vm)
    ensures Evolved(v, v) && forall r :: Settled(v, v, r)
  {
  }

  lemma PoppedFrame(v: Vm)
    requires Wf(v) && |v.free| > 0
    ensures Top(v) < |v.mem| && Top(v) in v.role && v.role[Top(v)].Free?
    ensures Evolved(v, Popped(v)) && Popped(v).role[Top(v)] == New
    ensures forall q :: q in v.role && q != Top(v) ==> Popped(v).role[q] == v.role[q] && Popped(v).mem[q] == v.mem[q]
  {
    hide Junk, NodesOk, BranchesOk, UsersOk;
  }

  // ---------- a range of pages given to a user ----------

  /** Virtual page vpn of r has got a page that was free, with the given flags and contents. */
  ghost predicate Got(v: Vm, w: Vm, r: nat, vpn: nat, e: (bv10, Page)) {
    var m := Lookup(w.mem, r, vpn);
    && m.Mapped? && m.flags == e.0 && m.page in w.role && m.page in v.role && m.page < |w.mem|
    && w.role[m.page] == User(r, vpn) && v.role[m.page].Free? && w.mem[m.page] == e.1
  }

  ghost predicate InRange(x: Role, r: nat, a: nat, n: nat) {
    x.User? && x.r == r && a <= x.vpn < a + n
  }

  /** The pages from a on have been given to r with the flags and contents want; nothing else is mapped differently. */
  ghost predicate Grown(v: Vm, w: Vm, r: nat, a: nat, want: seq<(bv10, Page)>) {
    && Evolved(v, w)
    && (forall k :: 0 <= k < |want| ==> Got(v, w, r, a + k, want[k]))
    && (forall r2, vpn ::
          r2 in v.roots && 0 <= vpn < VPNS && !(r2 == r && a <= vpn < a + |want|) ==>
            Lookup(w.mem, r2, vpn) == Lookup(v.mem, r2, vpn))
    && (forall q ::
          q in v.role && q in w.role && v.role[q].Free? ==>
            w.role[q].Free? || IsTable(w.role[q], r) || InRange(w.role[q], r, a, |want|))
  }

  lemma GrownNothing(v: Vm, r: nat, a: nat)
    ensures Grown(v, v, r, a, [])
  {
    hide Lookup;
  }

  lemma GotStays(v: Vm, w: Vm, x: Vm, r: nat, vpn: nat, e: (bv10, Page))
    requires Got(v, w, r, vpn, e) && Evolved(w, x) && Lookup(x.mem, r, vpn) == Lookup(w.mem, r, vpn)
    ensures Got(v, x, r, vpn, e)
  {
    hide Lookup;
    assert Lookup(w.mem, r, vpn).page in w.role.Keys;
  }

  lemma GrownMore(v: Vm, w: Vm, x: Vm, r: nat, a: nat, want: seq<(bv10, Page)>, e: (bv10, Page))
    requires Grown(v, w, r, a, want) && Grown(w, x, r, a + |want|, [e]) && r in v.roots && a + |want| < VPNS
    ensures Grown(v, x, r, a, want + [e])
  {
    hide Lookup, Got;
    EvolvedTwice(v, w, x);
    var n := |want|;
    forall k | 0 <= k < n + 1 ensures Got(v, x, r, a + k, (want + [e])[k]) {
      if k < n {
        assert Got(v, w, r, a + k, want[k]);
        GotStays(v, w, x, r, a + k, want[k]);
      } else {
        assert Got(w, x, r, a + n + 0, [e][0]);
        GotEarlier(v, w, x, r, a + n, e);
      }
    }
    assert forall q :: q in v.role.Keys <==> q in w.role.Keys;
  }

  lemma GotEarlier(v: Vm, w: Vm, x: Vm, r: nat, vpn: nat, e: (bv10, Page))
    requires Evolved(v, w) && Got(w, x, r, vpn, e)
    ensures Got(v, x, r, vpn, e)
  {
    hide Lookup;
    assert Lookup(x.mem, r, vpn).page in v.role.Keys;
  }

  /** More tables after the range was given do not disturb it. */
  lemma GrownThenTables(v: Vm, w: Vm, x: Vm, r: nat, a: nat, want: seq<(bv10, Page)>)
    requires Grown(v, w, r, a, want) && Evolved(w, x) && Settled(w, x, r) && SameMaps(w, x)
    requires r in v.roots && a + |want| <= VPNS
    ensures Grown(v, x, r, a, want)
  {
    hide Lookup, Got;
    EvolvedTwice(v, w, x);
    forall k | 0 <= k < |want| ensures Got(v, x, r, a + k, want[k]) {
      assert Got(v, w, r, a + k, want[k]);
      GotStays(v, w, x, r, a + k, want[k]);
    }
    assert forall q :: q in v.role.Keys <==> q in w.role.Keys;
  }

  // ---------- a range of pages taken away ----------

  /**
    The pages from a on are no longer mapped in r; the ones that were its own are free or, if they are not to be freed,
    in the kernel's hands with their contents. Nothing else has changed.
   */
  ghost predicate Shrunk(v: Vm, w: Vm, r: nat, a: nat, n: nat, free: bool) {
    && w.roots == v.roots && w.lo == v.lo && |w.mem| == |v.mem| && w.role.Keys == v.role.Keys
    && (forall r2, vpn :: r2 in v.roots && 0 <= vpn < VPNS ==>
         Lookup(w.mem, r2, vpn) == if r2 == r && a <= vpn < a + n then Unmapped else Lookup(v.mem, r2, vpn))
    && (forall q :: q in v.role ==>
         if !InRange(v.role[q], r, a, n) then w.role[q] == v.role[q]
         else if free then w.role[q].Free? else w.role[q] == New)
    && (forall q :: q in v.role && q < |v.mem| && KeepsContents(v.role[q], r, a, n, free) ==> w.mem[q] == v.mem[q])
  }

  ghost predicate KeepsContents(x: Role, r: nat, a: nat, n: nat, free: bool) {
    !x.Free? && !x.Table? && !(free && InRange(x, r, a, n))
  }

  lemma ShrunkNothing(v: Vm, r: nat, a: nat, free: bool)
    ensures Shrunk(v, v, r, a, 0, free)
  {
    hide Lookup;
  }

  lemma ShrunkMore(v: Vm, w: Vm, x: Vm, r: nat, a: nat, n: nat, free: bool)
    requires Shrunk(v, w, r, a, n, free) && Shrunk(w, x, r, a + n, 1, free)
    ensures Shrunk(v, x, r, a, n + 1, free)
  {
    hide Lookup;
    assert forall q :: q in v.role.Keys <==> q in w.role.Keys;
  }

  /** Giving pages and taking the same pages away restores the map and returns every page that is not a table. */
  lemma GrownThenShrunk(v: Vm, w: Vm, x: Vm, r: nat, a: nat, want: seq<(bv10, Page)>)
    requires Wf(v) && Grown(v, w, r, a, want) && Shrunk(w, x, r, a, |want|, true) && r in v.roots && a + |want| <= VPNS
    requires forall vpn :: a <= vpn < a + |want| ==> Lookup(v.mem, r, vpn) == Unmapped
    ensures Evolved(v, x) && Settled(v, x, r) && SameMaps(v, x)
  {
    hide Lookup, Got, NodesOk, BranchesOk, FreeOk;
    assert forall q :: q in v.role.Keys <==> q in w.role.Keys;
    forall q | q in v.role && !v.role[q].Free? ensures !InRange(w.role[q], r, a, |want|) {
      assert w.role[q] == v.role[q];
    }
  }

  // ---------- mappages ----------

  /** n pages from p on are mapped from virtual page a on; tables may have been added. */
  ghost predicate MappedSome(v: Vm, w: Vm, r: nat, a: nat, n: nat, p: nat, flags: bv10) {
    && w.roots == v.roots && w.lo == v.lo && |w.mem| == |v.mem| && w.role.Keys == v.role.Keys
    && (forall r2, vpn :: r2 in v.roots && 0 <= vpn < VPNS ==>
         Lookup(w.mem, r2, vpn) ==
           if r2 == r && a <= vpn < a + n then Mapped(p + (vpn - a), flags | PTE_V) else Lookup(v.mem, r2, vpn))
    && (forall q :: q in v.role ==> RoleMapped(v.role[q], w.role[q], q, r, a, n, p))
    && (forall q :: q in v.role && q < |v.mem| && !v.role[q].Free? && !v.role[q].Table? ==> w.mem[q] == v.mem[q])
  }

  ghost predicate RoleMapped(before: Role, after: Role, q: nat, r: nat, a: nat, n: nat, p: nat) {
    if before.Free? then after.Free? || IsTable(after, r)
    else if before == New && p <= q < p + n then after == User(r, a + (q - p))
    else after == before
  }

  lemma MappedNothing(v: Vm, r: nat, a: nat, p: nat, flags: bv10)
    ensures MappedSome(v, v, r, a, 0, p, flags)
  {
    hide Lookup;
  }

  lemma MappedThenTables(v: Vm, w: Vm, x: Vm, r: nat, a: nat, n: nat, p: nat, flags: bv10)
    requires MappedSome(v, w, r, a, n, p, flags) && Evolved(w, x) && Settled(w, x, r) && SameMaps(w, x)
    ensures MappedSome(v, x, r, a, n, p, flags)
  {
    hide Lookup;
    assert forall q :: q in v.role.Keys <==> q in w.role.Keys;
    forall q | q in v.role ensures RoleMapped(v.role[q], x.role[q], q, r, a, n, p) {
      assert RoleMapped(v.role[q], w.role[q], q, r, a, n, p);
    }
    forall q | q in v.role && q < |v.mem| && !v.role[q].Free? && !v.role[q].Table? ensures x.mem[q] == v.mem[q] {
      assert RoleMapped(v.role[q], w.role[q], q, r, a, n, p);
    }
  }

  lemma MappedMore(v: Vm, w: Vm, r: nat, a: nat, n: nat, p: nat, flags: bv10)
    requires MappedSome(v, w, r, a, n, p, flags) && Wf(w) && HasSlot(w, r, a + n) && Lookup(w.mem, r, a + n) == Unmapped
             && p + n < MAXPPN
    requires p + n in v.role ==> v.role[p + n] == New || v.role[p + n] == Kernel
    ensures Wf(MapOne(w, r, a + n, p + n, flags))
            && MappedSome(v, MapOne(w, r, a + n, p + n, flags), r, a, n + 1, p, flags)
  {
    hide Lookup, NodeAt, PX, MakePte, FreeOk, NodesOk, BranchesOk, UsersOk, LeafMem;
    var x := MapOne(w, r, a + n, p + n, flags);
    assert forall q :: q in v.role.Keys <==> q in w.role.Keys;
    if p + n in v.role { assert RoleMapped(v.role[p + n], w.role[p + n], p + n, r, a, n, p); }
    MapKeeps(w, r, a + n, p + n, flags);
    TableAt(w, r, PosOf(a + n, 0));
    LeafLength(w.mem, r, a + n, MakePte(p + n, flags | PTE_V));
    forall q | q in v.role ensures RoleMapped(v.role[q], x.role[q], q, r, a, n + 1, p) {
      assert RoleMapped(v.role[q], w.role[q], q, r, a, n, p);
    }
    forall q | q in v.role && q < |v.mem| && !v.role[q].Free? && !v.role[q].Table? ensures x.mem[q] == v.mem[q] {
      assert RoleMapped(v.role[q], w.role[q], q, r, a, n, p);
    }
  }

  /** kalloc, fill and mappages on one page. */
  lemma MappedIsGrown(v: Vm, w: Vm, x: Vm, r: nat, a: nat, p: nat, flags: bv10, data: Page)
    requires Wf(v) && |v.free| > 0 && p == Top(v) && p < |v.mem| && w == Filled(Popped(v), p, data) && SameMaps(v, w)
    requires MappedSome(w, x, r, a, 1, p, flags) && r in v.roots && a < VPNS
    ensures Grown(v, x, r, a, [(flags | PTE_V, data)])
  {
    hide Lookup, FreeOk, NodesOk, BranchesOk, UsersOk, Junk;
    PoppedFrame(v);
    assert RoleMapped(w.role[p], x.role[p], p, r, a, 1, p);
    forall q | q in v.role && !v.role[q].Free?
      ensures x.role[q] == v.role[q]
    {
      assert RoleMapped(w.role[q], x.role[q], q, r, a, 1, p);
    }
    forall q | q in v.role && v.role[q].Free?
      ensures x.role[q].Free? || x.role[q].Table? || InRange(x.role[q], r, a, 1)
    {
      assert RoleMapped(w.role[q], x.role[q], q, r, a, 1, p);
    }
    assert forall q :: q in v.role.Keys <==> q in x.role.Keys;
    var want := [(flags | PTE_V, data)];
    forall k | 0 <= k < |want| ensures Got(v, x, r, a + k, want[k]) {
      assert Lookup(x.mem, r, a + 0) == Mapped(p + (a - a), flags | PTE_V);
    }
  }

  /** kalloc, fill, a mappages that fails, and kfree. */
  lemma MapFailed(v: Vm, w: Vm, x: Vm, r: nat, a: nat, p: nat, flags: bv10, data: Page)
    requires Wf(v) && |v.free| > 0 && p == Top(v) && p < |v.mem| && w == Filled(Popped(v), p, data) && SameMaps(v, w)
    requires MappedSome(w, x, r, a, 0, p, flags) && p < |x.mem| && Top(x) * PGSIZE < 0x1_0000_0000_0000_0000
    requires SameMaps(x, Pushed(x, p))
    ensures p in x.role && x.role[p] == New
    ensures Evolved(v, Pushed(x, p)) && Settled(v, Pushed(x, p), r) && SameMaps(v, Pushed(x, p))
  {
    hide Lookup, FreeOk, NodesOk, BranchesOk, UsersOk, Junk;
    PoppedFrame(v);
    var y := Pushed(x, p);
    assert RoleMapped(w.role[p], x.role[p], p, r, a, 0, p);
    assert forall q :: q in v.role.Keys <==> q in x.role.Keys;
    forall q | q in v.role && q != p ensures RoleMapped(v.role[q], y.role[q], q, r, a, 0, p) {
      assert RoleMapped(w.role[q], x.role[q], q, r, a, 0, p);
    }
    forall q | q in v.role && !v.role[q].Free?
      ensures y.role[q] == v.role[q]
    {
      assert RoleMapped(v.role[q], y.role[q], q, r, a, 0, p);
    }
    forall q | q in v.role && v.role[q].Free? ensures y.role[q].Free? || IsTable(y.role[q], r) {
      if q != p { assert RoleMapped(v.role[q], y.role[q], q, r, a, 0, p); }
    }
  }

  // ---------- uvmunmap ----------

  /** One page unmapped and, if it is to be, freed. */
  lemma UnmappedIsShrunk(v: Vm, x: Vm, r: nat, vpn: nat, free: bool)
    requires Wf(v) && HasSlot(v, r, vpn) && Lookup(v.mem, r, vpn).Mapped?
    requires free ==> Lookup(v.mem, r, vpn).page in v.role && v.role[Lookup(v.mem, r, vpn).page] == User(r, vpn)
    requires var w, q := UnmapOne(v, r, vpn), Lookup(v.mem, r, vpn).page;
             Wf(w) && OneMap(v, w, r, vpn, Unmapped) &&
             if free then
               q < |w.mem| && Top(w) * PGSIZE < 0x1_0000_0000_0000_0000 && x == Pushed(w, q) && SameMaps(w, x)
             else x == w
    ensures Shrunk(v, x, r, vpn, 1, free)
  {
    hide Lookup, NodeAt, PX, FreeOk, NodesOk, BranchesOk, LeafMem, Junk, Top;
    TableAt(v, r, PosOf(vpn, 0));
    LeafLength(v.mem, r, vpn, 0);
    forall q | q in v.role && InRange(v.role[q], r, vpn, 1) ensures q == Lookup(v.mem, r, vpn).page {
      assert v.role[q] == User(r, vpn);
    }
  }

  /** Pages given out are all different, and different from every page that was in use before. */
  lemma GotApart(v: Vm, w: Vm, r: nat, a: nat, want: seq<(bv10, Page)>, j: nat, k: nat, q: nat)
    requires Grown(v, w, r, a, want) && j < |want| && k < |want| && q in v.role && !v.role[q].Free?
    ensures Lookup(w.mem, r, a + j).Mapped? && Lookup(w.mem, r, a + k).Mapped? && Lookup(w.mem, r, a + j).page != q
    ensures j != k ==> Lookup(w.mem, r, a + j).page != Lookup(w.mem, r, a + k).page
  {
    hide Lookup;
    assert Got(v, w, r, a + j, want[j]) && Got(v, w, r, a + k, want[k]);
  }

  // ---------- freewalk ----------

  /** pos2 is strictly below pos, through an entry before the i-th. */
  predicate Below(pos2: Pos, pos: Pos, i: nat) {
    match pos
    case Root => !pos2.Root? && pos2.i2 < i
    case Mid(i2) => pos2.Low? && pos2.i2 == i2 && pos2.i1 < i
    case Low(_, _) => false
  }

  predicate Under(pos2: Pos, pos: Pos) { pos2 == pos || Below(pos2, pos, 512) }

  lemma BelowNext(pos2: Pos, pos: Pos, i: nat)
    requires Good(pos2) && i < 512
    ensures pos.Low? ==> !Below(pos2, pos, i + 1)
    ensures !pos.Low? ==> (Below(pos2, pos, i + 1) <==> Below(pos2, pos, i) || Under(pos2, ChildPos(pos, i)))
    ensures !pos.Low? ==>
              !(Below(pos2, pos, i) && Under(pos2, ChildPos(pos, i))) && (Under(pos2, ChildPos(pos, i)) ==> pos2 != pos)
  {
  }

  /** Where there is no table there is none below either. */
  lemma EmptyBelow(mem: seq<Page>, r: nat, pos: Pos, pos2: Pos)
    requires Good(pos) && Good(pos2) && !pos.Root? && NodeAt(mem, r, pos) == 0 && Under(pos2, pos)
    ensures NodeAt(mem, r, pos2) == 0
  {
  }

  /** The tables at and below pos are given up and unchanged since they were. */
  ghost predicate Doomed(v: Vm, m0: seq<Page>, where: map<nat, Pos>, pos: Pos) {
    && |v.mem| == |m0|
    && forall q ::
         q in where && Under(where[q], pos) ==> q in v.role && v.role[q] == New && q < |m0| && v.mem[q] == m0[q]
  }

  /** freewalk at work on the table at pos: what is below its first i entries is free, all else is as it was. */
  ghost predicate Freed(v: Vm, w: Vm, where: map<nat, Pos>, pos: Pos, i: nat) {
    && w.roots == v.roots && w.lo == v.lo && |w.mem| == |v.mem| && w.role.Keys == v.role.Keys && SameMaps(v, w)
    && (forall q ::
          q in v.role ==> if q in where && Below(where[q], pos, i) then w.role[q].Free? else w.role[q] == v.role[q])
    && (forall q ::
          0 <= q < |v.mem| && !(q in where && (where[q] == pos || Below(where[q], pos, i))) ==> w.mem[q] == v.mem[q])
  }

  ghost predicate AllFreed(v: Vm, w: Vm, where: map<nat, Pos>, pos: Pos) {
    && w.roots == v.roots && w.lo == v.lo && |w.mem| == |v.mem| && w.role.Keys == v.role.Keys && SameMaps(v, w)
    && (forall q ::
          q in v.role ==> if q in where && Under(where[q], pos) then w.role[q].Free? else w.role[q] == v.role[q])
    && (forall q :: 0 <= q < |v.mem| && !(q in where && Under(where[q], pos)) ==> w.mem[q] == v.mem[q])
  }

  lemma FreedNothing(v: Vm, where: map<nat, Pos>, pos: Pos)
    ensures Freed(v, v, where, pos, 0)
  {
    hide Lookup;
  }

  lemma FreedSkip(v: Vm, w: Vm, m0: seq<Page>, r: nat, where: map<nat, Pos>, p: nat, pos: Pos, i: nat)
    requires Tree(m0, r, where) && p in where && where[p] == pos && i < 512 && p < |m0| && !PageTables.Valid(m0[p][i])
    requires Freed(v, w, where, pos, i)
    ensures Freed(v, w, where, pos, i + 1)
  {
    hide NodeAt, Lookup, PageTables.Valid;
    forall q | q in where ensures Below(where[q], pos, i + 1) <==> Below(where[q], pos, i) {
      BelowNext(where[q], pos, i);
      if !pos.Low? && Under(where[q], ChildPos(pos, i)) {
        NodeAtChild(m0, r, pos, i);
        InvalidChild(m0, p, i);
        EmptyBelow(m0, r, ChildPos(pos, i), where[q]);
      }
    }
  }

  lemma ChildDoomed(v: Vm, w: Vm, m0: seq<Page>, r: nat, where: map<nat, Pos>, p: nat, pos: Pos, i: nat)
    requires Tree(m0, r, where) && Leafless(m0, where) && Doomed(v, m0, where, pos) && Freed(v, w, where, pos, i)
    requires p in where && where[p] == pos && Good(pos) && i < 512 && p < |m0| && PageTables.Valid(m0[p][i])
    ensures Flags(m0[p][i]) == PTE_V && !pos.Low?
    ensures Ppn(m0[p][i]) in where && where[Ppn(m0[p][i])] == ChildPos(pos, i) && Doomed(w, m0, where, ChildPos(pos, i))
  {
    hide NodeAt, Lookup, SameMaps;
    NodeAtChild(m0, r, pos, i);
    forall q | q in where && Under(where[q], ChildPos(pos, i))
      ensures q in w.role && w.role[q] == New && q < |m0| && w.mem[q] == m0[q]
    {
      BelowNext(where[q], pos, i);
      assert Under(where[q], pos);
      assert q in w.role.Keys;
    }
  }

  /** The child is freed and the entry that pointed to it cleared. */
  lemma FreedMore(v: Vm, w: Vm, x: Vm, y: Vm, where: map<nat, Pos>, p: nat, pos: Pos, i: nat)
    requires Freed(v, w, where, pos, i) && !pos.Low? && i < 512 && AllFreed(w, x, where, ChildPos(pos, i))
    requires p in where && where[p] == pos && p < |x.mem| && y == Filled(x, p, x.mem[p][i := 0]) && SameMaps(x, y)
    requires forall q :: q in where ==> Good(where[q])
    ensures Freed(v, y, where, pos, i + 1)
  {
    hide Lookup, Below, Under;
    forall q | q in where
      ensures Below(where[q], pos, i + 1) <==> Below(where[q], pos, i) || Under(where[q], ChildPos(pos, i))
      ensures !(Below(where[q], pos, i) && Under(where[q], ChildPos(pos, i))) {
      BelowNext(where[q], pos, i);
    }
    assert forall q :: q in v.role.Keys <==> q in w.role.Keys;
  }

  /** The table itself goes last. */
  lemma FreedLast(v: Vm, w: Vm, where: map<nat, Pos>, p: nat, pos: Pos)
    requires Wf(v) && Freed(v, w, where, pos, 512) && p in where && where[p] == pos && p < |w.mem| && p in v.role
             && v.role[p] == New
    requires forall q :: q in where && where[q] == pos ==> q == p
    requires Top(w) * PGSIZE < 0x1_0000_0000_0000_0000 && SameMaps(w, Pushed(w, p))
    ensures AllFreed(v, Pushed(w, p), where, pos)
  {
    hide Lookup, Junk, Wf, Below;
    assert forall q :: q in v.role.Keys <==> q in w.role.Keys;
    assert p in w.role.Keys;
  }

  lemma OneAt(m0: seq<Page>, r: nat, where: map<nat, Pos>, p: nat)
    requires Tree(m0, r, where) && p in where
    ensures forall q :: q in where && where[q] == where[p] ==> q == p
  {
    hide NodeAt;
  }

  // ---------- uvmfree ----------

  /** Root r is gone, and with it exactly its tables and user pages have become free. */
  ghost predicate Gone(v: Vm, w: Vm, r: nat) {
    && w.roots == v.roots - {r} && |w.mem| == |v.mem| && w.role.Keys == v.role.Keys
    && (forall q :: q in v.role ==> if Owns(v.role[q], r) then w.role[q].Free? else w.role[q] == v.role[q])
    && (forall q ::
          q in v.role && q < |v.mem| && !v.role[q].Free? && !v.role[q].Table? && !Owns(v.role[q], r) ==>
            w.mem[q] == v.mem[q])
    && (forall r2, vpn :: r2 in w.roots && 0 <= vpn < VPNS ==> Lookup(w.mem, r2, vpn) == Lookup(v.mem, r2, vpn))
  }

  predicate Owns(x: Role, r: nat) { (x.User? && x.r == r) || (x.Table? && x.r == r) }

  lemma GoneAfter(v: Vm, w: Vm, x: Vm, r: nat, n: nat)
    requires Wf(v) && r in v.roots && Shrunk(v, w, r, 0, n, true) && Wf(w)
    requires forall vpn :: n <= vpn < VPNS ==> Lookup(v.mem, r, vpn) == Unmapped
    requires AllFreed(Uprooted(w, r), x, TablesOf(w, r), Root)
    ensures Gone(v, x, r)
  {
    hide Lookup, NodeAt, FreeOk, NodesOk, BranchesOk;
    var u := Uprooted(w, r);
    assert forall q :: q in v.role.Keys <==> q in w.role.Keys;
    assert u.role.Keys == w.role.Keys;
    GoneRoles(v, w, x, r, n);
    forall q | q in v.role && q < |v.mem| && !v.role[q].Free? && !v.role[q].Table? && !Owns(v.role[q], r)
      ensures x.mem[q] == v.mem[q]
    {
      assert w.role[q] == v.role[q];
      assert q !in TablesOf(w, r);
    }
    forall r2, vpn | r2 in x.roots && 0 <= vpn < VPNS ensures Lookup(x.mem, r2, vpn) == Lookup(v.mem, r2, vpn) {
      assert Lookup(x.mem, r2, vpn) == Lookup(u.mem, r2, vpn);
      assert Lookup(w.mem, r2, vpn) == Lookup(v.mem, r2, vpn);
    }
  }

  lemma GoneRoles(v: Vm, w: Vm, x: Vm, r: nat, n: nat)
    requires Wf(v) && r in v.roots && Shrunk(v, w, r, 0, n, true) && Wf(w)
    requires forall vpn :: n <= vpn < VPNS ==> Lookup(v.mem, r, vpn) == Unmapped
    requires AllFreed(Uprooted(w, r), x, TablesOf(w, r), Root)
    ensures forall q :: q in v.role ==>
              q in x.role && if Owns(v.role[q], r) then x.role[q].Free? else x.role[q] == v.role[q]
  {
    hide Lookup, NodeAt, FreeOk, NodesOk, BranchesOk;
    assert forall q :: q in v.role.Keys <==> q in w.role.Keys;
    assert Uprooted(w, r).role.Keys == w.role.Keys;
    forall q | q in v.role && v.role[q].User? && v.role[q].r == r ensures InRange(v.role[q], r, 0, n) {
      assert Lookup(v.mem, r, v.role[q].vpn).Mapped?;
    }
    forall q | q in v.role ensures if Owns(v.role[q], r) then x.role[q].Free? else x.role[q] == v.role[q] {
      assert Under(Root, Root);
      if q in TablesOf(w, r) { TableGood(w, q); UnderRoot(w.role[q].pos); }
    }
  }

  lemma TableGood(v: Vm, q: nat)
    requires Wf(v) && q in v.role && v.role[q].Table?
    ensures Good(v.role[q].pos)
  {
    hide NodeAt;
  }

  lemma UnderRoot(pos: Pos)
    ensures Good(pos) ==> Under(pos, Root)
  {
  }
}
