/**
  Sv39 page tables in physical memory (kernel/vm.c, kernel/riscv.h) and who owns each physical page
  (kernel/kalloc.c). A page is named by its number; its address is the number times 4096.
 */
module PageTables {
  type word = x: int | 0 <= x < 0x1_0000_0000_0000_0000
  type Page = s: seq<word> | |s| == 512 witness seq(512, _ => 0)

  const PGSIZE: nat := 4096
  const VPNS: nat := 0x800_0000          // 512 * 512 * 512 virtual pages
  const MAXVPN: nat := 0x400_0000        // MAXVA / PGSIZE
  const MAXPPN: nat := 0x1000_0000_0000  // 44 bits of page number in a PTE

  const PTE_V: bv10 := 1
  const PTE_R: bv10 := 2
  const PTE_W: bv10 := 4
  const PTE_X: bv10 := 8
  const PTE_U: bv10 := 16

  function ZeroPage(): Page { seq(512, _ => 0) }

  // ---------- page table entries ----------

  function PA2PTE(pa: nat): nat { pa / 4096 * 1024 }

  function PTE2PA(pte: nat): nat { pte / 1024 * 4096 }

  function Flags(w: word): bv10 { (w % 1024) as bv10 }

  function Ppn(w: word): nat { w / 1024 }

  predicate Valid(w: word) { Flags(w) & PTE_V != 0 }

  function MakePte(p: nat, flags: bv10): word
    requires p < MAXPPN
  {
    p * 1024 + (flags as int)
  }

  lemma FlagsBack(flags: bv10)
    ensures (flags as int) as bv10 == flags && 0 <= flags as int < 1024
  {
  }

  lemma FieldsApart(p: nat, f: nat)
    requires f < 1024
    ensures (p * 1024 + f) / 1024 == p && (p * 1024 + f) % 1024 == f
  {
  }

  lemma PteParts(p: nat, flags: bv10)
    requires p < MAXPPN
    ensures Ppn(MakePte(p, flags)) == p && Flags(MakePte(p, flags)) == flags
  {
    FlagsBack(flags);
    FieldsApart(p, flags as int);
    SameNumber(MakePte(p, flags) % 1024, flags as int);
  }

  lemma SameNumber(a: nat, b: nat)
    requires a == b < 1024
    ensures a as bv10 == b as bv10
  {
  }

  /** PTE2PA inverts PA2PTE whatever the flags, and the flags come back as well. */
  lemma PteRoundTrip(pa: nat, flags: bv10)
    requires pa % PGSIZE == 0 && pa / PGSIZE < MAXPPN
    ensures var w := MakePte(pa / PGSIZE, flags);
            w == PA2PTE(pa) + (flags as int) && PTE2PA(w) == pa && Flags(w) == flags
  {
    PteParts(pa / PGSIZE, flags);
  }

  lemma ZeroInvalid()
    ensures !Valid(0)
  {
  }

  lemma ValidWithV(p: nat, flags: bv10)
    requires p < MAXPPN
    ensures Valid(MakePte(p, flags | PTE_V)) && Flags(MakePte(p, flags | PTE_V)) == flags | PTE_V
    ensures flags & PTE_V != 0 ==> flags | PTE_V == flags
  {
    PteParts(p, flags | PTE_V);
    BitOn(flags);
  }

  lemma BitOn(flags: bv10)
    ensures (flags | PTE_V) & PTE_V != 0 && (flags & PTE_V != 0 ==> flags | PTE_V == flags)
  {
  }

  // ---------- the three levels ----------

  /** A table of the tree: the root, one per used level-2 entry, one per used level-1 entry. */
  datatype Pos = Root | Mid(i2: nat) | Low(i2: nat, i1: nat)

  predicate Good(pos: Pos) {
    match pos
    case Root => true
    case Mid(i2) => i2 < 512
    case Low(i2, i1) => i2 < 512 && i1 < 512
  }

  /** The page entry i of page p points to; 0 if none. */
  function Child(mem: seq<Page>, p: nat, i: nat): nat
    requires i < 512
  {
    if p == 0 || p >= |mem| || !Valid(mem[p][i]) then 0 else Ppn(mem[p][i])
  }

  /** The page of the table at a position below root r; 0 if there is none. */
  function NodeAt(mem: seq<Page>, r: nat, pos: Pos): nat
    requires Good(pos)
  {
    match pos
    case Root => r
    case Mid(i2) => Child(mem, r, i2)
    case Low(i2, i1) => Child(mem, Child(mem, r, i2), i1)
  }

  function PX(level: nat, vpn: nat): (i: nat)
    requires level <= 2
    ensures i < 512
  {
    if level == 0 then vpn % 512 else if level == 1 then vpn / 512 % 512 else vpn / 0x4_0000 % 512
  }

  /** The table whose entries a walk reaches when it is at the given level. */
  function PosOf(vpn: nat, level: nat): (pos: Pos)
    requires level <= 2
    ensures Good(pos)
  {
    if level == 2 then Root else if level == 1 then Mid(PX(2, vpn)) else Low(PX(2, vpn), PX(1, vpn))
  }

  /** The leaf entry of a virtual page, 0 if the tables do not reach it. */
  function PteOf(mem: seq<Page>, r: nat, vpn: nat): word {
    var p := NodeAt(mem, r, PosOf(vpn, 0));
    if p == 0 || p >= |mem| then 0 else mem[p][PX(0, vpn)]
  }

  /** The three loads of a translation: nine bits of the page number each, the highest first. */
  lemma ThreeLoads(mem: seq<Page>, r: nat, vpn: nat)
    requires 0 < r < |mem| && vpn < VPNS
    ensures vpn / 0x4_0000 < 512
    ensures var e2 := mem[r][vpn / 0x4_0000]; var p1 := e2 / 1024;
            Valid(e2) && 0 < p1 < |mem| ==>
              var e1 := mem[p1][vpn / 512 % 512]; var p0 := e1 / 1024;
              Valid(e1) && 0 < p0 < |mem| ==> PteOf(mem, r, vpn) == mem[p0][vpn % 512]
    ensures !Valid(mem[r][vpn / 0x4_0000]) ==> PteOf(mem, r, vpn) == 0
  {
    hide Valid;
    assert PosOf(vpn, 0) == Low(vpn / 0x4_0000, vpn / 512 % 512);
  }

  datatype Mapping = Unmapped | Mapped(page: nat, flags: bv10)

  /** The abstract page map: what a root's tables say about a virtual page. */
  function Lookup(mem: seq<Page>, r: nat, vpn: nat): Mapping {
    var w := PteOf(mem, r, vpn);
    if Valid(w) then Mapped(Ppn(w), Flags(w)) else Unmapped
  }

  /** The three indices determine the virtual page. */
  lemma VpnSplit(vpn: nat, other: nat)
    requires vpn < VPNS && other < VPNS
    requires PX(2, vpn) == PX(2, other) && PX(1, vpn) == PX(1, other) && PX(0, vpn) == PX(0, other)
    ensures vpn == other
  {
    var a, b := vpn / 512, other / 512;
    assert vpn == 512 * a + vpn % 512 && other == 512 * b + other % 512;
    assert a == 512 * (a / 512) + a % 512 && b == 512 * (b / 512) + b % 512;
    assert vpn / 0x4_0000 == a / 512 && other / 0x4_0000 == b / 512;
    assert a / 512 == b / 512;
    assert a == b;
  }

  function VpnOf(i2: nat, i1: nat, i0: nat): nat { (i2 * 512 + i1) * 512 + i0 }

  lemma VpnJoin(i2: nat, i1: nat, i0: nat)
    requires i2 < 512 && i1 < 512 && i0 < 512
    ensures VpnOf(i2, i1, i0) < VPNS && PosOf(VpnOf(i2, i1, i0), 0) == Low(i2, i1) && PX(0, VpnOf(i2, i1, i0)) == i0
  {
    var v := VpnOf(i2, i1, i0);
    assert v / 512 == i2 * 512 + i1 && v % 512 == i0;
    assert v / 512 / 512 == i2 && v / 512 % 512 == i1;
    assert v / 0x4_0000 == v / 512 / 512;
  }

  // ---------- who has each page ----------

  /**
    Unused pages are on the free list, New ones just came from kalloc, Kernel ones may be mapped but belong to no
    user.
   */
  datatype Role = Free(k: nat) | New | Kernel | Table(r: nat, pos: Pos) | User(r: nat, vpn: nat)

  /** free lists the free pages, the head of the list last. */
  datatype Vm = Vm(mem: seq<Page>, lo: nat, free: seq<nat>, role: map<nat, Role>, roots: set<nat>)

  ghost predicate Shape(v: Vm) {
    && 0 < v.lo <= |v.mem| <= MAXPPN
    && (forall p :: p in v.role <==> v.lo <= p < |v.mem|)
  }

  /** What the first word of the k-th free page holds: the address of the next one. */
  function Link(free: seq<nat>, k: nat): nat
    requires k <= |free|
  {
    if k == 0 then 0 else free[k - 1] * PGSIZE
  }

  ghost predicate FreeOk(v: Vm)
    requires Shape(v)
  {
    && (forall k :: 0 <= k < |v.free| ==> v.free[k] in v.role && v.role[v.free[k]] == Free(k))
    && (forall p :: p in v.role && v.role[p].Free? ==> v.role[p].k < |v.free| && v.free[v.role[p].k] == p)
    && (forall k :: 0 <= k < |v.free| ==> Linked(v, k))
  }

  predicate Linked(v: Vm, k: nat)
    requires k < |v.free|
  {
    v.free[k] < |v.mem| && v.mem[v.free[k]][0] == Link(v.free, k)
  }

  ghost predicate NodesOk(v: Vm)
    requires Shape(v)
  {
    && (forall r, pos :: r in v.roots && Good(pos) && NodeAt(v.mem, r, pos) != 0 ==>
         NodeAt(v.mem, r, pos) in v.role && v.role[NodeAt(v.mem, r, pos)] == Table(r, pos))
    && (forall p :: p in v.role && v.role[p].Table? ==>
         v.role[p].r in v.roots && Good(v.role[p].pos) && NodeAt(v.mem, v.role[p].r, v.role[p].pos) == p)
    && 0 !in v.roots
  }

  /** Valid entries above the lowest level have only the valid bit and point somewhere. */
  ghost predicate BranchesOk(v: Vm)
    requires Shape(v)
  {
    forall p, i :: p in v.role && v.role[p].Table? && !v.role[p].pos.Low? && 0 <= i < 512 && Valid(v.mem[p][i]) ==>
      Flags(v.mem[p][i]) == PTE_V && Ppn(v.mem[p][i]) != 0
  }

  /**
    A user page is mapped where its owner has it and nowhere else; free and new pages and tables are mapped nowhere.
   */
  ghost predicate UsersOk(v: Vm)
    requires Shape(v)
  {
    && (forall p :: p in v.role && v.role[p].User? ==>
         v.role[p].r in v.roots && v.role[p].vpn < VPNS && Lookup(v.mem, v.role[p].r, v.role[p].vpn).Mapped?
         && Lookup(v.mem, v.role[p].r, v.role[p].vpn).page == p)
    && (forall r, vpn ::
         r in v.roots && 0 <= vpn < VPNS && Lookup(v.mem, r, vpn).Mapped? && Lookup(v.mem, r, vpn).page in v.role ==>
         v.role[Lookup(v.mem, r, vpn).page] == User(r, vpn) || v.role[Lookup(v.mem, r, vpn).page] == Kernel)
  }

  ghost predicate Wf(v: Vm) {
    Shape(v) && FreeOk(v) && NodesOk(v) && BranchesOk(v) && UsersOk(v)
  }

  /** Two virtual pages, of one address space or of two, never share a leaf entry. */
  lemma SlotsDistinct(v: Vm, r: nat, vpn: nat, r2: nat, vpn2: nat)
    requires Wf(v) && r in v.roots && r2 in v.roots && vpn < VPNS && vpn2 < VPNS
    requires NodeAt(v.mem, r, PosOf(vpn, 0)) == NodeAt(v.mem, r2, PosOf(vpn2, 0)) != 0 && PX(0, vpn) == PX(0, vpn2)
    ensures r == r2 && vpn == vpn2
  {
    hide NodeAt, PX, FreeOk, BranchesOk, UsersOk;
    VpnSplit(vpn, vpn2);
  }

  /** The free list has no page twice, and none that is a table or a user's page. */
  lemma FreeApart(v: Vm, j: nat, k: nat, r: nat, pos: Pos, vpn: nat)
    requires Wf(v) && j < k < |v.free| && r in v.roots && Good(pos) && vpn < VPNS
    ensures v.free[j] != v.free[k] && v.free[k] != NodeAt(v.mem, r, pos)
            && (Lookup(v.mem, r, vpn).Mapped? ==> v.free[k] != Lookup(v.mem, r, vpn).page)
  {
    hide NodeAt, Lookup, BranchesOk;
    assert v.role[v.free[j]] == Free(j) && v.role[v.free[k]] == Free(k);
  }

  // ---------- frames ----------

  ghost predicate SameTables(v: Vm, w: Vm) {
    && w.roots == v.roots && w.lo == v.lo && |w.mem| == |v.mem|
    && (forall r, pos :: r in v.roots && Good(pos) ==> NodeAt(w.mem, r, pos) == NodeAt(v.mem, r, pos))
  }

  ghost predicate SameMaps(v: Vm, w: Vm) {
    && w.roots == v.roots
    && (forall r, vpn :: r in v.roots && 0 <= vpn < VPNS ==> Lookup(w.mem, r, vpn) == Lookup(v.mem, r, vpn))
  }

  /** Pages that are not tables do not take part in any walk. */
  lemma NodeFrame(v: Vm, mem: seq<Page>, r: nat, pos: Pos)
    requires Shape(v) && NodesOk(v) && |mem| == |v.mem| && r in v.roots && Good(pos)
    requires forall p :: p in v.role && v.role[p].Table? ==> mem[p] == v.mem[p]
    ensures NodeAt(mem, r, pos) == NodeAt(v.mem, r, pos)
  {
    assert NodeAt(v.mem, r, Root) == r;
    match pos
    case Root =>
    case Mid(i2) =>
    case Low(i2, i1) =>
      assert NodeAt(v.mem, r, Mid(i2)) == Child(v.mem, r, i2);
  }

  lemma PteFrame(v: Vm, mem: seq<Page>, r: nat, vpn: nat)
    requires Shape(v) && NodesOk(v) && |mem| == |v.mem| && r in v.roots && vpn < VPNS
    requires forall p :: p in v.role && v.role[p].Table? ==> mem[p] == v.mem[p]
    ensures PteOf(mem, r, vpn) == PteOf(v.mem, r, vpn)
  {
    hide NodeAt, PX;
    NodeFrame(v, mem, r, PosOf(vpn, 0));
  }

  lemma NonTableWritten(v: Vm, w: Vm)
    requires Shape(v) && NodesOk(v) && |w.mem| == |v.mem| && w.roots == v.roots && w.lo == v.lo
    requires forall p :: p in v.role && v.role[p].Table? ==> w.mem[p] == v.mem[p]
    ensures SameTables(v, w) && SameMaps(v, w)
  {
    hide NodeAt, PteOf;
    forall r, pos | r in v.roots && Good(pos)
      ensures NodeAt(w.mem, r, pos) == NodeAt(v.mem, r, pos)
    {
      NodeFrame(v, w.mem, r, pos);
    }
    forall r, vpn | r in v.roots && 0 <= vpn < VPNS
      ensures Lookup(w.mem, r, vpn) == Lookup(v.mem, r, vpn)
    {
      PteFrame(v, w.mem, r, vpn);
    }
  }
}
