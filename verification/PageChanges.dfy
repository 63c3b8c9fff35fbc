/**
  The steps in which kalloc.c and vm.c change physical memory, and what each keeps.
 */
module PageChanges {
  import opened PageTables

  // ---------- kalloc and kfree ----------

  function JunkWord(b: nat): word
    requires b < 256
  {
    b * 0x0101_0101_0101_0101
  }

  function Junk(b: nat): Page
    requires b < 256
  {
    seq(512, _ => JunkWord(b))
  }

  function Top(v: Vm): nat { if |v.free| == 0 then 0 else v.free[|v.free| - 1] }

  ghost function Popped(v: Vm): Vm
    requires |v.free| > 0 && Top(v) < |v.mem|
  {
    Vm(v.mem[Top(v) := Junk(5)], v.lo, v.free[..|v.free| - 1], v.role[Top(v) := New], v.roots)
  }

  ghost function Pushed(v: Vm, p: nat): Vm
    requires p < |v.mem| && Top(v) * PGSIZE < 0x1_0000_0000_0000_0000
  {
    Vm(v.mem[p := Junk(1)[0 := Top(v) * PGSIZE]], v.lo, v.free + [p], v.role[p := Free(|v.free|)], v.roots)
  }

  ghost function Filled(v: Vm, p: nat, data: Page): Vm
    requires p < |v.mem|
  {
    Vm(v.mem[p := data], v.lo, v.free, v.role, v.roots)
  }

  lemma UsersKept(v: Vm, w: Vm)
    requires Wf(v) && Shape(w) && SameMaps(v, w) && w.lo == v.lo && |w.mem| == |v.mem|
    requires forall p ::
               p in v.role && (v.role[p].User? || w.role[p].User? || v.role[p] == Kernel) ==> w.role[p] == v.role[p]
    ensures UsersOk(w)
  {
    hide Lookup, FreeOk, NodesOk, BranchesOk;
    forall p | p in w.role && w.role[p].User?
      ensures w.role[p].r in w.roots && w.role[p].vpn < VPNS && Lookup(w.mem, w.role[p].r, w.role[p].vpn).Mapped?
              && Lookup(w.mem, w.role[p].r, w.role[p].vpn).page == p {
      assert v.role[p] == w.role[p];
    }
  }

  lemma NodesKept(v: Vm, w: Vm)
    requires Wf(v) && Shape(w) && SameTables(v, w)
    requires forall p ::
               p in v.role && (v.role[p].Table? || w.role[p].Table?) ==> w.role[p] == v.role[p] && w.mem[p] == v.mem[p]
    ensures NodesOk(w) && BranchesOk(w)
  {
    hide NodeAt, FreeOk, UsersOk;
  }

  lemma PoppedKeeps(v: Vm)
    requires Wf(v) && |v.free| > 0
    ensures Top(v) in v.role && v.role[Top(v)].Free? && v.lo <= Top(v) < |v.mem|
    ensures Wf(Popped(v)) && SameTables(v, Popped(v)) && SameMaps(v, Popped(v))
  {
    hide NodesOk, BranchesOk, UsersOk, SameTables, SameMaps;
    var w := Popped(v);
    NonTableWritten(v, w);
    UsersKept(v, w);
    NodesKept(v, w);
    forall k | 0 <= k < |w.free| ensures Linked(w, k) { assert Linked(v, k) && v.role[v.free[k]] == Free(k); }
  }

  lemma TopBound(v: Vm)
    requires Shape(v) && FreeOk(v)
    ensures Top(v) * PGSIZE < 0x1_0000_0000_0000_0000 && (|v.free| > 0 ==> Top(v) in v.role)
  {
  }

  lemma PushedKeeps(v: Vm, p: nat)
    requires Wf(v) && p in v.role && v.role[p] == New
    ensures p < |v.mem| && Top(v) * PGSIZE < 0x1_0000_0000_0000_0000
    ensures Wf(Pushed(v, p)) && SameTables(v, Pushed(v, p)) && SameMaps(v, Pushed(v, p))
  {
    hide NodesOk, BranchesOk, UsersOk, SameTables, SameMaps, Junk;
    TopBound(v);
    var w := Pushed(v, p);
    NonTableWritten(v, w);
    UsersKept(v, w);
    NodesKept(v, w);
    forall k | 0 <= k < |w.free| ensures Linked(w, k) {
      if k < |v.free| { assert Linked(v, k) && v.role[v.free[k]] == Free(k); }
    }
  }

  /** A page that is neither a table nor free may be written. */
  lemma FilledKeeps(v: Vm, p: nat, data: Page)
    requires Wf(v) && p in v.role && (v.role[p] == New || v.role[p] == Kernel || v.role[p].User?)
    ensures p < |v.mem| && Wf(Filled(v, p, data)) && SameTables(v, Filled(v, p, data))
            && SameMaps(v, Filled(v, p, data))
  {
    hide NodesOk, BranchesOk, UsersOk, SameTables, SameMaps;
    var w := Filled(v, p, data);
    NonTableWritten(v, w);
    UsersKept(v, w);
    NodesKept(v, w);
    forall k | 0 <= k < |w.free| ensures Linked(w, k) { assert Linked(v, k) && v.role[v.free[k]] == Free(k); }
  }

  // ---------- walk: a new table ----------

  function ChildPos(pos: Pos, i: nat): Pos
    requires !pos.Low?
  {
    if pos.Root? then Mid(i) else Low(pos.i2, i)
  }

  function SetEntry(mem: seq<Page>, p: nat, i: nat, w: word): seq<Page>
    requires p < |mem| && i < 512
  {
    mem[p := mem[p][i := w]]
  }

  function Grafted(v: Vm, r: nat, pos: Pos, i: nat, q: nat): Vm
    requires Good(pos) && !pos.Low? && i < 512 && NodeAt(v.mem, r, pos) < |v.mem| && q < MAXPPN
  {
    Vm(SetEntry(v.mem, NodeAt(v.mem, r, pos), i, MakePte(q, PTE_V)), v.lo, v.free,
        v.role[q := Table(r, ChildPos(pos, i))], v.roots)
  }

  ghost predicate CanGraft(v: Vm, r: nat, pos: Pos, i: nat, q: nat) {
    && Wf(v) && r in v.roots && Good(pos) && !pos.Low? && i < 512 && q in v.role && v.role[q] == New
       && v.mem[q] == ZeroPage()
    && NodeAt(v.mem, r, pos) != 0 && NodeAt(v.mem, r, pos) < |v.mem| && !Valid(v.mem[NodeAt(v.mem, r, pos)][i])
  }

  lemma TableAt(v: Vm, r: nat, pos: Pos)
    requires Shape(v) && NodesOk(v) && r in v.roots && Good(pos) && NodeAt(v.mem, r, pos) != 0
    ensures NodeAt(v.mem, r, pos) in v.role && v.role[NodeAt(v.mem, r, pos)] == Table(r, pos)
            && v.lo <= NodeAt(v.mem, r, pos) < |v.mem|
  {
    hide NodeAt;
  }

  /** Children of a page that holds zeros, and of pages other than the changed one. */
  lemma ChildAfter(mem: seq<Page>, p: nat, i: nat, q: nat, x: nat, j: nat)
    requires 0 < p < |mem| && i < 512 && j < 512 && q < MAXPPN
    ensures Child(SetEntry(mem, p, i, MakePte(q, PTE_V)), x, j) == if (x, j) == (p, i) then q else Child(mem, x, j)
  {
    PteParts(q, PTE_V);
  }

  lemma NoChild(mem: seq<Page>, q: nat, j: nat)
    requires q < |mem| && mem[q] == ZeroPage() && j < 512
    ensures Child(mem, q, j) == 0
  {
    ZeroInvalid();
  }

  lemma NodeAtChild(mem: seq<Page>, r: nat, pos: Pos, i: nat)
    requires Good(pos) && !pos.Low? && i < 512
    ensures NodeAt(mem, r, ChildPos(pos, i)) == Child(mem, NodeAt(mem, r, pos), i)
  {
  }

  function Parent(pos: Pos): Pos
    requires !pos.Root?
  {
    if pos.Mid? then Root else Mid(pos.i2)
  }

  function Index(pos: Pos): nat
    requires !pos.Root?
  {
    if pos.Mid? then pos.i2 else pos.i1
  }

  lemma NodeAtParent(mem: seq<Page>, r: nat, pos: Pos)
    requires Good(pos) && !pos.Root?
    ensures Good(Parent(pos)) && Index(pos) < 512 && ChildPos(Parent(pos), Index(pos)) == pos
    ensures NodeAt(mem, r, pos) == Child(mem, NodeAt(mem, r, Parent(pos)), Index(pos))
  {
  }

  /** Only the new table's position has changed. */
  lemma GraftNode(v: Vm, r: nat, pos: Pos, i: nat, q: nat, r2: nat, pos2: Pos)
    requires CanGraft(v, r, pos, i, q) && r2 in v.roots && Good(pos2)
    ensures NodeAt(Grafted(v, r, pos, i, q).mem, r2, pos2) ==
              if (r2, pos2) == (r, ChildPos(pos, i)) then q else NodeAt(v.mem, r2, pos2)
    decreases if pos2.Root? then 0 else if pos2.Mid? then 1 else 2
  {
    hide Child, FreeOk, BranchesOk, UsersOk, MakePte, Valid;
    var p := NodeAt(v.mem, r, pos);
    var w := Grafted(v, r, pos, i, q);
    TableAt(v, r, pos);
    if !pos2.Root? {
      NodeAtParent(v.mem, r2, pos2);
      NodeAtParent(w.mem, r2, pos2);
      GraftNode(v, r, pos, i, q, r2, Parent(pos2));
      var x := NodeAt(v.mem, r2, Parent(pos2));
      var y := NodeAt(w.mem, r2, Parent(pos2));
      ChildAfter(v.mem, p, i, q, y, Index(pos2));
      if y == q && (r2, Parent(pos2)) == (r, ChildPos(pos, i)) {
        NoChild(v.mem, q, Index(pos2));
        NodeAtChild(v.mem, r, pos, i);
        InvalidChild(v.mem, p, i);
        GraftGap(v, r2, pos2);
      } else if y == p {
        TableAt(v, r2, Parent(pos2));
      }
    }
  }

  lemma InvalidChild(mem: seq<Page>, p: nat, i: nat)
    requires i < 512 && p < |mem| && !Valid(mem[p][i])
    ensures Child(mem, p, i) == 0
  {
  }

  lemma GraftGap(v: Vm, r: nat, pos: Pos)
    requires Good(pos) && !pos.Root? && NodeAt(v.mem, r, Parent(pos)) == 0
    ensures NodeAt(v.mem, r, pos) == 0
  {
  }

  lemma GraftLookup(v: Vm, r: nat, pos: Pos, i: nat, q: nat, r2: nat, vpn: nat)
    requires CanGraft(v, r, pos, i, q) && r2 in v.roots && vpn < VPNS
    ensures Lookup(Grafted(v, r, pos, i, q).mem, r2, vpn) == Lookup(v.mem, r2, vpn)
  {
    hide NodeAt, Valid, FreeOk, BranchesOk, UsersOk, MakePte;
    var w := Grafted(v, r, pos, i, q);
    var low := PosOf(vpn, 0);
    GraftNode(v, r, pos, i, q, r2, low);
    TableAt(v, r, pos);
    ZeroInvalid();
    if (r2, low) == (r, ChildPos(pos, i)) {
      NodeAtChild(v.mem, r, pos, i);
      InvalidChild(v.mem, NodeAt(v.mem, r, pos), i);
      assert w.mem[q] == ZeroPage();
      assert PteOf(w.mem, r2, vpn) == ZeroPage()[PX(0, vpn)] == 0;
      assert PteOf(v.mem, r2, vpn) == 0;
    } else if NodeAt(v.mem, r2, low) != 0 {
      TableAt(v, r2, low);
    }
  }

  lemma GraftKeeps(v: Vm, r: nat, pos: Pos, i: nat, q: nat)
    requires CanGraft(v, r, pos, i, q)
    ensures var w := Grafted(v, r, pos, i, q);
            Wf(w) && SameMaps(v, w) && NodeAt(w.mem, r, ChildPos(pos, i)) == q
            && forall r2, pos2 ::
                 r2 in v.roots && Good(pos2) && NodeAt(v.mem, r2, pos2) != 0 ==>
                   NodeAt(w.mem, r2, pos2) == NodeAt(v.mem, r2, pos2)
  {
    hide NodeAt, Lookup, Valid, MakePte;
    var w := Grafted(v, r, pos, i, q);
    TableAt(v, r, pos);
    NodeAtChild(v.mem, r, pos, i);
    InvalidChild(v.mem, NodeAt(v.mem, r, pos), i);
    forall r2, pos2 | r2 in v.roots && Good(pos2)
      ensures NodeAt(w.mem, r2, pos2) == if (r2, pos2) == (r, ChildPos(pos, i)) then q else NodeAt(v.mem, r2, pos2) {
      GraftNode(v, r, pos, i, q, r2, pos2);
    }
    forall r2, vpn | r2 in v.roots && 0 <= vpn < VPNS ensures Lookup(w.mem, r2, vpn) == Lookup(v.mem, r2, vpn) {
      GraftLookup(v, r, pos, i, q, r2, vpn);
    }
    UsersKept(v, w);
    GraftBranches(v, r, pos, i, q);
    forall k | 0 <= k < |w.free| ensures Linked(w, k) { assert Linked(v, k) && v.role[v.free[k]] == Free(k); }
  }

  lemma GraftBranches(v: Vm, r: nat, pos: Pos, i: nat, q: nat)
    requires CanGraft(v, r, pos, i, q)
    ensures Shape(Grafted(v, r, pos, i, q)) && BranchesOk(Grafted(v, r, pos, i, q))
  {
    hide NodeAt, FreeOk, NodesOk, UsersOk, MakePte;
    PteParts(q, PTE_V);
    ZeroInvalid();
  }

  // ---------- leaf entries ----------

  function LeafMem(mem: seq<Page>, r: nat, vpn: nat, w: word): seq<Page>
    requires NodeAt(mem, r, PosOf(vpn, 0)) < |mem|
  {
    SetEntry(mem, NodeAt(mem, r, PosOf(vpn, 0)), PX(0, vpn), w)
  }

  ghost predicate HasSlot(v: Vm, r: nat, vpn: nat) {
    && r in v.roots && vpn < VPNS && NodeAt(v.mem, r, PosOf(vpn, 0)) != 0 && NodeAt(v.mem, r, PosOf(vpn, 0)) < |v.mem|
  }

  lemma LeafNode(v: Vm, r: nat, vpn: nat, w: word, r2: nat, pos2: Pos)
    requires Shape(v) && NodesOk(v) && HasSlot(v, r, vpn) && r2 in v.roots && Good(pos2)
    ensures NodeAt(LeafMem(v.mem, r, vpn, w), r2, pos2) == NodeAt(v.mem, r2, pos2)
    decreases if pos2.Root? then 0 else if pos2.Mid? then 1 else 2
  {
    hide PX;
    var mem := LeafMem(v.mem, r, vpn, w);
    TableAt(v, r, PosOf(vpn, 0));
    if !pos2.Root? {
      NodeAtParent(v.mem, r2, pos2);
      NodeAtParent(mem, r2, pos2);
      LeafNode(v, r, vpn, w, r2, Parent(pos2));
      if NodeAt(v.mem, r2, Parent(pos2)) != 0 { TableAt(v, r2, Parent(pos2)); }
    }
  }

  lemma LeafPte(v: Vm, r: nat, vpn: nat, w: word, r2: nat, vpn2: nat)
    requires Shape(v) && NodesOk(v) && HasSlot(v, r, vpn) && r2 in v.roots && vpn2 < VPNS
    ensures PteOf(LeafMem(v.mem, r, vpn, w), r2, vpn2) == if (r2, vpn2) == (r, vpn) then w else PteOf(v.mem, r2, vpn2)
  {
    hide NodeAt, PX;
    LeafNode(v, r, vpn, w, r2, PosOf(vpn2, 0));
    TableAt(v, r, PosOf(vpn, 0));
    var p := NodeAt(v.mem, r2, PosOf(vpn2, 0));
    if p == NodeAt(v.mem, r, PosOf(vpn, 0)) && PX(0, vpn2) == PX(0, vpn) {
      TableAt(v, r2, PosOf(vpn2, 0));
      VpnSplit(vpn, vpn2);
    }
  }

  /** The map of one virtual page has changed, and no other. */
  ghost predicate OneMap(v: Vm, w: Vm, r: nat, vpn: nat, m: Mapping) {
    && w.roots == v.roots && Lookup(w.mem, r, vpn) == m
    && (forall r2, vpn2 ::
          r2 in v.roots && 0 <= vpn2 < VPNS && (r2, vpn2) != (r, vpn) ==>
            Lookup(w.mem, r2, vpn2) == Lookup(v.mem, r2, vpn2))
  }

  function MappingOf(w: word): Mapping { if Valid(w) then Mapped(Ppn(w), Flags(w)) else Unmapped }

  lemma LeafWritten(v: Vm, w: Vm, r: nat, vpn: nat, e: word)
    requires Shape(v) && NodesOk(v) && HasSlot(v, r, vpn) && w.roots == v.roots && w.lo == v.lo
             && w.mem == LeafMem(v.mem, r, vpn, e)
    ensures SameTables(v, w) && OneMap(v, w, r, vpn, MappingOf(e))
  {
    hide NodeAt, PX, PteOf, Valid, LeafMem;
    forall r2, pos | r2 in v.roots && Good(pos)
      ensures NodeAt(w.mem, r2, pos) == NodeAt(v.mem, r2, pos)
    {
      LeafNode(v, r, vpn, e, r2, pos);
    }
    LeafPte(v, r, vpn, e, r, vpn);
    forall r2, vpn2 | r2 in v.roots && 0 <= vpn2 < VPNS && (r2, vpn2) != (r, vpn)
      ensures Lookup(w.mem, r2, vpn2) == Lookup(v.mem, r2, vpn2)
    {
      LeafPte(v, r, vpn, e, r2, vpn2);
    }
    assert |w.mem| == |v.mem| by { LeafLength(v.mem, r, vpn, e); }
  }

  lemma LeafLength(mem: seq<Page>, r: nat, vpn: nat, e: word)
    requires NodeAt(mem, r, PosOf(vpn, 0)) < |mem|
    ensures |LeafMem(mem, r, vpn, e)| == |mem|
    ensures forall p :: 0 <= p < |mem| && p != NodeAt(mem, r, PosOf(vpn, 0)) ==> LeafMem(mem, r, vpn, e)[p] == mem[p]
  {
  }

  /**
    mappages on one page: a New page becomes the user's; any other page mapped must be the kernel's or not be memory.
   */
  function MapOne(v: Vm, r: nat, vpn: nat, p: nat, flags: bv10): Vm
    requires NodeAt(v.mem, r, PosOf(vpn, 0)) < |v.mem| && p < MAXPPN
  {
    Vm(LeafMem(v.mem, r, vpn, MakePte(p, flags | PTE_V)), v.lo, v.free,
       if p in v.role && v.role[p] == New then v.role[p := User(r, vpn)] else v.role, v.roots)
  }

  /** uvmunmap on one page: the page, if it was the user's, is in the kernel's hands again. */
  function UnmapOne(v: Vm, r: nat, vpn: nat): Vm
    requires NodeAt(v.mem, r, PosOf(vpn, 0)) < |v.mem|
  {
    var m := Lookup(v.mem, r, vpn);
    Vm(LeafMem(v.mem, r, vpn, 0), v.lo, v.free,
       if m.Mapped? && m.page in v.role && v.role[m.page] == User(r, vpn) then v.role[m.page := New]
       else v.role, v.roots)
  }

  lemma LeafKeeps(v: Vm, w: Vm, r: nat, vpn: nat, e: word)
    requires Wf(v) && HasSlot(v, r, vpn) && w.roots == v.roots && w.lo == v.lo && w.mem == LeafMem(v.mem, r, vpn, e)
             && w.free == v.free
    requires w.role.Keys == v.role.Keys
    requires forall p ::
               p in v.role && (v.role[p].Table? || w.role[p].Table? || v.role[p].Free? || w.role[p].Free?) ==>
                 w.role[p] == v.role[p]
    ensures Shape(w) && FreeOk(w) && NodesOk(w) && BranchesOk(w)
  {
    hide NodeAt, PX, Lookup, LeafMem, UsersOk, MappingOf, Valid;
    LeafWritten(v, w, r, vpn, e);
    TableAt(v, r, PosOf(vpn, 0));
    LeafLength(v.mem, r, vpn, e);
    assert forall p :: p in w.role <==> p in w.role.Keys;
    forall k | 0 <= k < |w.free| ensures Linked(w, k) { assert Linked(v, k) && v.role[v.free[k]] == Free(k); }
    forall p, i | p in w.role && w.role[p].Table? && !w.role[p].pos.Low? && 0 <= i < 512 && Valid(w.mem[p][i])
      ensures Flags(w.mem[p][i]) == PTE_V && Ppn(w.mem[p][i]) != 0
    {
      assert w.mem[p] == v.mem[p];
    }
  }

  lemma MapKeeps(v: Vm, r: nat, vpn: nat, p: nat, flags: bv10)
    requires Wf(v) && HasSlot(v, r, vpn) && Lookup(v.mem, r, vpn) == Unmapped && p < MAXPPN
    requires p in v.role ==> v.role[p] == New || v.role[p] == Kernel
    ensures var w := MapOne(v, r, vpn, p, flags);
            Wf(w) && SameTables(v, w) && OneMap(v, w, r, vpn, Mapped(p, flags | PTE_V))
  {
    hide NodeAt, PX, Lookup, LeafMem, MakePte, Valid, FreeOk, NodesOk, BranchesOk, SameTables;
    var w := MapOne(v, r, vpn, p, flags);
    ValidWithV(p, flags);
    PteParts(p, flags | PTE_V);
    LeafWritten(v, w, r, vpn, MakePte(p, flags | PTE_V));
    LeafKeeps(v, w, r, vpn, MakePte(p, flags | PTE_V));
  }

  lemma UnmapKeeps(v: Vm, r: nat, vpn: nat)
    requires Wf(v) && HasSlot(v, r, vpn)
    ensures var w := UnmapOne(v, r, vpn); Wf(w) && SameTables(v, w) && OneMap(v, w, r, vpn, Unmapped)
  {
    hide NodeAt, PX, Lookup, LeafMem, Valid, FreeOk, NodesOk, BranchesOk, SameTables;
    var w := UnmapOne(v, r, vpn);
    ZeroInvalid();
    LeafWritten(v, w, r, vpn, 0);
    LeafKeeps(v, w, r, vpn, 0);
  }

  // ---------- roots ----------

  /** uvmcreate: a zeroed page as a root. */
  ghost function Rooted(v: Vm, p: nat): Vm { Vm(v.mem, v.lo, v.free, v.role[p := Table(p, Root)], v.roots + {p}) }

  /** The tables of r, about to be freed, are in the kernel's hands. */
  ghost function Uprooted(v: Vm, r: nat): Vm {
    Vm(v.mem, v.lo, v.free, map p | p in v.role :: if v.role[p].Table? && v.role[p].r == r then New else v.role[p],
        v.roots - {r})
  }

  ghost function TablesOf(v: Vm, r: nat): map<nat, Pos> {
    map p | p in v.role && v.role[p].Table? && v.role[p].r == r :: v.role[p].pos
  }

  lemma FreshRoot(v: Vm, p: nat, pos: Pos)
    requires Shape(v) && p in v.role && v.mem[p] == ZeroPage() && Good(pos)
    ensures NodeAt(v.mem, p, pos) == if pos.Root? then p else 0
  {
    hide Child;
    match pos
    case Root =>
    case Mid(i2) => NoChild(v.mem, p, i2);
    case Low(i2, i1) => NoChild(v.mem, p, i2); NoGrandChild(v.mem, i1);
  }

  lemma NoGrandChild(mem: seq<Page>, i: nat)
    requires i < 512
    ensures Child(mem, 0, i) == 0
  {
  }

  lemma RootedKeeps(v: Vm, p: nat)
    requires Wf(v) && p in v.role && v.role[p] == New && v.mem[p] == ZeroPage()
    ensures Wf(Rooted(v, p)) && p !in v.roots && (forall vpn :: 0 <= vpn < VPNS ==> Lookup(v.mem, p, vpn) == Unmapped)
  {
    hide NodeAt, PX, Valid;
    var w := Rooted(v, p);
    if p in v.roots { TableAtRoot(v, p); }
    forall pos | Good(pos) ensures NodeAt(v.mem, p, pos) == if pos.Root? then p else 0 { FreshRoot(v, p, pos); }
    ZeroInvalid();
    forall vpn | 0 <= vpn < VPNS ensures Lookup(v.mem, p, vpn) == Unmapped {}
    forall k | 0 <= k < |w.free| ensures Linked(w, k) { assert Linked(v, k); }
  }

  lemma TableAtRoot(v: Vm, p: nat)
    requires Shape(v) && NodesOk(v) && p in v.roots
    ensures p in v.role && v.role[p] == Table(p, Root)
  {
    assert NodeAt(v.mem, p, Root) == p;
  }

  /** What the tables of r were when they were given up: where says which page was at which position. */
  ghost predicate Tree(mem: seq<Page>, r: nat, where: map<nat, Pos>) {
    && (forall pos ::
          Good(pos) && NodeAt(mem, r, pos) != 0 ==> NodeAt(mem, r, pos) in where && where[NodeAt(mem, r, pos)] == pos)
    && (forall q :: q in where ==> Good(where[q]) && NodeAt(mem, r, where[q]) == q && 0 < q < |mem|)
  }

  /** Every entry of every table is either invalid or points to a lower table. */
  ghost predicate Leafless(mem: seq<Page>, where: map<nat, Pos>) {
    forall q, i :: q in where && q < |mem| && 0 <= i < 512 && Valid(mem[q][i]) ==>
      !where[q].Low? && Flags(mem[q][i]) == PTE_V && Ppn(mem[q][i]) != 0
  }

  lemma UprootKeeps(v: Vm, r: nat)
    requires Wf(v) && r in v.roots && forall vpn :: 0 <= vpn < VPNS ==> Lookup(v.mem, r, vpn) == Unmapped
    ensures Wf(Uprooted(v, r)) && Tree(v.mem, r, TablesOf(v, r)) && Leafless(v.mem, TablesOf(v, r))
    ensures forall q :: q in TablesOf(v, r) ==> q in v.role && Uprooted(v, r).role[q] == New
    ensures r in TablesOf(v, r) && TablesOf(v, r)[r] == Root
  {
    hide NodeAt, Lookup, Valid;
    var w := Uprooted(v, r);
    TableAtRoot(v, r);
    forall k | 0 <= k < |w.free| ensures Linked(w, k) { assert Linked(v, k); }
    assert Leafless(v.mem, TablesOf(v, r)) by {
      forall q, i | q in TablesOf(v, r) && q < |v.mem| && 0 <= i < 512 && Valid(v.mem[q][i])
        ensures !v.role[q].pos.Low? && Flags(v.mem[q][i]) == PTE_V && Ppn(v.mem[q][i]) != 0 {
        if v.role[q].pos.Low? { LowEmpty(v, r, q, i); }
      }
    }
  }

  lemma LowEmpty(v: Vm, r: nat, q: nat, i: nat)
    requires Wf(v) && r in v.roots && q in v.role && v.role[q].Table? && v.role[q].r == r && v.role[q].pos.Low?
             && i < 512
    requires forall vpn :: 0 <= vpn < VPNS ==> Lookup(v.mem, r, vpn) == Unmapped
    ensures !Valid(v.mem[q][i])
  {
    hide NodeAt, Valid, PX;
    var pos := v.role[q].pos;
    VpnJoin(pos.i2, pos.i1, i);
    assert Lookup(v.mem, r, VpnOf(pos.i2, pos.i1, i)) == Unmapped;
  }
}
