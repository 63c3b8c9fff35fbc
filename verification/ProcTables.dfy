/**
  A process's page table in kernel/proc.c: the trampoline and the trapframe are mapped at the top of the address space
  and belong to the kernel; unmapping them gives nothing back to the free list.
 */
module ProcTables {
  import opened PageTables
  import opened UserMemory
  import opened VirtualMemory

  const TRAMPOLINE: nat := MAXVPN - 1   // virtual pages
  const TRAPFRAME: nat := MAXVPN - 2

  /** The table proc_pagetable made, after the process got pages below sz. */
  ghost predicate ProcTable(v: Vm, root: nat, sz: nat) {
    && root in v.roots && Up(sz) <= TRAPFRAME
    && IsLeaf(v, root, TRAMPOLINE, false) && IsLeaf(v, root, TRAPFRAME, false)
    && (forall vpn :: 0 <= vpn < Up(sz) ==> IsLeaf(v, root, vpn, true))
    && (forall vpn ::
          Up(sz) <= vpn < VPNS && vpn != TRAMPOLINE && vpn != TRAPFRAME ==> Lookup(v.mem, root, vpn) == Unmapped)
  }

  /** A role after the table has gone: the kernel has its trapframe back, the rest of the process's pages are free. */
  ghost predicate GivenBack(before: Role, after: Role, root: nat) {
    if before == User(root, TRAPFRAME) || before == User(root, TRAMPOLINE) then after == New
    else if Owns(before, root) then after.Free?
    else after == before
  }

  /** Nothing is mapped differently, and every page that was free is free again. */
  ghost predicate Restored(v: Vm, w: Vm) {
    && SameMaps(v, w) && w.role.Keys == v.role.Keys
    && forall q :: q in v.role ==> if v.role[q].Free? then w.role[q].Free? else w.role[q] == v.role[q]
  }

  /**
    proc_pagetable: a table with the trampoline and the trapframe at the top and nothing else, the trapframe page now
    its own; or 0 and every page back, wherever memory ran out.
   */
  method ProcPagetable(m: Memory, trapframe: nat, trampoline: nat) returns (root: nat)
    requires m.Valid() && trapframe in m.v.role && m.v.role[trapframe] == New && trapframe < MAXPPN
    requires trampoline < MAXPPN && trampoline != trapframe
             && (trampoline in m.v.role ==> m.v.role[trampoline] == Kernel)
    modifies m
    ensures m.Valid()
    ensures root == 0 ==> Restored(old(m.v), m.v)
    ensures root != 0 ==> m.v.roots == old(m.v).roots + {root} && root !in old(m.v).roots && ProcTable(m.v, root, 0)
    ensures root != 0 ==> Lookup(m.mem, root, TRAMPOLINE) == Mapped(trampoline, PTE_R | PTE_X | PTE_V)
    ensures root != 0 ==> Lookup(m.mem, root, TRAPFRAME) == Mapped(trapframe, PTE_R | PTE_W | PTE_V)
    ensures root != 0 ==> trapframe in m.v.role && m.v.role[trapframe] == User(root, TRAPFRAME)
    ensures root != 0 ==>
              forall r, vpn ::
                r in old(m.v).roots && 0 <= vpn < VPNS ==> Lookup(m.mem, r, vpn) == Lookup(old(m.v).mem, r, vpn)
  {
    hide Wf, Lookup, IsLeaf, MappedSome, Shrunk, Gone, Built, ProcTable, Restored, SameMaps;
    ghost var v0 := m.v;
    root := m.Uvmcreate();
    if root == 0 {
      Untouched(v0);
      return;
    }
    ghost var v1 := m.v;
    Empty(v0, v1, root, trampoline, trapframe);
    OnePage(TRAMPOLINE);
    OnePage(TRAPFRAME);
    BuiltMaps(v0, v1, root, false, false, trampoline, trapframe);
    var r, n := m.Mappages(root, TRAMPOLINE * PGSIZE, PGSIZE, trampoline, PTE_R | PTE_X);
    ghost var v2 := m.v;
    TrampolineMapped(v0, v1, v2, root, n, trampoline, trapframe);
    if r < 0 {
      Undo(m, v0, root, trampoline, trapframe);
      return 0;
    }
    BuiltMaps(v0, v2, root, true, false, trampoline, trapframe);
    r, n := m.Mappages(root, TRAPFRAME * PGSIZE, PGSIZE, trapframe, PTE_R | PTE_W);
    ghost var v3 := m.v;
    TrapframeMapped(v0, v2, v3, root, n, trampoline, trapframe);
    if r < 0 {
      BuiltLeaf(v0, v3, root, trampoline, trapframe);
      SingleLeaf(v3, root, TRAMPOLINE);
      m.Uvmunmap(root, TRAMPOLINE * PGSIZE, 1, false);
      TrampolineUnmapped(v0, v3, m.v, root, trampoline, trapframe);
      Undo(m, v0, root, trampoline, trapframe);
      return 0;
    }
    BuiltTable(v0, v3, root, trampoline, trapframe);
  }

  /** uvmfree on a table that maps nothing yet. */
  method Undo(m: Memory, ghost v0: Vm, root: nat, ghost trampoline: nat, ghost trapframe: nat)
    requires m.Valid() && Wf(v0) && Built(v0, m.v, root, false, false, trampoline, trapframe)
    modifies m
    ensures m.Valid() && Restored(v0, m.v)
  {
    hide Wf, Lookup, IsLeaf, Gone, Built, Restored;
    BuiltMaps(v0, m.v, root, false, false, trampoline, trapframe);
    ghost var w := m.v;
    m.Uvmfree(root, 0);
    NothingLeft(v0, w, m.v, root, trampoline, trapframe);
  }

  /** The table under root, new since v, with the trampoline and the trapframe mapped or not yet. */
  ghost predicate Built(v: Vm, w: Vm, root: nat, top: bool, frame: bool, trampoline: nat, trapframe: nat) {
    && root !in v.roots && w.roots == v.roots + {root} && w.role.Keys == v.role.Keys
    && (forall r, vpn :: r in v.roots && 0 <= vpn < VPNS ==> Lookup(w.mem, r, vpn) == Lookup(v.mem, r, vpn))
    && (forall vpn :: 0 <= vpn < VPNS ==> Lookup(w.mem, root, vpn) == Place(vpn, top, frame, trampoline, trapframe))
    && (forall q :: q in v.role ==> RoleBuilt(v.role[q], w.role[q], q, root, frame, trapframe))
  }

  function Place(vpn: nat, top: bool, frame: bool, trampoline: nat, trapframe: nat): Mapping {
    if top && vpn == TRAMPOLINE then Mapped(trampoline, PTE_R | PTE_X | PTE_V)
    else if frame && vpn == TRAPFRAME then Mapped(trapframe, PTE_R | PTE_W | PTE_V)
    else Unmapped
  }

  predicate RoleBuilt(before: Role, after: Role, q: nat, root: nat, frame: bool, trapframe: nat) {
    if before.Free? then after.Free? || IsTable(after, root)
    else after == if frame && q == trapframe then User(root, TRAPFRAME) else before
  }

  lemma Untouched(v: Vm)
    ensures Restored(v, v)
  {
    hide Lookup;
  }

  lemma Empty(v: Vm, w: Vm, root: nat, trampoline: nat, trapframe: nat)
    requires root !in v.roots && w.roots == v.roots + {root}
    requires root in v.role && v.role[root].Free? && w.role == v.role[root := Table(root, Root)]
    requires forall vpn :: 0 <= vpn < VPNS ==> Lookup(w.mem, root, vpn) == Unmapped
    requires forall r, vpn :: r in v.roots && 0 <= vpn < VPNS ==> Lookup(w.mem, r, vpn) == Lookup(v.mem, r, vpn)
    ensures Built(v, w, root, false, false, trampoline, trapframe)
  {
    hide Lookup;
  }

  lemma BuiltMaps(v: Vm, w: Vm, root: nat, top: bool, frame: bool, trampoline: nat, trapframe: nat)
    requires Built(v, w, root, top, frame, trampoline, trapframe)
    ensures root in w.roots && w.role.Keys == v.role.Keys
    ensures forall vpn :: 0 <= vpn < VPNS ==> Lookup(w.mem, root, vpn) == Place(vpn, top, frame, trampoline, trapframe)
    ensures forall q :: q in v.role && !v.role[q].Free? && !(frame && q == trapframe) ==> w.role[q] == v.role[q]
  {
    hide Lookup;
    assert forall q :: q in v.role.Keys <==> q in w.role.Keys;
  }

  lemma TrampolineMapped(v: Vm, w: Vm, x: Vm, root: nat, n: nat, trampoline: nat, trapframe: nat)
    requires Built(v, w, root, false, false, trampoline, trapframe) && n <= 1 && trampoline != trapframe
    requires trampoline in v.role ==> v.role[trampoline] == Kernel
    requires MappedSome(w, x, root, TRAMPOLINE, n, trampoline, PTE_R | PTE_X)
    ensures Built(v, x, root, n == 1, false, trampoline, trapframe)
  {
    hide Lookup;
    assert forall q :: q in v.role.Keys <==> q in w.role.Keys;
    assert forall q :: q in w.role.Keys <==> q in x.role.Keys;
  }

  lemma TrapframeMapped(v: Vm, w: Vm, x: Vm, root: nat, n: nat, trampoline: nat, trapframe: nat)
    requires Built(v, w, root, true, false, trampoline, trapframe) && n <= 1
    requires trapframe in v.role && v.role[trapframe] == New
    requires MappedSome(w, x, root, TRAPFRAME, n, trapframe, PTE_R | PTE_W)
    ensures Built(v, x, root, true, n == 1, trampoline, trapframe)
  {
    hide Lookup;
    assert forall q :: q in v.role.Keys <==> q in w.role.Keys;
    assert forall q :: q in w.role.Keys <==> q in x.role.Keys;
  }

  lemma BuiltLeaf(v: Vm, w: Vm, root: nat, trampoline: nat, trapframe: nat)
    requires Built(v, w, root, true, false, trampoline, trapframe)
    requires trampoline in v.role ==> v.role[trampoline] == Kernel
    ensures root in w.roots && IsLeaf(w, root, TRAMPOLINE, false)
  {
    hide Lookup;
    assert Place(TRAMPOLINE, true, false, trampoline, trapframe).Mapped?;
    assert forall q :: q in v.role.Keys <==> q in w.role.Keys;
  }

  lemma TrampolineUnmapped(v: Vm, w: Vm, x: Vm, root: nat, trampoline: nat, trapframe: nat)
    requires Wf(v) && Built(v, w, root, true, false, trampoline, trapframe) && Shrunk(w, x, root, TRAMPOLINE, 1, false)
    ensures Built(v, x, root, false, false, trampoline, trapframe)
  {
    hide Wf, Lookup;
    NotYetOwned(v, root);
    assert forall q :: q in v.role.Keys <==> q in w.role.Keys;
    assert forall q :: q in w.role.Keys <==> q in x.role.Keys;
  }

  lemma NotYetOwned(v: Vm, root: nat)
    requires Wf(v) && root !in v.roots
    ensures forall q :: q in v.role ==> !Owns(v.role[q], root)
  {
    hide Lookup, NodeAt, FreeOk, BranchesOk;
  }

  lemma NothingLeft(v: Vm, w: Vm, x: Vm, root: nat, trampoline: nat, trapframe: nat)
    requires Wf(v) && Built(v, w, root, false, false, trampoline, trapframe) && Gone(w, x, root)
    ensures Restored(v, x)
  {
    hide Wf, Lookup;
    NotYetOwned(v, root);
    assert forall q :: q in v.role.Keys <==> q in w.role.Keys;
    assert forall q :: q in w.role.Keys <==> q in x.role.Keys;
  }

  lemma BuiltTable(v: Vm, w: Vm, root: nat, trampoline: nat, trapframe: nat)
    requires Built(v, w, root, true, true, trampoline, trapframe) && trampoline != trapframe
    requires trapframe in v.role && v.role[trapframe] == New && (trampoline in v.role ==> v.role[trampoline] == Kernel)
    ensures ProcTable(w, root, 0) && w.roots == v.roots + {root} && root !in v.roots
    ensures Lookup(w.mem, root, TRAMPOLINE) == Mapped(trampoline, PTE_R | PTE_X | PTE_V)
    ensures Lookup(w.mem, root, TRAPFRAME) == Mapped(trapframe, PTE_R | PTE_W | PTE_V)
    ensures trapframe in w.role && w.role[trapframe] == User(root, TRAPFRAME)
    ensures forall r, vpn :: r in v.roots && 0 <= vpn < VPNS ==> Lookup(w.mem, r, vpn) == Lookup(v.mem, r, vpn)
  {
    hide Lookup;
    assert Place(TRAMPOLINE, true, true, trampoline, trapframe).Mapped?
           && Place(TRAPFRAME, true, true, trampoline, trapframe).Mapped?;
    assert forall q :: q in v.role.Keys <==> q in w.role.Keys;
  }

  /** proc_freepagetable. */
  method ProcFreepagetable(m: Memory, root: nat, sz: nat)
    requires m.Valid() && ProcTable(m.v, root, sz) && sz <= MAXVPN * PGSIZE
    modifies m
    ensures m.Valid() && m.v.roots == old(m.v).roots - {root} && m.v.role.Keys == old(m.v).role.Keys
    ensures forall q :: q in old(m.v).role ==> GivenBack(old(m.v).role[q], m.v.role[q], root)
    ensures forall r, vpn :: r in m.v.roots && 0 <= vpn < VPNS ==> Lookup(m.mem, r, vpn) == Lookup(old(m.v).mem, r, vpn)
  {
    hide Wf, Lookup, IsLeaf, Shrunk, Gone;
    ghost var v0 := m.v;
    SingleLeaf(v0, root, TRAMPOLINE);
    m.Uvmunmap(root, TRAMPOLINE * PGSIZE, 1, false);
    ghost var v1 := m.v;
    TrampolineGone(v0, v1, root, sz);
    SingleLeaf(v1, root, TRAPFRAME);
    m.Uvmunmap(root, TRAPFRAME * PGSIZE, 1, false);
    ghost var v2 := m.v;
    TrapframeGone(v0, v1, v2, root, sz);
    m.Uvmfree(root, sz);
    AllGivenBack(v0, v1, v2, m.v, root);
  }

  lemma SingleLeaf(v: Vm, root: nat, vpn: nat)
    requires IsLeaf(v, root, vpn, false)
    ensures forall x :: vpn * PGSIZE / PGSIZE <= x < vpn * PGSIZE / PGSIZE + 1 ==> IsLeaf(v, root, x, false)
  {
    hide IsLeaf;
    assert vpn * PGSIZE / PGSIZE == vpn;
  }

  lemma LeafStays(v: Vm, w: Vm, r: nat, a: nat, n: nat, free: bool, vpn: nat, own: bool)
    requires Wf(v) && Shrunk(v, w, r, a, n, free) && r in v.roots && vpn < VPNS && !(a <= vpn < a + n)
             && IsLeaf(v, r, vpn, own)
    ensures IsLeaf(w, r, vpn, own)
  {
    hide Lookup, FreeOk, NodesOk, BranchesOk, UsersOk;
    assert forall q :: q in v.role.Keys <==> q in w.role.Keys;
  }

  lemma UnmappedStays(v: Vm, w: Vm, r: nat, a: nat, n: nat, free: bool, vpn: nat)
    requires Shrunk(v, w, r, a, n, free) && r in v.roots && vpn < VPNS
    ensures Lookup(w.mem, r, vpn) == if a <= vpn < a + n then Unmapped else Lookup(v.mem, r, vpn)
    ensures w.roots == v.roots
  {
    hide Lookup;
  }

  /** Without the trampoline the table is as it was. */
  lemma TrampolineGone(v: Vm, w: Vm, root: nat, sz: nat)
    requires Wf(v) && ProcTable(v, root, sz) && Shrunk(v, w, root, TRAMPOLINE, 1, false)
    ensures root in w.roots && IsLeaf(w, root, TRAPFRAME, false) && Lookup(w.mem, root, TRAMPOLINE) == Unmapped
    ensures forall vpn :: 0 <= vpn < Up(sz) ==> IsLeaf(w, root, vpn, true)
    ensures forall vpn :: Up(sz) <= vpn < VPNS && vpn != TRAPFRAME ==> Lookup(w.mem, root, vpn) == Unmapped
  {
    hide Wf, Lookup, IsLeaf, Shrunk;
    UnmappedStays(v, w, root, TRAMPOLINE, 1, false, TRAMPOLINE);
    LeafStays(v, w, root, TRAMPOLINE, 1, false, TRAPFRAME, false);
    forall vpn | 0 <= vpn < Up(sz)
      ensures IsLeaf(w, root, vpn, true)
    {
      LeafStays(v, w, root, TRAMPOLINE, 1, false, vpn, true);
    }
    forall vpn | Up(sz) <= vpn < VPNS && vpn != TRAPFRAME ensures Lookup(w.mem, root, vpn) == Unmapped {
      UnmappedStays(v, w, root, TRAMPOLINE, 1, false, vpn);
    }
  }

  /** Without the trapframe it is one that uvmfree can take. */
  lemma TrapframeGone(v: Vm, w: Vm, x: Vm, root: nat, sz: nat)
    requires Wf(v) && Wf(w) && ProcTable(v, root, sz) && Shrunk(v, w, root, TRAMPOLINE, 1, false)
    requires Shrunk(w, x, root, TRAPFRAME, 1, false)
    ensures root in x.roots && forall vpn :: 0 <= vpn < Up(sz) ==> IsLeaf(x, root, vpn, true)
    ensures forall vpn :: Up(sz) <= vpn < VPNS ==> Lookup(x.mem, root, vpn) == Unmapped
  {
    hide Wf, Lookup, IsLeaf, Shrunk;
    TrampolineGone(v, w, root, sz);
    UnmappedStays(w, x, root, TRAPFRAME, 1, false, TRAPFRAME);
    forall vpn | 0 <= vpn < Up(sz)
      ensures IsLeaf(x, root, vpn, true)
    {
      LeafStays(w, x, root, TRAPFRAME, 1, false, vpn, true);
    }
    forall vpn | Up(sz) <= vpn < VPNS ensures Lookup(x.mem, root, vpn) == Unmapped {
      UnmappedStays(w, x, root, TRAPFRAME, 1, false, vpn);
    }
  }

  lemma AllGivenBack(v: Vm, w: Vm, x: Vm, y: Vm, root: nat)
    requires Shrunk(v, w, root, TRAMPOLINE, 1, false) && Shrunk(w, x, root, TRAPFRAME, 1, false) && Gone(x, y, root)
    ensures y.roots == v.roots - {root} && y.role.Keys == v.role.Keys
    ensures forall q :: q in v.role ==> GivenBack(v.role[q], y.role[q], root)
    ensures forall r, vpn :: r in y.roots && 0 <= vpn < VPNS ==> Lookup(y.mem, r, vpn) == Lookup(v.mem, r, vpn)
  {
    hide Lookup;
    assert forall q :: q in v.role.Keys <==> q in w.role.Keys;
    assert forall q :: q in w.role.Keys <==> q in x.role.Keys;
    assert forall q :: q in x.role.Keys <==> q in y.role.Keys;
  }
}
