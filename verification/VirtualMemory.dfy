/**
  kernel/kalloc.c and kernel/vm.c over one physical memory.
 */
module VirtualMemory {
  import opened PageTables
  import opened PageChanges
  import opened UserMemory

  class Memory {
    var mem: seq<Page>
    var freelist: nat         // the head of the free list, 0 if it is empty
    ghost var v: Vm

    ghost predicate Valid()
      reads this
    {
      v.mem == mem && Wf(v) && freelist == Top(v)
    }

    method Kalloc() returns (p: nat)
      requires Valid()
      modifies this
      ensures Valid() && (p == 0 <==> |old(v).free| == 0)
      ensures p == 0 ==> v == old(v)
      ensures p != 0 ==> p == Top(old(v)) && p < |old(v).mem| && v == Popped(old(v)) && p in v.role && v.role[p] == New
      ensures SameTables(old(v), v) && SameMaps(old(v), v)
    {
      hide NodesOk, BranchesOk, UsersOk, NodeAt, Lookup;
      p := freelist;
      if p != 0 {
        PoppedKeeps(v);
        ghost var w := Popped(v);
        assert Linked(v, |v.free| - 1);
        freelist := mem[p][0] / PGSIZE;
        mem := mem[p := Junk(5)];
        v := w;
      }
    }

    method Kfree(p: nat)
      requires Valid() && p in v.role && v.role[p] == New
      modifies this
      ensures Valid() && p < |old(v).mem| && Top(old(v)) * PGSIZE < 0x1_0000_0000_0000_0000 && v == Pushed(old(v), p)
      ensures SameTables(old(v), v) && SameMaps(old(v), v)
    {
      hide Wf, SameTables, SameMaps;
      PushedKeeps(v, p);
      ghost var w := Pushed(v, p);
      mem := mem[p := Junk(1)[0 := freelist * PGSIZE]];
      freelist := p;
      v := w;
    }

    /** memset or memmove over a whole page. */
    method FillPage(p: nat, data: Page)
      requires Valid() && p in v.role && (v.role[p] == New || v.role[p] == Kernel || v.role[p].User?)
      modifies this
      ensures Valid() && p < |old(v).mem| && v == Filled(old(v), p, data) && SameTables(old(v), v)
              && SameMaps(old(v), v)
    {
      hide Wf, SameTables, SameMaps;
      FilledKeeps(v, p, data);
      ghost var w := Filled(v, p, data);
      mem := mem[p := data];
      v := w;
    }

    /**
      walk: the page holding the leaf entry of vpn, creating tables if asked to. No translation changes, whether it
      succeeds or runs out of pages halfway.
     */
    method Walk(root: nat, vpn: nat, alloc: bool) returns (page: nat)
      requires Valid() && root in v.roots && vpn < MAXVPN
      modifies this
      ensures Valid() && Evolved(old(v), v) && Settled(old(v), v, root) && SameMaps(old(v), v)
      ensures page != 0 ==> HasSlot(v, root, vpn) && page == NodeAt(mem, root, PosOf(vpn, 0))
      ensures page == 0 && alloc ==> |v.free| == 0
      ensures !alloc ==> v == old(v) && (page == 0 <==> NodeAt(mem, root, PosOf(vpn, 0)) == 0)
    {
      hide NodeAt, Lookup, FreeOk, NodesOk, BranchesOk, UsersOk, PageTables.Valid, MakePte, Child;
      var pagetable := root;
      RootNode(v, root);
      NothingEvolved(v);
      var level := 2;
      while level > 0
        invariant level <= 2 && this.Valid() && root in v.roots && Evolved(old(v), v) && Settled(old(v), v, root)
                  && SameMaps(old(v), v)
        invariant pagetable == NodeAt(mem, root, PosOf(vpn, level)) != 0 && pagetable < |mem|
        invariant !alloc ==> v == old(v)
      {
        ghost var pos := PosOf(vpn, level);
        NodeAtChild(mem, root, pos, PX(level, vpn));
        var pte := mem[pagetable][PX(level, vpn)];
        if PageTables.Valid(pte) {
          NextNode(v, root, pos, PX(level, vpn));
          pagetable := Ppn(pte);
        } else {
          InvalidChild(mem, pagetable, PX(level, vpn));
          if !alloc {
            NoLowNode(mem, root, vpn, level);
            return 0;
          }
          var child := NewTable(root, pos, PX(level, vpn), pagetable);
          if child == 0 {
            return 0;
          }
          pagetable := child;
        }
        level := level - 1;
      }
      page := pagetable;
    }

    /** walkaddr: the physical address of a user page, 0 if it is not one. */
    method Walkaddr(root: nat, va: nat) returns (pa: nat)
      requires Valid() && root in v.roots
      modifies this
      ensures Valid() && v == old(v)
      ensures forall page: nat, flags: bv10 ::
                va < MAXVPN * PGSIZE && Lookup(mem, root, va / PGSIZE) == Mapped(page, flags) && flags & PTE_U != 0 ==>
                  pa == page * PGSIZE
      ensures pa != 0 ==>
                && va < MAXVPN * PGSIZE && Lookup(mem, root, va / PGSIZE).Mapped?
                && Lookup(mem, root, va / PGSIZE).flags & PTE_U != 0
    {
      hide NodeAt, FreeOk, NodesOk, BranchesOk, UsersOk;
      if va >= MAXVPN * PGSIZE {
        return 0;
      }
      var page := Walk(root, va / PGSIZE, false);
      if page == 0 {
        ZeroInvalid();
        return 0;
      }
      var pte := mem[page][PX(0, va / PGSIZE)];
      if !PageTables.Valid(pte) {
        return 0;
      }
      if Flags(pte) & PTE_U == 0 {
        return 0;
      }
      pa := PTE2PA(pte);
    }

    /**
      mappages: every page of the range gets mapped, or (-1, out of memory) the first done of them and no others.
     */
    method Mappages(root: nat, va: nat, size: nat, p: nat, perm: bv10) returns (r: int, ghost done: nat)
      requires Valid() && root in v.roots && size > 0 && va + size <= MAXVPN * PGSIZE
      requires forall vpn :: va / PGSIZE <= vpn <= (va + size - 1) / PGSIZE ==> Lookup(mem, root, vpn) == Unmapped
      requires p + Pages(va, size) <= MAXPPN
      requires forall q :: p <= q < p + Pages(va, size) && q in v.role ==> v.role[q] == New || v.role[q] == Kernel
      modifies this
      ensures Valid() && MappedSome(old(v), v, root, va / PGSIZE, done, p, perm)
      ensures done <= Pages(va, size) && (r == 0 <==> done == Pages(va, size)) && (r == 0 || r == -1)
      ensures r == -1 ==> |v.free| == 0
    {
      hide NodeAt, Lookup, FreeOk, NodesOk, BranchesOk, UsersOk, PageTables.Valid, MakePte, MappedSome, Evolved;
      hide Settled, SameMaps;
      var a, last := va / PGSIZE, (va + size - 1) / PGSIZE;
      assert a <= last < MAXVPN by { LastPage(va, size); }
      var pa := p;
      ghost var v0 := v;
      done := 0;
      MappedNothing(v0, root, a, p, perm);
      while true
        invariant Valid() && root in v.roots && MappedSome(v0, v, root, va / PGSIZE, done, p, perm)
        invariant a == va / PGSIZE + done <= last && pa == p + done
        decreases last - a
      {
        ghost var v1 := v;
        var page := Walk(root, a, true);
        MappedThenTables(v0, v1, v, root, va / PGSIZE, done, p, perm);
        if page == 0 {
          return -1, done;
        }
        NextUnmapped(v0, v, root, va / PGSIZE, done, p, perm);
        LeafEntry(v, root, a);
        assert !PageTables.Valid(mem[page][PX(0, a)]);   // "mappages: remap" is unreachable
        MappedMore(v0, v, root, va / PGSIZE, done, p, perm);
        ghost var w := MapOne(v, root, a, pa, perm);
        mem := SetEntry(mem, page, PX(0, a), MakePte(pa, perm | PTE_V));
        v := w;
        done := done + 1;
        MappedRoots(v0, v, root, va / PGSIZE, done, p, perm);
        if a == last {
          break;
        }
        a := a + 1;
        pa := pa + 1;
      }
      r := 0;
    }

    /** uvmunmap: exactly the range is unmapped, and with doFree exactly its pages go back to the free list. */
    method Uvmunmap(root: nat, va: nat, npages: nat, doFree: bool)
      requires Valid() && root in v.roots && va % PGSIZE == 0 && va / PGSIZE + npages <= MAXVPN
      requires forall vpn :: va / PGSIZE <= vpn < va / PGSIZE + npages ==> IsLeaf(v, root, vpn, doFree)
      modifies this
      ensures Valid() && Shrunk(old(v), v, root, va / PGSIZE, npages, doFree)
      ensures |v.free| == |old(v).free| + if doFree then npages else 0
    {
      hide NodeAt, Lookup, FreeOk, NodesOk, BranchesOk, UsersOk, PageTables.Valid, Shrunk, IsLeaf, SameMaps, SameTables;
      hide Evolved, Settled;
      ghost var v0, start := v, va / PGSIZE;
      ShrunkNothing(v, root, start, doFree);
      var a, n := va / PGSIZE, 0;
      while n < npages
        invariant n <= npages && a == start + n && Valid() && root in v.roots && Shrunk(v0, v, root, start, n, doFree)
        invariant |v.free| == |v0.free| + if doFree then n else 0
      {
        ghost var v1 := v;
        NextLeaf(v0, v1, root, start, n, doFree);
        LeafHasNode(v1, root, a, doFree);
        var page := Walk(root, a, false);
        LeafEntry(v, root, a);
        var pte := mem[page][PX(0, a)];
        LeafChecks(v1, root, a, doFree);
        assert PageTables.Valid(pte) && Flags(pte) != PTE_V;   // neither panic can happen
        UnmapKeeps(v1, root, a);
        ghost var w := UnmapOne(v1, root, a);
        // the entry is cleared and the page freed; the order of the two does not show
        mem := SetEntry(mem, page, PX(0, a), 0);
        v := w;
        if doFree {
          var pa := Ppn(pte);
          LeafPage(v1, w, root, a);
          Kfree(pa);
        }
        UnmappedStep(v1, v, root, a, doFree);
        ShrunkMore(v0, v1, v, root, start, n, doFree);
        ShrunkRoots(v0, v, root, start, n + 1, doFree);
        a := a + 1;
        n := n + 1;
      }
    }

    /**
      kalloc, fill, mappages on one page, and kfree if the last fails: the loop bodies of uvmalloc and uvmcopy. It fails
      only if memory runs out; the page it had, if any, is then the only free one.
     */
    method AddPage(root: nat, vpn: nat, data: Page, perm: bv10) returns (ok: bool)
      requires Valid() && root in v.roots && vpn < MAXVPN && Lookup(mem, root, vpn) == Unmapped
      modifies this
      ensures Valid()
      ensures ok ==> Grown(old(v), v, root, vpn, [(perm | PTE_V, data)])
      ensures !ok ==> Evolved(old(v), v) && Settled(old(v), v, root) && SameMaps(old(v), v) && |v.free| <= 1
    {
      hide NodeAt, Lookup, FreeOk, NodesOk, BranchesOk, UsersOk, MappedSome, Grown, Junk, SameTables;
      ghost var v0 := v;
      NothingEvolved(v);
      var page := Kalloc();
      if page == 0 {
        return false;
      }
      ghost var v1 := v;
      PoppedFrame(v0);
      FillPage(page, data);
      ghost var v2 := v;
      assert SameMaps(v0, v2);
      OnePage(vpn);
      var r, done := Mappages(root, vpn * PGSIZE, PGSIZE, page, perm);
      ok := r == 0;
      if ok {
        MappedIsGrown(v0, v2, v, root, vpn, page, perm, data);
      } else {
        ghost var v3 := v;
        StillNew(v2, v3, root, vpn, page, perm);
        Kfree(page);
        MapFailed(v0, v2, v3, root, vpn, page, perm, data);
      }
    }

    /**
      uvmalloc: all the new pages, zeroed and readable by the user, or none of them and every page back on the
      free list but the ones that became page tables; and then no more pages are free than were asked for.
     */
    method Uvmalloc(root: nat, oldsz: nat, newsz: nat, xperm: bv10) returns (r: nat)
      requires Valid() && root in v.roots && newsz <= MAXVPN * PGSIZE
      requires forall vpn :: Up(oldsz) <= vpn < Up(newsz) ==> Lookup(mem, root, vpn) == Unmapped
      modifies this
      ensures Valid()
      ensures newsz < oldsz ==> r == oldsz && v == old(v)
      ensures newsz >= oldsz ==>
                (r == newsz
                 && Grown(old(v), v, root, Up(oldsz), Blank(Up(newsz) - Up(oldsz), PTE_R | PTE_U | xperm | PTE_V)))
                || (r == 0 && Evolved(old(v), v) && Settled(old(v), v, root) && SameMaps(old(v), v)
                    && |v.free| <= Up(newsz) - Up(oldsz))
    {
      hide NodeAt, Lookup, FreeOk, NodesOk, BranchesOk, UsersOk, Grown, Blank, Shrunk, IsLeaf, SameMaps, Evolved;
      hide Settled;
      if newsz < oldsz {
        return oldsz;
      }
      UpGrows(oldsz, newsz);
      ghost var v0, start, flags := v, Up(oldsz), PTE_R | PTE_U | xperm | PTE_V;
      BlankNone(flags);
      GrownNothing(v0, root, start);
      var base := Up(oldsz);
      var a := base;
      while a * PGSIZE < newsz
        invariant start <= a <= Up(newsz) <= MAXVPN && Valid() && root in v.roots && root in v0.roots
        invariant Grown(v0, v, root, start, Blank(a - start, flags))
      {
        UpBelow(a, newsz);
        ghost var v1 := v;
        GrownElsewhere(v0, v1, root, start, Blank(a - start, flags), a);
        var ok := AddPage(root, a, ZeroPage(), PTE_R | PTE_U | xperm);
        if !ok {
          GrownThenTables(v0, v1, v, root, start, Blank(a - start, flags));
          ghost var v2 := v;
          GrownRoots(v0, v2, root, start, Blank(a - start, flags));
          BlankLeaves(v0, v2, root, start, a - start, xperm);
          var _ := Uvmdealloc(root, a * PGSIZE, base * PGSIZE);
          GrownThenShrunk(v0, v2, v, root, start, Blank(a - start, flags));
          return 0;
        }
        GrownMore(v0, v1, v, root, start, Blank(a - start, flags), (flags, ZeroPage()));
        BlankOneMore(a - start, flags);
        GrownRoots(v0, v, root, start, Blank(a + 1 - start, flags));
        a := a + 1;
      }
      UpReached(a, newsz);
      r := newsz;
    }

    /** uvmdealloc: the pages wholly above newsz are unmapped and freed. */
    method Uvmdealloc(root: nat, oldsz: nat, newsz: nat) returns (r: nat)
      requires Valid() && root in v.roots && oldsz <= MAXVPN * PGSIZE
      requires forall vpn :: Up(newsz) <= vpn < Up(oldsz) ==> IsLeaf(v, root, vpn, true)
      modifies this
      ensures Valid() && r == if newsz >= oldsz then oldsz else newsz
      ensures Shrunk(old(v), v, root, Up(newsz), if Up(newsz) < Up(oldsz) then Up(oldsz) - Up(newsz) else 0, true)
      ensures |v.free| == |old(v).free| + if Up(newsz) < Up(oldsz) then Up(oldsz) - Up(newsz) else 0
    {
      hide NodeAt, Lookup, FreeOk, NodesOk, BranchesOk, UsersOk, Shrunk, IsLeaf;
      ShrunkNothing(v, root, Up(newsz), true);
      UpBounds(oldsz);
      if newsz >= oldsz {
        UpGrows(oldsz, newsz);
        return oldsz;
      }
      if Up(newsz) < Up(oldsz) {
        var npages := Up(oldsz) - Up(newsz);
        Uvmunmap(root, Up(newsz) * PGSIZE, npages, true);
      }
      r := newsz;
    }

    /**
      uvmcopy: the child has its own copy of every page, with the same flags, or nothing at all; the parent is
      unchanged.
     */
    method Uvmcopy(parent: nat, child: nat, sz: nat) returns (r: int)
      requires Valid() && parent in v.roots && child in v.roots && parent != child && sz <= MAXVPN * PGSIZE
      requires forall vpn :: 0 <= vpn < Up(sz) ==> Copyable(v, parent, vpn) && Lookup(mem, child, vpn) == Unmapped
      modifies this
      ensures Valid() && (r == 0 || r == -1)
      ensures r == 0 ==> Grown(old(v), v, child, 0, Copies(old(v), parent, Up(sz)))
      ensures r == -1 ==> Evolved(old(v), v) && Settled(old(v), v, child) && SameMaps(old(v), v) && |v.free| <= Up(sz)
    {
      hide NodeAt, Lookup, FreeOk, NodesOk, BranchesOk, UsersOk, Grown, Copies, Shrunk, IsLeaf, SameMaps, Evolved;
      hide Settled, PageTables.Valid;
      ghost var v0 := v;
      GrownNothing(v0, child, 0);
      NoCopies(v0, parent);
      UpBounds(sz);
      var i := 0;
      while i * PGSIZE < sz
        invariant i <= Up(sz) && Valid() && child in v.roots && parent in v.roots && parent in v0.roots
                  && child in v0.roots
        invariant Grown(v0, v, child, 0, Copies(v0, parent, i))
      {
        UpBelow(i, sz);
        ghost var v1 := v;
        GrownElsewhere(v0, v1, child, 0, Copies(v0, parent, i), i);
        SourceStays(v0, v1, parent, child, Copies(v0, parent, i), i);
        var page := Walk(parent, i, false);
        CopyableHasNode(v1, parent, i);
        LeafEntry(v1, parent, i);
        var pte := mem[page][PX(0, i)];
        CopyableEntry(v1, parent, i);
        assert PageTables.Valid(pte);   // "uvmcopy: page not present" is unreachable
        var pa, flags := Ppn(pte), Flags(pte);
        ghost var e := (flags, mem[pa]);
        var ok := AddPage(child, i, mem[pa], flags);
        if !ok {
          GrownThenTables(v0, v1, v, child, 0, Copies(v0, parent, i));
          ghost var v2 := v;
          CopiesLeaves(v0, v2, parent, child, i);
          GrownRoots(v0, v2, child, 0, Copies(v0, parent, i));
          Uvmunmap(child, 0, i, true);
          GrownThenShrunk(v0, v2, v, child, 0, Copies(v0, parent, i));
          return -1;
        }
        GrownMore(v0, v1, v, child, 0, Copies(v0, parent, i), e);
        CopiesNext(v0, parent, i, e);
        GrownRoots(v0, v, child, 0, Copies(v0, parent, i + 1));
        i := i + 1;
      }
      UpReached(i, sz);
      r := 0;
    }

    /** uvmcreate: a new, empty page table. */
    method Uvmcreate() returns (root: nat)
      requires Valid()
      modifies this
      ensures Valid() && (root == 0 <==> |old(v).free| == 0) && (root == 0 ==> v == old(v))
      ensures root != 0 ==> root !in old(v).roots && v.roots == old(v).roots + {root}
                            && root in old(v).role && old(v).role[root].Free?
                               && v.role == old(v).role[root := Table(root, Root)]
                            && forall vpn :: 0 <= vpn < VPNS ==> Lookup(mem, root, vpn) == Unmapped
      ensures forall r, vpn ::
                r in old(v).roots && 0 <= vpn < VPNS ==> Lookup(mem, r, vpn) == Lookup(old(v).mem, r, vpn)
    {
      hide NodeAt, Lookup, FreeOk, NodesOk, BranchesOk, UsersOk, SameTables, Junk;
      ghost var v0 := v;
      root := Kalloc();
      if root != 0 {
        PoppedFrame(v0);
        FillPage(root, ZeroPage());
        RootedKeeps(v, root);
        v := Rooted(v, root);
      }
    }

    /** freewalk on a tree of tables without leaves: each of its tables goes back to the free list, once. */
    method Freewalk(p: nat, ghost r: nat, ghost pos: Pos, ghost m0: seq<Page>, ghost where: map<nat, Pos>)
      requires Valid() && Tree(m0, r, where) && Leafless(m0, where) && Doomed(v, m0, where, pos)
      requires p in where && where[p] == pos && Good(pos) && r !in v.roots
      modifies this
      ensures Valid() && AllFreed(old(v), v, where, pos)
      decreases if pos.Root? then 2 else if pos.Mid? then 1 else 0
    {
      hide Wf, Tree, Leafless, Freed, AllFreed, Lookup, SameMaps, Below, PageTables.Valid;
      ghost var v0 := v;
      DoomedPage(v, m0, r, where, p, pos);
      FreedNothing(v0, where, pos);
      var i := 0;
      while i < 512
        invariant i <= 512 && Valid() && Freed(v0, v, where, pos, i) && r !in v.roots
        invariant p < |mem| && p < |m0| && forall j :: i <= j < 512 ==> mem[p][j] == m0[p][j]
      {
        var pte := mem[p][i];
        ghost var w := v;
        if PageTables.Valid(pte) && Flags(pte) & (PTE_R | PTE_W | PTE_X) == 0 {
          ChildDoomed(v0, w, m0, r, where, p, pos, i);
          var child := Ppn(pte);
          Freewalk(child, r, ChildPos(pos, i), m0, where);
          ghost var x := v;
          EntriesStay(w, x, where, p, pos, i);
          ParentStays(v0, w, x, where, p, pos, i);
          FillPage(p, mem[p][i := 0]);
          GoodPlaces(m0, r, where);
          FreedMore(v0, w, x, v, where, p, pos, i);
        } else if PageTables.Valid(pte) {
          ChildDoomed(v0, w, m0, r, where, p, pos, i);
          OnlyV();
          assert false;   // "freewalk: leaf" is unreachable
        } else {
          FreedSkip(v0, w, m0, r, where, p, pos, i);
        }
        FreedRoots(v0, v, where, pos, i + 1);
        i := i + 1;
      }
      StillHeld(v0, v, where, p, pos);
      OneAt(m0, r, where, p);
      ghost var w := v;
      Kfree(p);
      FreedLast(v0, w, where, p, pos);
    }

    /** uvmfree: every user page and every table of the address space is free afterwards; nothing else has moved. */
    method Uvmfree(root: nat, sz: nat)
      requires Valid() && root in v.roots && sz <= MAXVPN * PGSIZE
      requires forall vpn :: 0 <= vpn < Up(sz) ==> IsLeaf(v, root, vpn, true)
      requires forall vpn :: Up(sz) <= vpn < VPNS ==> Lookup(mem, root, vpn) == Unmapped
      modifies this
      ensures Valid() && Gone(old(v), v, root)
    {
      hide NodeAt, Lookup, FreeOk, NodesOk, BranchesOk, UsersOk, Shrunk, IsLeaf, AllFreed, Gone, Tree, Leafless;
      ghost var v0 := v;
      UpBounds(sz);
      ShrunkNothing(v0, root, 0, true);
      if sz > 0 {
        Uvmunmap(root, 0, Up(sz), true);
      }
      ghost var w := v;
      ShrunkRoots(v0, w, root, 0, Up(sz), true);
      AllUnmapped(v0, w, root, Up(sz));
      UprootKeeps(w, root);
      ghost var m0, where := mem, TablesOf(w, root);
      v := Uprooted(w, root);
      AllDoomed(w, root);
      Freewalk(root, root, Root, m0, where);
      GoneAfter(v0, w, v, root, Up(sz));
    }

    /** freerange while the kernel boots: pages that hold nothing go on the free list, one by one. */
    method Freerange(start: nat, end: nat)
      requires Valid() && forall q :: Up(start) <= q < end / PGSIZE ==> q in v.role && v.role[q] == New
      modifies this
      ensures Valid() && v.role.Keys == old(v).role.Keys
      ensures forall q ::
                q in old(v).role ==>
                  if Up(start) <= q < end / PGSIZE then v.role[q].Free? else v.role[q] == old(v).role[q]
      ensures SameMaps(old(v), v)
    {
      hide NodeAt, Lookup, FreeOk, NodesOk, BranchesOk, UsersOk, Junk, SameTables;
      var p := Up(start);
      while (p + 1) * PGSIZE <= end
        invariant Up(start) <= p && (p <= end / PGSIZE || p == Up(start)) && Valid() && v.role.Keys == old(v).role.Keys
                  && SameMaps(old(v), v)
        invariant forall q ::
                    q in old(v).role ==> if Up(start) <= q < p then v.role[q].Free? else v.role[q] == old(v).role[q]
        decreases end - p * PGSIZE
      {
        assert p in v.role.Keys by { assert p in old(v).role.Keys; }
        Kfree(p);
        p := p + 1;
      }
    }

    /** The allocating branch of walk: a zeroed page, linked below pagetable. */
    method NewTable(root: nat, ghost pos: Pos, i: nat, pagetable: nat) returns (child: nat)
      requires Valid() && root in v.roots && Good(pos) && !pos.Low? && i < 512
      requires pagetable == NodeAt(mem, root, pos) != 0 && pagetable < |mem| && !PageTables.Valid(mem[pagetable][i])
      modifies this
      ensures Valid() && Evolved(old(v), v) && Settled(old(v), v, root) && SameMaps(old(v), v)
      ensures child == 0 ==> v == old(v) && |v.free| == 0
      ensures child != 0 ==> child == NodeAt(mem, root, ChildPos(pos, i)) && child < |mem|
    {
      hide NodeAt, Lookup, FreeOk, NodesOk, BranchesOk, UsersOk, PageTables.Valid, MakePte, Junk;
      ghost var v0 := v;
      NothingEvolved(v);
      child := Kalloc();
      if child != 0 {
        ghost var v1 := v;
        PoppedFrame(v0);
        FillPage(child, ZeroPage());
        ghost var v2 := v;
        NodeWhere(v0, v2, root, pos, i);
        GraftKeeps(v2, root, pos, i, child);
        ghost var w := Grafted(v2, root, pos, i, child);
        GraftEvolved(v0, v2, root, pos, i, child);
        mem := SetEntry(mem, pagetable, i, MakePte(child, PTE_V));
        v := w;
      }
    }
  }

  // ---------- helpers of the methods below ----------

  function Up(sz: nat): nat { (sz + PGSIZE - 1) / PGSIZE }

  /** walkaddr finds what mappages has mapped for the user, and nothing that it has mapped without PTE_U. */
  method MapThenLook(m: Memory, root: nat, va: nat, size: nat, p: nat, perm: bv10, x: nat) returns (r: int, pa: nat)
    requires m.Valid() && root in m.v.roots && size > 0 && va + size <= MAXVPN * PGSIZE
    requires forall vpn :: va / PGSIZE <= vpn <= (va + size - 1) / PGSIZE ==> Lookup(m.mem, root, vpn) == Unmapped
    requires p + Pages(va, size) <= MAXPPN
    requires forall q :: p <= q < p + Pages(va, size) && q in m.v.role ==> m.v.role[q] == New || m.v.role[q] == Kernel
    requires va / PGSIZE <= x / PGSIZE <= (va + size - 1) / PGSIZE
    modifies m
    ensures m.Valid() && (r == 0 || r == -1)
    ensures r == 0 ==> pa == if perm & PTE_U != 0 then (p + (x / PGSIZE - va / PGSIZE)) * PGSIZE else 0
  {
    hide Lookup, NodeAt, FreeOk, NodesOk, BranchesOk, UsersOk;
    ghost var done;
    r, done := m.Mappages(root, va, size, p, perm);
    pa := 0;
    if r == 0 {
      UserBit(perm);
      InRangeOf(va, size, x);
      assert Lookup(m.mem, root, x / PGSIZE) == Mapped(p + (x / PGSIZE - va / PGSIZE), perm | PTE_V);
      pa := m.Walkaddr(root, x);
    }
  }

  lemma UserBit(perm: bv10)
    ensures (perm | PTE_V) & PTE_U == perm & PTE_U
  {
  }

  lemma InRangeOf(va: nat, size: nat, x: nat)
    requires size > 0 && va + size <= MAXVPN * PGSIZE && x / PGSIZE <= (va + size - 1) / PGSIZE
    ensures x < MAXVPN * PGSIZE && x / PGSIZE < VPNS
  {
    var q := x / PGSIZE;
    assert x == PGSIZE * q + x % PGSIZE;
  }

  /** The number of pages the bytes from va on lie in. */
  function Pages(va: nat, size: nat): nat
    requires size > 0
  {
    (va + size - 1) / PGSIZE - va / PGSIZE + 1
  }

  lemma LastPage(va: nat, size: nat)
    requires size > 0 && va + size <= MAXVPN * PGSIZE
    ensures va / PGSIZE <= (va + size - 1) / PGSIZE < MAXVPN
  {
  }

  /** What uvmunmap asks of a page: mapped by a leaf entry; the user's own, or the kernel's if it is not to be freed. */
  ghost predicate IsLeaf(v: Vm, r: nat, vpn: nat, own: bool) {
    var m := Lookup(v.mem, r, vpn);
    && m.Mapped? && m.flags != PTE_V
    && (m.page !in v.role || v.role[m.page] == Kernel || v.role[m.page] == User(r, vpn))
    && (own ==> m.page in v.role && v.role[m.page] == User(r, vpn))
  }

  lemma NextUnmapped(v: Vm, w: Vm, r: nat, a: nat, n: nat, p: nat, flags: bv10)
    requires MappedSome(v, w, r, a, n, p, flags) && r in v.roots && a + n < MAXVPN
             && Lookup(v.mem, r, a + n) == Unmapped
    ensures Lookup(w.mem, r, a + n) == Unmapped
  {
    hide Lookup;
  }

  lemma MappedRoots(v: Vm, w: Vm, r: nat, a: nat, n: nat, p: nat, flags: bv10)
    requires MappedSome(v, w, r, a, n, p, flags)
    ensures w.roots == v.roots
  {
  }

  lemma ShrunkRoots(v: Vm, w: Vm, r: nat, a: nat, n: nat, free: bool)
    requires Shrunk(v, w, r, a, n, free)
    ensures w.roots == v.roots
  {
  }

  lemma LeafEntry(v: Vm, r: nat, vpn: nat)
    requires HasSlot(v, r, vpn)
    ensures Lookup(v.mem, r, vpn) == MappingOf(v.mem[NodeAt(v.mem, r, PosOf(vpn, 0))][PX(0, vpn)])
  {
  }

  lemma NextLeaf(v: Vm, w: Vm, r: nat, a: nat, n: nat, own: bool)
    requires Wf(v) && Shrunk(v, w, r, a, n, own) && IsLeaf(v, r, a + n, own) && r in v.roots && a + n < MAXVPN
    ensures IsLeaf(w, r, a + n, own)
  {
    hide Lookup, FreeOk, NodesOk, BranchesOk, UsersOk;
    assert forall q :: q in v.role.Keys <==> q in w.role.Keys;
  }

  lemma LeafHasNode(v: Vm, r: nat, vpn: nat, own: bool)
    requires Wf(v) && r in v.roots && vpn < MAXVPN && IsLeaf(v, r, vpn, own)
    ensures HasSlot(v, r, vpn)
  {
    hide NodeAt, FreeOk, NodesOk, BranchesOk, UsersOk;
    ZeroInvalid();
  }

  lemma LeafChecks(v: Vm, r: nat, vpn: nat, own: bool)
    requires HasSlot(v, r, vpn) && IsLeaf(v, r, vpn, own)
    ensures var pte := v.mem[NodeAt(v.mem, r, PosOf(vpn, 0))][PX(0, vpn)];
            PageTables.Valid(pte) && Flags(pte) != PTE_V && Lookup(v.mem, r, vpn) == Mapped(Ppn(pte), Flags(pte))
  {
    hide NodeAt;
  }

  lemma LeafPage(v: Vm, w: Vm, r: nat, vpn: nat)
    requires HasSlot(v, r, vpn) && IsLeaf(v, r, vpn, true) && w == UnmapOne(v, r, vpn)
    ensures Lookup(v.mem, r, vpn).page in w.role && w.role[Lookup(v.mem, r, vpn).page] == New
  {
    hide NodeAt, Lookup;
  }

  lemma UnmappedStep(v: Vm, x: Vm, r: nat, vpn: nat, own: bool)
    requires Wf(v) && HasSlot(v, r, vpn) && IsLeaf(v, r, vpn, own)
    requires var w, q := UnmapOne(v, r, vpn), Lookup(v.mem, r, vpn).page;
             Wf(w) && OneMap(v, w, r, vpn, Unmapped) &&
             if own then q < |w.mem| && Top(w) * PGSIZE < 0x1_0000_0000_0000_0000 && x == Pushed(w, q) && SameMaps(w, x)
             else x == w
    ensures Shrunk(v, x, r, vpn, 1, own)
  {
    hide Lookup, NodeAt, FreeOk, NodesOk, BranchesOk, UsersOk, OneMap, SameMaps, Wf, Top;
    UnmappedIsShrunk(v, x, r, vpn, own);
  }

  // ---------- freewalk and uvmfree ----------

  lemma OnlyV()
    ensures PTE_V & (PTE_R | PTE_W | PTE_X) == 0
  {
  }

  lemma DoomedPage(v: Vm, m0: seq<Page>, r: nat, where: map<nat, Pos>, p: nat, pos: Pos)
    requires Doomed(v, m0, where, pos) && p in where && where[p] == pos
    ensures p < |v.mem| == |m0| && v.mem[p] == m0[p] && p in v.role && v.role[p] == New
  {
  }

  lemma GoodPlaces(m0: seq<Page>, r: nat, where: map<nat, Pos>)
    requires Tree(m0, r, where)
    ensures forall q :: q in where ==> Good(where[q])
  {
  }

  lemma EntriesStay(w: Vm, x: Vm, where: map<nat, Pos>, p: nat, pos: Pos, i: nat)
    requires !pos.Low? && AllFreed(w, x, where, ChildPos(pos, i)) && p in where && where[p] == pos && Good(pos)
             && i < 512 && p < |w.mem|
    ensures p < |x.mem| && x.mem[p] == w.mem[p]
  {
    BelowNext(pos, pos, i);
  }

  lemma ParentStays(v: Vm, w: Vm, x: Vm, where: map<nat, Pos>, p: nat, pos: Pos, i: nat)
    requires !pos.Low? && Freed(v, w, where, pos, i) && AllFreed(w, x, where, ChildPos(pos, i)) && p in where
             && where[p] == pos && Good(pos) && i < 512
    requires p in v.role && v.role[p] == New
    ensures p in x.role && x.role[p] == New && x.roots == v.roots
  {
    BelowNext(pos, pos, i);
    assert p in w.role.Keys && p in x.role.Keys;
  }

  lemma FreedRoots(v: Vm, w: Vm, where: map<nat, Pos>, pos: Pos, i: nat)
    requires Freed(v, w, where, pos, i)
    ensures w.roots == v.roots
  {
  }

  lemma StillHeld(v: Vm, w: Vm, where: map<nat, Pos>, p: nat, pos: Pos)
    requires Freed(v, w, where, pos, 512) && p in where && where[p] == pos && p in v.role && v.role[p] == New
    ensures p in w.role && w.role[p] == New
  {
    assert p in w.role.Keys;
  }

  lemma AllUnmapped(v: Vm, w: Vm, r: nat, n: nat)
    requires Shrunk(v, w, r, 0, n, true) && r in v.roots
             && forall vpn :: n <= vpn < VPNS ==> Lookup(v.mem, r, vpn) == Unmapped
    ensures forall vpn :: 0 <= vpn < VPNS ==> Lookup(w.mem, r, vpn) == Unmapped
  {
    hide Lookup;
  }

  lemma AllDoomed(v: Vm, r: nat)
    requires Wf(v) && r in v.roots
    ensures Doomed(Uprooted(v, r), v.mem, TablesOf(v, r), Root)
  {
    hide NodeAt, Lookup;
  }

  lemma OnePage(vpn: nat)
    requires vpn < MAXVPN
    ensures vpn * PGSIZE / PGSIZE == vpn && (vpn * PGSIZE + PGSIZE - 1) / PGSIZE == vpn
            && vpn * PGSIZE + PGSIZE <= MAXVPN * PGSIZE
    ensures Pages(vpn * PGSIZE, PGSIZE) == 1 && vpn * PGSIZE % PGSIZE == 0 && Up(vpn * PGSIZE) == vpn
  {
  }

  lemma UpBounds(sz: nat)
    requires sz <= MAXVPN * PGSIZE
    ensures Up(sz) <= MAXVPN && (Up(sz) * PGSIZE) / PGSIZE == Up(sz)
  {
  }

  lemma UpGrows(a: nat, b: nat)
    requires a <= b
    ensures Up(a) <= Up(b) && (b <= MAXVPN * PGSIZE ==> Up(b) <= MAXVPN)
  {
  }

  lemma UpBelow(a: nat, sz: nat)
    requires a * PGSIZE < sz
    ensures a < Up(sz) && Up(a * PGSIZE) == a
  {
  }

  lemma UpReached(a: nat, sz: nat)
    requires a * PGSIZE >= sz && a <= Up(sz)
    ensures a == Up(sz)
  {
  }

  lemma StillNew(v: Vm, w: Vm, r: nat, vpn: nat, p: nat, flags: bv10)
    requires MappedSome(v, w, r, vpn, 0, p, flags) && p in v.role && v.role[p] == New
    ensures p in w.role && w.role[p] == New
  {
    assert RoleMapped(v.role[p], w.role[p], p, r, vpn, 0, p);
    assert p in w.role.Keys;
  }

  // ---------- what uvmalloc and uvmcopy hand out ----------

  function Blank(n: nat, flags: bv10): (r: seq<(bv10, Page)>)
    ensures |r| == n
  {
    seq(n, _ => (flags, ZeroPage()))
  }

  lemma BlankNone(flags: bv10)
    ensures Blank(0, flags) == []
  {
  }

  lemma BlankOneMore(n: nat, flags: bv10)
    ensures Blank(n, flags) + [(flags, ZeroPage())] == Blank(n + 1, flags)
  {
  }

  ghost predicate Copyable(v: Vm, r: nat, vpn: nat) {
    var m := Lookup(v.mem, r, vpn);
    && m.Mapped? && m.flags != PTE_V && m.page in v.role && m.page < |v.mem|
       && (v.role[m.page].User? || v.role[m.page] == Kernel)
  }

  /** The flags and contents of the first n pages of an address space. */
  ghost function Copies(v: Vm, r: nat, n: nat): (s: seq<(bv10, Page)>)
    ensures |s| == n
    decreases n
  {
    if n == 0 then [] else
    var m := Lookup(v.mem, r, n - 1);
    Copies(v, r, n - 1) + [if m.Mapped? && m.page < |v.mem| then (m.flags, v.mem[m.page]) else (0, ZeroPage())]
  }

  lemma {:induction false} CopiesAt(v: Vm, r: nat, n: nat, k: nat)
    requires k < n && Copyable(v, r, k)
    ensures Copies(v, r, n)[k] == (Lookup(v.mem, r, k).flags, v.mem[Lookup(v.mem, r, k).page])
    decreases n
  {
    hide Lookup;
    if k < n - 1 { CopiesAt(v, r, n - 1, k); }
  }

  lemma NoCopies(v: Vm, r: nat)
    ensures Copies(v, r, 0) == []
  {
  }

  lemma CopiesNext(v: Vm, r: nat, n: nat, e: (bv10, Page))
    requires Copyable(v, r, n) && e == (Lookup(v.mem, r, n).flags, v.mem[Lookup(v.mem, r, n).page])
    ensures Copies(v, r, n) + [e] == Copies(v, r, n + 1)
  {
    hide Lookup;
  }

  lemma GrownElsewhere(v: Vm, w: Vm, r: nat, a: nat, want: seq<(bv10, Page)>, vpn: nat)
    requires Grown(v, w, r, a, want) && r in v.roots && a + |want| <= vpn < VPNS
    ensures Lookup(w.mem, r, vpn) == Lookup(v.mem, r, vpn)
  {
    hide Lookup, Got;
  }

  lemma GrownRoots(v: Vm, w: Vm, r: nat, a: nat, want: seq<(bv10, Page)>)
    requires Grown(v, w, r, a, want)
    ensures w.roots == v.roots
  {
  }

  lemma GotIsLeaf(v: Vm, w: Vm, r: nat, a: nat, want: seq<(bv10, Page)>, vpn: nat)
    requires Grown(v, w, r, a, want) && a <= vpn < a + |want| && want[vpn - a].0 != PTE_V
    ensures IsLeaf(w, r, vpn, true)
  {
    hide Lookup;
    assert Got(v, w, r, a + (vpn - a), want[vpn - a]);
  }

  lemma NotBranch(x: bv10)
    ensures PTE_R | PTE_U | x | PTE_V != PTE_V
  {
  }

  lemma BlankLeaves(v: Vm, w: Vm, r: nat, a: nat, n: nat, x: bv10)
    requires Grown(v, w, r, a, Blank(n, PTE_R | PTE_U | x | PTE_V))
    ensures forall vpn :: a <= vpn < a + n ==> IsLeaf(w, r, vpn, true)
  {
    hide Grown, IsLeaf;
    NotBranch(x);
    forall vpn | a <= vpn < a + n
      ensures IsLeaf(w, r, vpn, true)
    {
      GotIsLeaf(v, w, r, a, Blank(n, PTE_R | PTE_U | x | PTE_V), vpn);
    }
  }

  lemma CopiesLeaves(v: Vm, w: Vm, parent: nat, child: nat, n: nat)
    requires Grown(v, w, child, 0, Copies(v, parent, n)) && forall vpn :: 0 <= vpn < n ==> Copyable(v, parent, vpn)
    ensures forall vpn :: 0 <= vpn < n ==> IsLeaf(w, child, vpn, true)
  {
    hide Grown, IsLeaf, Lookup, Copies;
    forall vpn | 0 <= vpn < n ensures IsLeaf(w, child, vpn, true) {
      assert Copyable(v, parent, vpn);
      CopiesAt(v, parent, n, vpn);
      GotIsLeaf(v, w, child, 0, Copies(v, parent, n), vpn);
    }
  }

  /** What the parent has is still to be copied as it was. */
  lemma SourceStays(v: Vm, w: Vm, parent: nat, child: nat, want: seq<(bv10, Page)>, vpn: nat)
    requires Grown(v, w, child, 0, want) && Copyable(v, parent, vpn) && parent in v.roots && parent != child
             && vpn < VPNS
    ensures Copyable(w, parent, vpn) && Lookup(w.mem, parent, vpn) == Lookup(v.mem, parent, vpn)
    ensures w.mem[Lookup(w.mem, parent, vpn).page] == v.mem[Lookup(v.mem, parent, vpn).page]
  {
    hide Lookup, Got;
    assert Lookup(v.mem, parent, vpn).page in w.role.Keys by { assert Lookup(v.mem, parent, vpn).page in v.role.Keys; }
  }

  lemma CopyableHasNode(v: Vm, r: nat, vpn: nat)
    requires Wf(v) && r in v.roots && vpn < MAXVPN && Copyable(v, r, vpn)
    ensures HasSlot(v, r, vpn)
  {
    hide NodeAt, FreeOk, NodesOk, BranchesOk, UsersOk;
    ZeroInvalid();
  }

  lemma CopyableEntry(v: Vm, r: nat, vpn: nat)
    requires HasSlot(v, r, vpn) && Copyable(v, r, vpn)
    ensures var pte := v.mem[NodeAt(v.mem, r, PosOf(vpn, 0))][PX(0, vpn)];
            PageTables.Valid(pte) && Lookup(v.mem, r, vpn) == Mapped(Ppn(pte), Flags(pte)) && Ppn(pte) < |v.mem|
            && Flags(pte) | PTE_V == Flags(pte)
  {
    hide NodeAt;
    BitOn(Flags(v.mem[NodeAt(v.mem, r, PosOf(vpn, 0))][PX(0, vpn)]));
  }

  lemma RootNode(v: Vm, r: nat)
    requires Wf(v) && r in v.roots
    ensures NodeAt(v.mem, r, Root) == r && 0 < r < |v.mem|
  {
    TableAtRoot(v, r);
  }

  /** A valid entry of a table leads to the next table. */
  lemma NextNode(v: Vm, r: nat, pos: Pos, i: nat)
    requires Wf(v) && r in v.roots && Good(pos) && !pos.Low? && i < 512 && NodeAt(v.mem, r, pos) != 0
    ensures NodeAt(v.mem, r, pos) < |v.mem|
    ensures PageTables.Valid(v.mem[NodeAt(v.mem, r, pos)][i]) ==>
              Ppn(v.mem[NodeAt(v.mem, r, pos)][i]) == NodeAt(v.mem, r, ChildPos(pos, i))
              && NodeAt(v.mem, r, ChildPos(pos, i)) < |v.mem|
              && NodeAt(v.mem, r, ChildPos(pos, i)) != 0
  {
    hide NodeAt, FreeOk, UsersOk;
    TableAt(v, r, pos);
    NodeAtChild(v.mem, r, pos, i);
    if NodeAt(v.mem, r, ChildPos(pos, i)) != 0 { TableAt(v, r, ChildPos(pos, i)); }
  }

  lemma NoLowNode(mem: seq<Page>, r: nat, vpn: nat, level: nat)
    requires 1 <= level <= 2 && NodeAt(mem, r, PosOf(vpn, level - 1)) == 0
    ensures NodeAt(mem, r, PosOf(vpn, 0)) == 0
  {
  }

  /** Taking and clearing a page leaves the tables where they were. */
  lemma NodeWhere(v: Vm, w: Vm, r: nat, pos: Pos, i: nat)
    requires Wf(v) && |v.free| > 0 && Top(v) < |v.mem| && w == Filled(Popped(v), Top(v), ZeroPage()) && Wf(w)
             && Top(v) in w.role
    requires SameTables(v, Popped(v)) && SameTables(Popped(v), w)
    requires r in v.roots && Good(pos) && !pos.Low? && i < 512 && NodeAt(v.mem, r, pos) != 0
             && NodeAt(v.mem, r, pos) < |v.mem|
    requires !PageTables.Valid(v.mem[NodeAt(v.mem, r, pos)][i])
    ensures CanGraft(w, r, pos, i, Top(v)) && NodeAt(w.mem, r, pos) == NodeAt(v.mem, r, pos)
            && w.mem[NodeAt(v.mem, r, pos)] == v.mem[NodeAt(v.mem, r, pos)]
  {
    hide NodeAt, FreeOk, BranchesOk, UsersOk, PageTables.Valid, Junk;
    TableAt(v, r, pos);
    PoppedFrame(v);
  }

  lemma GraftEvolved(v: Vm, w: Vm, r: nat, pos: Pos, i: nat, q: nat)
    requires Wf(v) && |v.free| > 0 && q == Top(v) && q < |v.mem| && w == Filled(Popped(v), q, ZeroPage())
    requires CanGraft(w, r, pos, i, q) && SameMaps(v, Popped(v)) && SameMaps(Popped(v), w)
             && SameMaps(w, Grafted(w, r, pos, i, q))
    ensures Evolved(v, Grafted(w, r, pos, i, q)) && Settled(v, Grafted(w, r, pos, i, q), r)
            && SameMaps(v, Grafted(w, r, pos, i, q))
    ensures q < |Grafted(w, r, pos, i, q).mem|
  {
    hide NodeAt, Lookup, FreeOk, BranchesOk, UsersOk, PageTables.Valid, Junk, MakePte;
    PoppedFrame(v);
    TableAt(w, r, pos);
    var x := Grafted(w, r, pos, i, q);
    assert v.role.Keys == x.role.Keys;
  }
}
