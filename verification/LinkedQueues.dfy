/**
  The doubly linked queues of the multilevel feedback scheduler (project1c kernel/proc.c): each element is a page
  holding a process and two links, and each queue refines a sequence of processes.
 */
module LinkedQueues {
  const LEVELS: nat := 10      // MLFQ_MAX_LEVEL

  datatype Element = Element(proc: nat, next: nat, prev: nat)

  type Elements = map<nat, Element>

  /** Element pages by address, the head of each queue, and the addresses of each queue's elements in order. */
  datatype Arena = Arena(elem: Elements, heads: seq<nat>, lists: seq<seq<nat>>)

  function NextOf(l: seq<nat>, k: nat): nat { if k + 1 < |l| then l[k + 1] else 0 }

  function PrevOf(l: seq<nat>, k: nat): nat
    requires k < |l|
  {
    if k == 0 then 0 else l[k - 1]
  }

  ghost predicate NodeOk(elem: Elements, l: seq<nat>, k: nat)
    requires k < |l|
  {
    l[k] != 0 && l[k] in elem && elem[l[k]].next == NextOf(l, k) && elem[l[k]].prev == PrevOf(l, k)
  }

  ghost predicate Linked(elem: Elements, head: nat, l: seq<nat>) {
    head == (if |l| == 0 then 0 else l[0]) && forall k :: 0 <= k < |l| ==> NodeOk(elem, l, k)
  }

  ghost predicate Apart(lists: seq<seq<nat>>) {
    forall q, k, r, j ::
      0 <= q < |lists| && 0 <= r < |lists| && 0 <= k < |lists[q]| && 0 <= j < |lists[r]|
      && lists[q][k] == lists[r][j] ==>
      q == r && k == j
  }

  ghost predicate Wf(a: Arena) {
    && |a.heads| == |a.lists| == LEVELS && Apart(a.lists)
    && (forall q :: 0 <= q < LEVELS ==> Linked(a.elem, a.heads[q], a.lists[q]))
  }

  /** The processes of a list of elements. */
  ghost function Procs(elem: Elements, l: seq<nat>): (r: seq<nat>)
    requires forall k :: 0 <= k < |l| ==> l[k] in elem
    ensures |r| == |l| && forall k :: 0 <= k < |l| ==> r[k] == elem[l[k]].proc
  {
    seq(|l|, k requires 0 <= k < |l| => elem[l[k]].proc)
  }

  ghost function Queue(a: Arena, q: nat): seq<nat>
    requires Wf(a) && q < LEVELS
  {
    InElem(a, q);
    Procs(a.elem, a.lists[q])
  }

  lemma InElem(a: Arena, q: nat)
    requires Wf(a) && q < LEVELS
    ensures forall k :: 0 <= k < |a.lists[q]| ==> a.lists[q][k] in a.elem
  {
    forall k | 0 <= k < |a.lists[q]| ensures a.lists[q][k] in a.elem { assert NodeOk(a.elem, a.lists[q], k); }
  }

  // ---------- mlfq_enque ----------

  function Last(l: seq<nat>): nat { if |l| == 0 then 0 else l[|l| - 1] }

  function Appended(a: Arena, q: nat, page: nat, x: nat): Arena
    requires q < |a.heads| && q < |a.lists| && (|a.lists[q]| > 0 ==> Last(a.lists[q]) in a.elem)
  {
    var l := a.lists[q];
    var t := Last(l);
    if |l| == 0 then Arena(a.elem[page := Element(x, 0, 0)], a.heads[q := page], a.lists[q := [page]])
    else Arena(a.elem[t := Element(a.elem[t].proc, page, a.elem[t].prev)][page := Element(x, 0, t)], a.heads,
        a.lists[q := l + [page]])
  }

  ghost predicate Unused(a: Arena, page: nat) {
    page != 0 && page !in a.elem
  }

  /** What a list needs of memory is only its own elements. */
  lemma LinkedFrame(elem: Elements, elem2: Elements, head: nat, l: seq<nat>)
    requires Linked(elem, head, l)
             && forall k :: 0 <= k < |l| && l[k] in elem ==> l[k] in elem2 && elem2[l[k]] == elem[l[k]]
    ensures Linked(elem2, head, l)
    ensures forall k :: 0 <= k < |l| ==> l[k] in elem && l[k] in elem2
    ensures Procs(elem2, l) == Procs(elem, l)
  {
    forall k | 0 <= k < |l| ensures NodeOk(elem2, l, k) && l[k] in elem { assert NodeOk(elem, l, k); }
  }

  lemma AppendKeeps(a: Arena, q: nat, page: nat, x: nat)
    requires Wf(a) && q < LEVELS && Unused(a, page) && (|a.lists[q]| > 0 ==> Last(a.lists[q]) in a.elem)
    ensures Wf(Appended(a, q, page, x)) && Queue(Appended(a, q, page, x), q) == Queue(a, q) + [x]
    ensures forall r :: 0 <= r < LEVELS && r != q ==> Queue(Appended(a, q, page, x), r) == Queue(a, r)
  {
    var b, l := Appended(a, q, page, x), a.lists[q];
    InElem(a, q);
    forall r | 0 <= r < LEVELS && r != q ensures Linked(b.elem, b.heads[r], b.lists[r]) {
      InElem(a, r);
      LinkedFrame(a.elem, b.elem, a.heads[r], a.lists[r]);
    }
    forall k | 0 <= k < |b.lists[q]| ensures NodeOk(b.elem, b.lists[q], k) {
      if k < |l| { assert NodeOk(a.elem, l, k); }
    }
    assert Apart(b.lists) by { AppendApart(a, q, page, x); }
    QueueAppended(a, q, page, x);
    forall r | 0 <= r < LEVELS && r != q
      ensures Queue(b, r) == Queue(a, r)
    {
      LinkedFrame(a.elem, b.elem, a.heads[r], a.lists[r]);
    }
  }

  lemma AppendApart(a: Arena, q: nat, page: nat, x: nat)
    requires Wf(a) && q < LEVELS && Unused(a, page) && (|a.lists[q]| > 0 ==> Last(a.lists[q]) in a.elem)
    ensures Apart(Appended(a, q, page, x).lists)
  {
    forall r | 0 <= r < LEVELS ensures forall k :: 0 <= k < |a.lists[r]| ==> a.lists[r][k] != page { InElem(a, r); }
  }

  lemma QueueAppended(a: Arena, q: nat, page: nat, x: nat)
    requires Wf(a) && q < LEVELS && Unused(a, page) && (|a.lists[q]| > 0 ==> Last(a.lists[q]) in a.elem)
             && Wf(Appended(a, q, page, x))
    ensures Queue(Appended(a, q, page, x), q) == Queue(a, q) + [x]
  {
    InElem(a, q);
    InElem(Appended(a, q, page, x), q);
  }

  // ---------- mlfq_delete and mlfq_deque ----------

  function Without<T>(l: seq<T>, k: nat): seq<T>
    requires k < |l|
  {
    l[..k] + l[k + 1..]
  }

  /** The k-th element unlinked; its page keeps its contents. */
  function Unlinked(a: Arena, q: nat, k: nat): Arena
    requires q < |a.heads| && q < |a.lists| && k < |a.lists[q]|
    requires forall j :: 0 <= j < |a.lists[q]| ==> a.lists[q][j] in a.elem
  {
    var l := a.lists[q];
    var e1 := if k == 0 then a.elem
      else a.elem[l[k - 1] := Element(a.elem[l[k - 1]].proc, NextOf(l, k), a.elem[l[k - 1]].prev)];
    var e2 := if k + 1 == |l| then e1
      else e1[l[k + 1] := Element(a.elem[l[k + 1]].proc, a.elem[l[k + 1]].next, PrevOf(l, k))];
    Arena(e2, if k == 0 then a.heads[q := NextOf(l, k)] else a.heads, a.lists[q := Without(l, k)])
  }

  lemma UnlinkKeeps(a: Arena, q: nat, k: nat)
    requires Wf(a) && q < LEVELS && k < |a.lists[q]|
    ensures forall j :: 0 <= j < |a.lists[q]| ==> a.lists[q][j] in a.elem
    ensures Wf(Unlinked(a, q, k)) && Queue(Unlinked(a, q, k), q) == Without(Queue(a, q), k)
    ensures forall r :: 0 <= r < LEVELS && r != q ==> Queue(Unlinked(a, q, k), r) == Queue(a, r)
    ensures a.lists[q][k] in Unlinked(a, q, k).elem && Unlinked(a, q, k).elem[a.lists[q][k]] == a.elem[a.lists[q][k]]
    ensures forall x :: x in a.elem <==> x in Unlinked(a, q, k).elem
  {
    InElem(a, q);
    var b, l := Unlinked(a, q, k), a.lists[q];
    hide Apart, Linked, Queue, NodeOk;
    UnlinkApart(a, q, k);
    UnlinkedLinks(a, q, k);
    InListApart(a, q, k);
    forall r | 0 <= r < LEVELS && r != q ensures Linked(b.elem, b.heads[r], b.lists[r]) {
      UnlinkFrame(a, q, k, r);
    }
    QueueUnlinked(a, q, k);
    forall r | 0 <= r < LEVELS && r != q
      ensures Queue(b, r) == Queue(a, r)
    {
      UnlinkFrame(a, q, k, r);
      SameProcs(a, b, r);
    }
  }

  lemma SameProcs(a: Arena, b: Arena, r: nat)
    requires Wf(a) && Wf(b) && r < LEVELS && b.lists[r] == a.lists[r]
    requires forall j ::
               0 <= j < |a.lists[r]| ==>
                 a.lists[r][j] in a.elem && a.lists[r][j] in b.elem && b.elem[a.lists[r][j]] == a.elem[a.lists[r][j]]
    ensures Queue(b, r) == Queue(a, r)
  {
    InElem(a, r);
    InElem(b, r);
  }

  lemma UnlinkFrame(a: Arena, q: nat, k: nat, r: nat)
    requires Wf(a) && q < LEVELS && k < |a.lists[q]| && r < LEVELS && r != q
    requires forall j :: 0 <= j < |a.lists[q]| ==> a.lists[q][j] in a.elem
    ensures var b := Unlinked(a, q, k);
            r < |b.heads| && r < |b.lists| && b.heads[r] == a.heads[r] && b.lists[r] == a.lists[r]
            && Linked(b.elem, b.heads[r], b.lists[r])
            && forall j ::
                 0 <= j < |a.lists[r]| ==>
                   a.lists[r][j] in a.elem && a.lists[r][j] in b.elem && b.elem[a.lists[r][j]] == a.elem[a.lists[r][j]]
  {
    hide NodeOk;
    InElem(a, r);
    LinkedFrame(a.elem, Unlinked(a, q, k).elem, a.heads[r], a.lists[r]);
  }

  /** The list itself is linked up again around the gap. */
  lemma UnlinkedLinks(a: Arena, q: nat, k: nat)
    requires Wf(a) && q < LEVELS && k < |a.lists[q]| && forall j :: 0 <= j < |a.lists[q]| ==> a.lists[q][j] in a.elem
    ensures var b := Unlinked(a, q, k); Linked(b.elem, b.heads[q], b.lists[q])
  {
    hide Apart;
    var b, l := Unlinked(a, q, k), a.lists[q];
    var g := Without(l, k);
    assert NodeOk(a.elem, l, k);
    forall i | 0 <= i < |g| ensures NodeOk(b.elem, g, i) {
      var x := if i < k then i else i + 1;
      assert g[i] == l[x] && NodeOk(a.elem, l, x);
      InOwnList(a, q, x, k - 1);
      InOwnList(a, q, k + 1, k - 1);
      InOwnList(a, q, x, k + 1);
    }
  }

  /** Different places in one list are different pages. */
  lemma InOwnList(a: Arena, q: nat, i: int, j: int)
    requires Wf(a) && q < LEVELS
    ensures 0 <= i < |a.lists[q]| && 0 <= j < |a.lists[q]| && i != j ==> a.lists[q][i] != a.lists[q][j]
  {
  }

  lemma UnlinkApart(a: Arena, q: nat, k: nat)
    requires Wf(a) && q < LEVELS && k < |a.lists[q]|
    ensures Apart(a.lists[q := Without(a.lists[q], k)])
  {
    var l, b := a.lists[q], a.lists[q := Without(a.lists[q], k)];
    forall i | 0 <= i < |b[q]| ensures b[q][i] == l[if i < k then i else i + 1] {}
  }

  lemma QueueUnlinked(a: Arena, q: nat, k: nat)
    requires Wf(a) && q < LEVELS && k < |a.lists[q]| && (forall j :: 0 <= j < |a.lists[q]| ==> a.lists[q][j] in a.elem)
             && Wf(Unlinked(a, q, k))
    ensures Queue(Unlinked(a, q, k), q) == Without(Queue(a, q), k)
  {
    InElem(a, q);
    var b := Unlinked(a, q, k);
    InElem(b, q);
    var r, s := Queue(b, q), Without(Queue(a, q), k);
    forall i | 0 <= i < |r| ensures r[i] == s[i] {
      assert b.lists[q][i] == a.lists[q][if i < k then i else i + 1];
    }
  }

  // ---------- the sequence operations the queues refine ----------

  /** The sequence without its first x, or as it is if it has none. */
  function RemoveFirst(s: seq<nat>, x: nat): (r: seq<nat>) {
    if |s| == 0 then [] else if s[0] == x then s[1..] else [s[0]] + RemoveFirst(s[1..], x)
  }

  lemma {:induction false} RemoveFirstAt(s: seq<nat>, x: nat, k: nat)
    requires k < |s| && s[k] == x && forall j :: 0 <= j < k ==> s[j] != x
    ensures RemoveFirst(s, x) == Without(s, k)
  {
    if k > 0 {
      RemoveFirstAt(s[1..], x, k - 1);
      assert [s[0]] + Without(s[1..], k - 1) == Without(s, k);
    } else {
      assert s[1..] == Without(s, 0);
    }
  }

  lemma {:induction false} RemoveAbsent(s: seq<nat>, x: nat)
    requires x !in s
    ensures RemoveFirst(s, x) == s
  {
    if |s| > 0 { RemoveAbsent(s[1..], x); assert s == [s[0]] + s[1..]; }
  }

  class Queues {
    var elem: Elements
    var heads: seq<nat>
    var nextPage: nat             // kalloc hands out pages in order here; a reused page would do as well
    ghost var lists: seq<seq<nat>>

    ghost function A(): Arena
      reads this
    {
      Arena(elem, heads, lists)
    }

    ghost predicate Valid()
      reads this
    {
      Wf(A()) && 0 < nextPage && forall x :: x in elem ==> x < nextPage
    }

    /** The contents of queue q as a sequence of processes. */
    ghost function Contents(q: nat): seq<nat>
      requires Valid() && q < LEVELS
      reads this
    {
      Queue(A(), q)
    }

    ghost predicate Same(a: Arena, q: nat)
      requires Wf(a) && Valid()
      reads this
    {
      forall r :: 0 <= r < LEVELS && r != q ==> Contents(r) == Queue(a, r)
    }

    constructor ()
      ensures Valid() && forall q :: 0 <= q < LEVELS ==> Contents(q) == []
    {
      elem, heads, nextPage := map[], seq(LEVELS, _ => 0), 1;
      lists := seq(LEVELS, _ => []);
    }

    /** startMLFQ forgets whatever stood in the queues. */
    method Clear()
      requires Valid()
      modifies this
      ensures Valid() && forall q :: 0 <= q < LEVELS ==> Contents(q) == []
    {
      heads, lists := seq(LEVELS, _ => 0), seq(LEVELS, _ => []);
    }

    /** mlfq_enque with a kalloc that succeeds: the process goes to the end of the queue. */
    method Enque(q: nat, x: nat)
      requires Valid() && q < LEVELS
      modifies this
      ensures Valid() && Contents(q) == old(Contents(q)) + [x] && Same(old(A()), q)
      ensures |lists| == |old(lists)| == LEVELS && forall r :: 0 <= r < LEVELS && r != q ==> lists[r] == old(lists)[r]
      ensures forall e :: e in old(elem) ==> e in elem && elem[e].proc == old(elem)[e].proc
    {
      hide Linked, Apart;
      ghost var a := A();
      QueueShape(a, q);
      var page := nextPage;
      nextPage := nextPage + 1;
      AppendKeeps(a, q, page, x);
      ghost var b := Appended(a, q, page, x);
      elem := elem[page := Element(x, 0, 0)];
      if heads[q] == 0 {
        heads := heads[q := page];
      } else {
        var tail := heads[q];
        ghost var k: nat := 0;
        NodeThere(a, q, 0);
        while elem[tail].next != 0
          invariant k < |a.lists[q]| && tail == a.lists[q][k] && tail in a.elem && tail in elem
                    && elem[tail] == a.elem[tail] && NodeOk(a.elem, a.lists[q], k)
          modifies {}
          decreases |a.lists[q]| - k
        {
          NodeThere(a, q, k + 1);
          tail := elem[tail].next;
          k := k + 1;
        }
        NoNextIsLast(a, q, k);
        elem := elem[tail := Element(elem[tail].proc, page, elem[tail].prev)];
        elem := elem[page := Element(elem[page].proc, elem[page].next, tail)];
      }
      lists := b.lists;
      assert A() == b;
    }

    /** mlfq_deque: the first process of the queue, whose element page goes back to kalloc; none if it is empty. */
    method Deque(q: nat) returns (found: bool, x: nat)
      requires Valid() && q < LEVELS
      modifies this
      ensures Valid() && Same(old(A()), q) && found == (old(Contents(q)) != [])
      ensures found ==> [x] + Contents(q) == old(Contents(q))
      ensures !found ==> Contents(q) == []
    {
      hide Linked, Apart;
      ghost var a := A();
      QueueShape(a, q);
      if heads[q] == 0 {
        return false, 0;
      }
      var first := heads[q];
      NodeThere(a, q, 0);
      x := elem[first].proc;
      UnlinkKeeps(a, q, 0);
      ghost var b := Unlinked(a, q, 0);
      heads := heads[q := elem[first].next];
      if heads[q] != 0 {
        NodeThere(a, q, 1);
        elem := elem[heads[q] := Element(elem[heads[q]].proc, elem[heads[q]].next, 0)];
      }
      lists := b.lists;
      assert A() == b;
      Dropped(b, first, a, q);
      elem := map e | e in elem && e != first :: elem[e];
      found := true;
    }

    /** mlfq_delete: the first occurrence of the process in the queue, if any, is unlinked; its page is not freed. */
    method Delete(q: nat, x: nat) returns (ghost at: nat)
      requires Valid() && q < LEVELS
      modifies this
      ensures Valid() && Contents(q) == RemoveFirst(old(Contents(q)), x) && Same(old(A()), q)
      ensures |lists| == |old(lists)| == LEVELS && forall r :: 0 <= r < LEVELS && r != q ==> lists[r] == old(lists)[r]
      ensures forall e :: e in old(elem) ==> e in elem && elem[e].proc == old(elem)[e].proc
      ensures at <= |old(lists)[q]| && (at == |old(lists)[q]| <==> x !in old(Contents(q)))
      ensures x !in old(Contents(q)) ==> Contents(q) == old(Contents(q))
      ensures at < |old(Contents(q))| ==> Contents(q) == old(Contents(q))[..at] + old(Contents(q))[at + 1..]
      ensures at < |old(lists)[q]| ==>
                old(Contents(q))[at] == x && x !in old(Contents(q))[..at] && lists[q] == Without(old(lists)[q], at)
                && old(lists)[q][at] in old(elem) && old(lists)[q][at] in elem
                   && elem[old(lists)[q][at]] == old(elem)[old(lists)[q][at]]
    {
      hide Linked, Apart, NodeOk, Wf;
      ghost var a := A();
      QueueShape(a, q);
      ghost var was := Contents(q);
      var current: nat;
      current, at := Search(q, x);
      if current != 0 {
        UnlinkKeeps(a, q, at);
        RemoveFirstAt(was, x, at);
        UnlinkByHand(current, q, at, a);
      } else {
        assert was[..at] == was;
        RemoveAbsent(was, x);
      }
    }

    /** The search of mlfq_delete: the first element with the process, 0 if there is none. */
    method Search(q: nat, x: nat) returns (current: nat, ghost at: nat)
      requires Valid() && q < LEVELS
      ensures |heads| == |lists| == LEVELS && |Contents(q)| == |lists[q]|
      ensures at <= |lists[q]| && (current == 0 <==> at == |lists[q]|) && x !in Contents(q)[..at]
      ensures at < |lists[q]| ==> current == lists[q][at] && Contents(q)[at] == x
    {
      hide Linked, Apart;
      ghost var a := A();
      QueueShape(a, q);
      ghost var was, l := Contents(q), lists[q];
      at := 0;
      current := heads[q];
      while current != 0
        invariant at <= |l| && current == (if at < |l| then l[at] else 0) && x !in was[..at]
        decreases |l| - at
      {
        NodeThere(a, q, at);
        if elem[current].proc == x {
          return;
        }
        if at + 1 < |l| { NodeThere(a, q, at + 1); }
        assert was[..at + 1] == was[..at] + [was[at]];
        current := elem[current].next;
        at := at + 1;
      }
    }

    /** The pointer writes of mlfq_delete. */
    method UnlinkByHand(current: nat, q: nat, ghost k: nat, ghost a: Arena)
      requires Valid() && A() == a && q < LEVELS && |a.lists| == LEVELS && k < |a.lists[q]| && current == a.lists[q][k]
      requires forall j :: 0 <= j < |a.lists[q]| ==> a.lists[q][j] in a.elem
      requires Wf(Unlinked(a, q, k)) && forall x :: x in a.elem <==> x in Unlinked(a, q, k).elem
      modifies this
      ensures Valid() && A() == Unlinked(a, q, k) && nextPage == old(nextPage)
    {
      hide Wf;
      QueueShape(a, q);
      ghost var b := Unlinked(a, q, k);
      InListApart(a, q, k);
      NodeThere(a, q, k);
      if k > 0 { NodeThere(a, q, k - 1); }
      if k + 1 < |a.lists[q]| { NodeThere(a, q, k + 1); }
      var e := elem[current];
      if e.prev == 0 {
        heads := heads[q := e.next];
      } else {
        elem := elem[e.prev := Element(elem[e.prev].proc, e.next, elem[e.prev].prev)];
      }
      if e.next != 0 {
        elem := elem[e.next := Element(elem[e.next].proc, elem[e.next].next, e.prev)];
      }
      lists := b.lists;
      assert elem == b.elem;
      assert A() == b;
    }
  }

  lemma QueueShape(a: Arena, q: nat)
    requires Wf(a) && q < LEVELS
    ensures |a.heads| == |a.lists| == LEVELS && a.heads[q] == (if |a.lists[q]| == 0 then 0 else a.lists[q][0])
    ensures forall k :: 0 <= k < |a.lists[q]| ==> a.lists[q][k] in a.elem && a.lists[q][k] != 0
  {
    forall k | 0 <= k < |a.lists[q]|
      ensures a.lists[q][k] in a.elem && a.lists[q][k] != 0
    {
      assert NodeOk(a.elem, a.lists[q], k);
    }
  }

  lemma NoNextIsLast(a: Arena, q: nat, k: nat)
    requires Wf(a) && q < LEVELS && k < |a.lists[q]| && a.lists[q][k] in a.elem && a.elem[a.lists[q][k]].next == 0
    ensures k + 1 == |a.lists[q]|
  {
    assert NodeOk(a.elem, a.lists[q], k);
    forall j | 0 <= j < |a.lists[q]| ensures a.lists[q][j] != 0 { assert NodeOk(a.elem, a.lists[q], j); }
  }

  lemma NodeThere(a: Arena, q: nat, k: nat)
    requires Wf(a) && q < LEVELS && k < |a.lists[q]|
    ensures NodeOk(a.elem, a.lists[q], k) && Queue(a, q)[k] == a.elem[a.lists[q][k]].proc
  {
    InElem(a, q);
  }

  lemma InListApart(a: Arena, q: nat, k: nat)
    requires Wf(a) && q < LEVELS && k < |a.lists[q]|
    ensures forall i :: 0 <= i < |a.lists[q]| && i != k ==> a.lists[q][i] != a.lists[q][k]
    ensures 0 < k && k + 1 < |a.lists[q]| ==> a.lists[q][k - 1] != a.lists[q][k + 1]
  {
    InOwnList(a, q, k - 1, k + 1);
  }

  /** A page that is in no list may be given back. */
  lemma Dropped(b: Arena, page: nat, a: Arena, q: nat)
    requires Wf(a) && Wf(b) && q < LEVELS && |a.lists[q]| > 0 && page == a.lists[q][0]
             && b.lists == a.lists[q := Without(a.lists[q], 0)]
    ensures var e := map e | e in b.elem && e != page :: b.elem[e];
            Wf(Arena(e, b.heads, b.lists))
            && forall r :: 0 <= r < LEVELS ==> Queue(Arena(e, b.heads, b.lists), r) == Queue(b, r)
  {
    var e := map e | e in b.elem && e != page :: b.elem[e];
    forall r | 0 <= r < LEVELS
      ensures Linked(e, b.heads[r], b.lists[r])
      ensures (forall k :: 0 <= k < |b.lists[r]| ==> b.lists[r][k] in b.elem && b.lists[r][k] in e)
              && Procs(b.elem, b.lists[r]) == Procs(e, b.lists[r]) {
      InElem(b, r);
      forall k | 0 <= k < |b.lists[r]| ensures b.lists[r][k] != page {
        if r == q { assert b.lists[r][k] == a.lists[q][k + 1]; }
      }
      LinkedFrame(b.elem, e, b.heads[r], b.lists[r]);
    }
  }
}
