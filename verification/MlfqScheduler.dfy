/**
  MLFQ_scheduler, startMLFQ and stopMLFQ of project1c kernel/proc.c, on one CPU. Running a process is any change of
  process states.
 */
module MlfqScheduler {
  import opened LinkedQueues
  import opened Feedback

  ghost function AllQueues(a: Arena): (r: seq<seq<nat>>)
    requires Wf(a)
    ensures |r| == LEVELS && forall q :: 0 <= q < LEVELS ==> r[q] == Queue(a, q)
  {
    seq(LEVELS, q requires 0 <= q < LEVELS => Queue(a, q))
  }

  lemma OneQueue(a: Arena, b: Arena, q: nat)
    requires Wf(a) && Wf(b) && q < LEVELS && forall r :: 0 <= r < LEVELS && r != q ==> Queue(b, r) == Queue(a, r)
    ensures AllQueues(b) == AllQueues(a)[q := Queue(b, q)]
  {
  }

  class Scheduler {
    var procs: seq<Proc>
    const qs: Queues
    var running: bool      // mlfqFlag
    var m: nat             // mlfqParams
    var n: nat

    ghost function S(p: int, rr: nat): Sched
      requires qs.Valid()
      reads this, qs
    {
      Sched(procs, AllQueues(qs.A()), p, rr)
    }

    ghost predicate Valid(p: int, rr: nat)
      reads this, qs
    {
      qs.Valid() && Inv(S(p, rr), m, n)
    }

    constructor (procs: seq<Proc>)
      ensures qs.Valid() && fresh(qs) && this.procs == procs && !running
    {
      this.procs, running, m, n := procs, false, 0, 0;
      qs := new Queues();
    }

    /** startMLFQ: all queues become empty. A table of processes none of which was ever added is then in order. */
    method Start(m: nat, n: nat) returns (r: int)
      requires qs.Valid()
      modifies this, qs
      ensures qs.Valid() && procs == old(procs) && r == (if old(running) then -1 else 0) && running
      ensures r == 0 && 2 <= m <= LEVELS && n >= 1 && |procs| == NPROC
              && (forall x :: 0 <= x < NPROC ==> NeverAdded(procs[x])) ==>
                Valid(-1, 0)
      ensures r == -1 ==> this.m == old(this.m) && this.n == old(this.n) && qs.A() == old(qs.A())
    {
      if running {
        return -1;
      }
      running := true;
      this.m, this.n := m, n;
      qs.Clear();
      if 2 <= m <= LEVELS && n >= 1 && |procs| == NPROC && forall x :: 0 <= x < NPROC ==> NeverAdded(procs[x]) {
        forall q | 0 <= q < LEVELS ensures AllQueues(qs.A())[q] == [] { assert qs.Contents(q) == []; }
        FirstState(S(-1, 0), m, n);
      }
      r := 0;
    }

    method Stop() returns (r: int)
      modifies `running
      ensures r == (if old(running) then 0 else -1) && !running
    {
      if !running {
        return -1;
      }
      running := false;
      r := 0;
    }

    /** Moves process x between queues as the code does: first into the new one, then out of the old one. */
    method Requeue(x: nat, from: nat, to: nat) returns (ghost at: nat)
      requires qs.Valid() && from < LEVELS && to < LEVELS && from != to
      modifies qs
      ensures qs.Valid() && AllQueues(qs.A()) == Moved(AllQueues(old(qs.A())), x, from, to)
      ensures |qs.lists| == |old(qs.lists)| == LEVELS
              && forall r :: 0 <= r < LEVELS && r != from && r != to ==> qs.lists[r] == old(qs.lists)[r]
      ensures forall e :: e in old(qs.elem) ==> e in qs.elem && qs.elem[e].proc == old(qs.elem)[e].proc
      ensures at <= |old(qs.lists)[from]| && (at == |old(qs.lists)[from]| <==> x !in old(qs.Contents(from)))
      ensures at < |old(qs.lists)[from]| ==>
                old(qs.Contents(from))[at] == x && x !in old(qs.Contents(from))[..at]
                && qs.lists[from] == Without(old(qs.lists)[from], at)
                && old(qs.lists)[from][at] in qs.elem
                   && qs.elem[old(qs.lists)[from][at]].next == NextOf(old(qs.lists)[from], at)
    {
      hide Wf, RemoveFirst;
      ghost var a := qs.A();
      qs.Enque(to, x);
      ghost var b := qs.A();
      OneQueue(a, b, to);
      at := qs.Delete(from, x);
      OneQueue(b, qs.A(), from);
      if at < |a.lists[from]| { NodeThere(b, from, at); }
    }

    /** Lines 638 to 686. */
    method TickHeld(p: int, ghost rr: nat) returns (q: int, skip: bool)
      requires Valid(p, rr)
      modifies this`procs, qs
      ensures qs.Valid() && S(q, rr) == Ticked(old(S(p, rr)), m) && skip == Expires(old(S(p, rr)))
    {
      hide Wf, QueueOk, Member, Moved;
      q, skip := p, false;
      InvExpires(S(p, rr), m, n);
      if p >= 0 && (procs[p].state == RUNNABLE || procs[p].state == RUNNING) {
        var x := procs[p];
        var l := x.priority;
        assert TicksOk(x);
        procs := procs[p := Proc(x.state, x.added, l, x.ticks[l := x.ticks[l] + 1], x.atMax)];
        if procs[p].ticks[l] >= 2 * (l + 1) {
          if l < m - 1 {
            var _ := Requeue(p, l, l + 1);
            procs := procs[p := Proc(x.state, x.added, l + 1, x.ticks[l := 0], x.atMax)];
          } else {
            procs := procs[p := Proc(x.state, x.added, l, x.ticks[l := 0], x.atMax)];
          }
          assert x.ticks[l := x.ticks[l] + 1][l := 0] == x.ticks[l := 0];
          q, skip := -1, true;
        }
      }
    }

    /** Lines 688 to 721: the walk goes on from an element after it has been unlinked. */
    method RuleFive(ghost p: int, ghost rr: nat)
      requires Valid(p, rr)
      modifies this`procs, qs
      ensures qs.Valid() && S(p, rr) == Passed(old(S(p, rr)), m, n)
    {
      hide Wf, Inv, AllQueues, Queue, Moved, Visited, AllAdded, NextOf, Without, Ahead;
      ghost var s0 := S(p, rr);
      ShapeOf(s0, m, n);
      BottomAdded(s0, m, n);
      QueueShape(qs.A(), m - 1);
      ghost var l, addrs := s0.queues[m - 1], qs.lists[m - 1];
      ghost var k: nat, kept: seq<nat> := 0, [];
      ElementsOf(qs.A(), m - 1);
      assert addrs == kept + addrs[0..];
      var temp := qs.heads[m - 1];
      while temp != 0
        invariant k <= |l| && qs.Valid() && Walking(s0, l, addrs, kept, k, temp, p, rr)
        decreases |l| - k
      {
        temp, kept := VisitNext(s0, l, addrs, kept, k, temp, p, rr);
        k := k + 1;
      }
      Walked(s0, l, addrs, kept, k, p, rr);
    }

    /** Rule 5's walk before its k-th visit: elements kept stay in the bottom queue before those still to come. */
    ghost predicate Walking(s0: Sched, l: seq<nat>, addrs: seq<nat>, kept: seq<nat>, k: nat, temp: nat, p: int, rr: nat)
      requires qs.Valid() && k <= |l|
      reads this, qs
    {
      && Inv(s0, m, n) && AllAdded(s0, l) && S(p, rr) == PassTo(s0, l, k, m, n) && |addrs| == |l|
      && temp == (if k < |addrs| then addrs[k] else 0) && |qs.lists| == LEVELS && qs.lists[m - 1] == kept + addrs[k..]
      && Ahead(qs.elem, addrs, l, k)
    }

    lemma Walked(s0: Sched, l: seq<nat>, addrs: seq<nat>, kept: seq<nat>, k: nat, p: int, rr: nat)
      requires qs.Valid() && k <= |l| && Walking(s0, l, addrs, kept, k, 0, p, rr)
      ensures k == |l| && Inv(s0, m, n) && AllAdded(s0, l) && S(p, rr) == PassTo(s0, l, |l|, m, n)
    {
      hide Inv, AllQueues, Wf;
    }

    method VisitNext(ghost s0: Sched, ghost l: seq<nat>, ghost addrs: seq<nat>, ghost kept: seq<nat>, ghost k: nat,
            temp: nat, ghost p: int, ghost rr: nat)
      returns (next: nat, ghost kept2: seq<nat>)
      requires qs.Valid() && k < |l| && Walking(s0, l, addrs, kept, k, temp, p, rr)
      modifies this`procs, qs
      ensures qs.Valid() && Walking(s0, l, addrs, kept2, k + 1, next, p, rr)
    {
      hide Wf, Inv, AllQueues, Queue, Moved, Visited, AllAdded, NextOf, Without, Ahead;
      ghost var elem := qs.elem;
      AheadNow(elem, addrs, l, k);
      ShapeOf(S(p, rr), m, n);
      Splits(kept, addrs, k);
      AddedIn(s0, l, k, m, n);
      ghost var gone: bool;
      next, gone := Visit(qs.elem[temp].proc, temp, |kept|, p, rr);
      kept2 := if gone then kept else kept + [addrs[k]];
      AheadNext(elem, qs.elem, addrs, l, k);
    }

    /** The body of Rule 5's loop for the element temp, the at-th of the bottom queue. */
    method Visit(x: nat, temp: nat, ghost at: nat, ghost p: int, ghost rr: nat) returns (next: nat, ghost gone: bool)
      requires Valid(p, rr) && |qs.lists| == LEVELS && at < |qs.lists[m - 1]| && qs.lists[m - 1][at] == temp
               && temp in qs.elem
      requires x == qs.elem[temp].proc && x < NPROC && procs[x].added
      modifies this`procs, qs
      ensures qs.Valid() && S(p, rr) == Visited(old(S(p, rr)), x, m, n) && next == NextOf(old(qs.lists)[m - 1], at)
      ensures |qs.lists| == LEVELS
              && qs.lists[m - 1] == if gone then Without(old(qs.lists)[m - 1], at) else old(qs.lists)[m - 1]
      ensures forall e :: e in old(qs.elem) ==> e in qs.elem && qs.elem[e].proc == old(qs.elem)[e].proc
    {
      hide Wf, QueueOk, Member, TicksOk, AgeOk, Moved, Visited, AllQueues, Queue, NextOf, Without;
      ghost var s := S(p, rr);
      ShapeOf(s, m, n);
      gone := false;
      if procs[x].priority == m - 1 {
        procs := procs[x := Older(procs[x])];
        if procs[x].atMax >= n {
          Boost(x, temp, at, s);
          gone := true;
        }
      }
      VisitedIs(s, x, m, n);
      if !gone { NodeThere(qs.A(), m - 1, at); }
      next := qs.elem[temp].next;
    }

    /** Rule 5 takes a process from the bottom queue to the top one. */
    method Boost(x: nat, temp: nat, ghost at: nat, ghost s: Sched)
      requires qs.Valid() && Inv(s, m, n) && AllQueues(qs.A()) == s.queues && |procs| == NPROC
      requires |qs.lists| == LEVELS && at < |qs.lists[m - 1]| && qs.lists[m - 1][at] == temp && temp in qs.elem
      requires x == qs.elem[temp].proc && x < NPROC && |procs[x].ticks| == LEVELS
      modifies this`procs, qs
      ensures qs.Valid() && AllQueues(qs.A()) == Moved(s.queues, x, m - 1, 0)
              && procs == old(procs)[x := Boosted(old(procs)[x], m)]
      ensures |qs.lists| == LEVELS && qs.lists[m - 1] == Without(old(qs.lists)[m - 1], at)
      ensures forall e :: e in old(qs.elem) ==> e in qs.elem && qs.elem[e].proc == old(qs.elem)[e].proc
      ensures temp in qs.elem && qs.elem[temp].next == NextOf(old(qs.lists)[m - 1], at)
    {
      hide Wf, Member, TicksOk, AgeOk, Moved, AllQueues;
      ShapeOf(s, m, n);
      NodeThere(qs.A(), m - 1, at);
      QueueIs(qs.A(), m - 1);
      assert s.queues[m - 1][at] == x && QueueOk(s, m - 1);
      ghost var k := Requeue(x, m - 1, 0);
      SameIndex(s.queues[m - 1], x, at, k);
      procs := procs[x := Boosted(procs[x], m)];
    }

    /** Lines 723 to 733. */
    method AddNew(ghost p: int, ghost rr: nat)
      requires Valid(p, rr)
      modifies this`procs, qs
      ensures qs.Valid() && S(p, rr) == AddTo(old(S(p, rr)), NPROC, m, n)
    {
      hide Wf, Inv, AllQueues;
      ghost var s0 := S(p, rr);
      ShapeOf(s0, m, n);
      var i := 0;
      while i < NPROC
        invariant i <= NPROC && qs.Valid() && |procs| == NPROC && S(p, rr) == AddTo(s0, i, m, n)
      {
        if procs[i].state == RUNNABLE && !procs[i].added {
          ghost var a := qs.A();
          qs.Enque(0, i);
          OneQueue(a, qs.A(), 0);
          var x := procs[i];
          procs := procs[i := Proc(x.state, true, x.priority, x.ticks, x.atMax)];
        }
        i := i + 1;
      }
    }

    /** The best priority among the runnable processes. */
    method BestPriority() returns (highest: nat)
      requires |procs| == NPROC
      ensures highest == Highest(procs, NPROC)
    {
      highest := INT_MAX;
      for i := 0 to NPROC
        invariant highest == Highest(procs, i)
      {
        if procs[i].state == RUNNABLE && procs[i].priority < highest {
          highest := procs[i].priority;
        }
      }
    }

    /** The runnable processes of that priority, in table order. */
    method AllOf(highest: nat) returns (best: seq<nat>)
      requires |procs| == NPROC
      ensures best == Candidates(procs, highest, NPROC)
    {
      best := [];
      for i := 0 to NPROC
        invariant best == Candidates(procs, highest, i)
      {
        if procs[i].state == RUNNABLE && procs[i].priority == highest {
          best := best + [i];
        }
      }
    }

    /** Lines 734 to 781. False stands for line 769 reading past the candidates. */
    method Select(p: int, rr: nat) returns (q: int, rr2: nat, ok: bool)
      requires Valid(p, rr)
      ensures ok == !IndexStrays(S(p, rr)) && S(q, rr2) == Held(S(p, rr))
    {
      hide Wf, Inv, AllQueues, Highest, Candidates;
      ShapeOf(S(p, rr), m, n);
      q, rr2, ok := p, rr, true;
      if p < 0 {
        var highest := BestPriority();
        var best := AllOf(highest);
        if |best| > 1 {
          if rr >= |best| { return q, rr2, false; }
          q, rr2 := best[rr], (rr + 1) % |best|;
        } else if |best| == 1 {
          q := best[0];
        }
      }
    }

    /** The held process is switched to, and comes back some time later. */
    method RunHeld(ghost q: int, ghost rr: nat, after: seq<ProcState>)
      requires qs.Valid() && |procs| == |after|
      modifies this`procs
      ensures qs.Valid() && Ran(old(S(q, rr)), S(q, rr))
    {
      hide Wf;
      procs := Restated(procs, after);
    }

    /**
      One turn of the while loop, given the state every process is in when the held one comes back. False stands for
      line 769 reading past the candidates: none is held, there is more than one, and rr is not below their number.
     */
    method Iterate(p: int, rr: nat, after: seq<ProcState>) returns (q: int, rr2: nat, ok: bool)
      requires Valid(p, rr) && |after| == NPROC
      modifies this`procs, qs
      ensures ok == (Expires(old(S(p, rr))) || !IndexStrays(Ready(old(S(p, rr)), m, n)))
      ensures ok ==> Valid(q, rr2) && Iteration(old(S(p, rr)), S(q, rr2), m, n)
      ensures !ok ==> qs.Valid() && S(q, rr2) == Ready(old(S(p, rr)), m, n)
    {
      hide Wf, QueueOk, Member, TicksOk, AgeOk, Ticked, PassTo, AllQueues, AllCandidates;
      ghost var s0 := S(p, rr);
      TickedKeeps(s0, m, n);
      var skip;
      q, skip := TickHeld(p, rr);
      rr2, ok := rr, true;
      if skip {
        return;
      }
      RuleFive(q, rr);
      AddNew(q, rr);
      HeldKeeps(S(q, rr), m, n);
      q, rr2, ok := Select(q, rr);
      if !ok {
        return;
      }
      if q >= 0 {
        RunHeld(q, rr2, after);
      } else {
        SelfRan(S(q, rr2));
      }
      IterationKeeps(s0, S(q, rr2), m, n);
    }
  }

  function Older(y: Proc): Proc { Proc(y.state, y.added, y.priority, y.ticks, y.atMax + 1) }

  function Boosted(y: Proc, m: nat): Proc
    requires |y.ticks| == LEVELS && 1 <= m <= LEVELS
  {
    Proc(y.state, y.added, 0, y.ticks[m - 1 := 0][0 := 0], 0)
  }

  lemma VisitedIs(s: Sched, x: nat, m: nat, n: nat)
    requires Shape(s, m) && x < NPROC
    ensures Visited(s, x, m, n) ==
              if s.procs[x].priority != m - 1 then s
              else if s.procs[x].atMax + 1 >= n then
                Sched(s.procs[x := Boosted(Older(s.procs[x]), m)], Moved(s.queues, x, m - 1, 0), s.p, s.rr)
              else Sched(s.procs[x := Older(s.procs[x])], s.queues, s.p, s.rr)
  {
    hide Moved;
  }

  lemma QueueIs(a: Arena, q: nat)
    requires Wf(a) && q < LEVELS
    ensures AllQueues(a)[q] == Queue(a, q)
  {
    hide Wf, Queue;
  }

  function Restated(procs: seq<Proc>, after: seq<ProcState>): (r: seq<Proc>)
    requires |procs| == |after|
    ensures |r| == |procs| && forall i :: 0 <= i < |r| ==> Same(r[i], procs[i])
  {
    seq(|procs|, i requires 0 <= i < |procs| =>
      Proc(after[i], procs[i].added, procs[i].priority, procs[i].ticks, procs[i].atMax))
  }

  /** The elements of the walk from the k-th on are in memory with their processes. */
  ghost predicate Ahead(elem: Elements, addrs: seq<nat>, l: seq<nat>, k: nat) {
    |addrs| == |l| && forall j :: k <= j < |addrs| ==> addrs[j] != 0 && addrs[j] in elem && elem[addrs[j]].proc == l[j]
  }

  lemma AheadNow(elem: Elements, addrs: seq<nat>, l: seq<nat>, k: nat)
    requires Ahead(elem, addrs, l, k) && k < |addrs|
    ensures addrs[k] != 0 && addrs[k] in elem && elem[addrs[k]].proc == l[k]
  {
  }

  lemma AheadNext(elem: Elements, elem2: Elements, addrs: seq<nat>, l: seq<nat>, k: nat)
    requires Ahead(elem, addrs, l, k) && k < |addrs|
             && forall e :: e in elem ==> e in elem2 && elem2[e].proc == elem[e].proc
    ensures Ahead(elem2, addrs, l, k + 1) && (k + 1 < |addrs| ==> addrs[k + 1] != 0)
  {
  }

  lemma ElementsOf(a: Arena, q: nat)
    requires Wf(a) && q < LEVELS
    ensures q < |a.lists| && |Queue(a, q)| == |a.lists[q]| && Ahead(a.elem, a.lists[q], Queue(a, q), 0)
  {
    QueueShape(a, q);
  }

  lemma SameIndex(l: seq<nat>, x: nat, i: nat, k: nat)
    requires i < |l| && l[i] == x && k <= |l| && (k == |l| <==> x !in l) && (k < |l| ==> l[k] == x)
    requires forall a, b :: 0 <= a < b < |l| ==> l[a] != l[b]
    ensures k == i
  {
    assert x in l;
  }

  lemma Splits(kept: seq<nat>, addrs: seq<nat>, k: nat)
    requires k < |addrs|
    ensures var l := kept + addrs[k..];
            |kept| < |l| && l[|kept|] == addrs[k] && NextOf(l, |kept|) == (if k + 1 < |addrs| then addrs[k + 1] else 0)
            && Without(l, |kept|) == kept + addrs[k + 1..] && l == kept + [addrs[k]] + addrs[k + 1..]
  {
    assert addrs[k..] == [addrs[k]] + addrs[k + 1..];
  }
}
