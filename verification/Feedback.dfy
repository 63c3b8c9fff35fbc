/**
  The multilevel feedback scheduler (project1c kernel/proc.c, MLFQ_scheduler) as a function from one loop head to
  the next, over one run of startMLFQ with 2 to 10 levels, kalloc succeeding and no process freed.
 */
module Feedback {
  import opened LinkedQueues

  const NPROC: nat := 64

  datatype ProcState = UNUSED | USED | SLEEPING | RUNNABLE | RUNNING | ZOMBIE

  /** A process and its mlfqInfo. */
  datatype Proc = Proc(state: ProcState, added: bool, priority: nat, ticks: seq<nat>, atMax: nat)

  /** The scheduler at a loop head: p is the process it holds on to, -1 if none. */
  datatype Sched = Sched(procs: seq<Proc>, queues: seq<seq<nat>>, p: int, rr: nat)

  ghost predicate Shape(s: Sched, m: nat) {
    && |s.procs| == NPROC && |s.queues| == LEVELS && 2 <= m <= LEVELS && -1 <= s.p < NPROC
    && (forall x :: 0 <= x < NPROC ==> |s.procs[x].ticks| == LEVELS && s.procs[x].priority < m)
  }

  // ---------- membership ----------

  /** What stands in a queue is a process of that priority, and stands there once. */
  ghost predicate QueueOk(s: Sched, q: nat)
    requires q < |s.queues|
  {
    && (forall k :: 0 <= k < |s.queues[q]| ==>
         s.queues[q][k] < |s.procs| && s.procs[s.queues[q][k]].added && s.procs[s.queues[q][k]].priority == q)
    && (forall j, k :: 0 <= j < k < |s.queues[q]| ==> s.queues[q][j] != s.queues[q][k])
  }

  /** A process that has been added stands in the queue of its priority. */
  ghost predicate Member(s: Sched, x: nat)
    requires x < |s.procs|
  {
    if s.procs[x].added then s.procs[x].priority < |s.queues| && x in s.queues[s.procs[x].priority]
    else s.procs[x].priority == 0
  }

  ghost predicate TicksOk(x: Proc) {
    && |x.ticks| == LEVELS && x.priority < LEVELS
    && (forall l :: 0 <= l < LEVELS && l != x.priority ==> x.ticks[l] == 0)
    && x.ticks[x.priority] < 2 * (x.priority + 1)
  }

  ghost predicate AgeOk(x: Proc, m: nat, n: nat) {
    (x.priority + 1 != m ==> x.atMax == 0) && x.atMax < n
  }

  ghost predicate Inv(s: Sched, m: nat, n: nat) {
    && Shape(s, m) && n >= 1
    && (forall q :: 0 <= q < LEVELS ==> QueueOk(s, q))
    && (forall x :: 0 <= x < NPROC ==> Member(s, x))
    && (forall x :: 0 <= x < NPROC ==> TicksOk(s.procs[x]))
    && (forall x :: 0 <= x < NPROC ==> AgeOk(s.procs[x], m, n))
    && (s.p >= 0 ==> s.procs[s.p].added)
  }

  predicate NeverAdded(x: Proc) {
    !x.added && x.priority == 0 && x.ticks == seq(LEVELS, _ => 0) && x.atMax == 0
  }

  lemma FirstState(s: Sched, m: nat, n: nat)
    requires 2 <= m <= LEVELS && n >= 1 && |s.procs| == NPROC && (forall x :: 0 <= x < NPROC ==> NeverAdded(s.procs[x]))
    requires s.p == -1 && |s.queues| == LEVELS && forall q :: 0 <= q < LEVELS ==> s.queues[q] == []
    ensures Inv(s, m, n)
  {
    forall x | 0 <= x < NPROC
      ensures Member(s, x) && TicksOk(s.procs[x]) && AgeOk(s.procs[x], m, n) && s.procs[x].priority < m
    {
      assert NeverAdded(s.procs[x]);
    }
  }

  // ---------- the quantum: lines 638 to 686 ----------

  function Moved(qs: seq<seq<nat>>, x: nat, from: nat, to: nat): seq<seq<nat>>
    requires from < |qs| && to < |qs| && from != to
  {
    qs[to := qs[to] + [x]][from := RemoveFirst(qs[from], x)]
  }

  predicate CountsTime(s: Sched)
    requires s.p < |s.procs|
  {
    s.p >= 0 && (s.procs[s.p].state == RUNNABLE || s.procs[s.p].state == RUNNING)
  }

  predicate Expires(s: Sched)
    requires s.p < |s.procs| && forall x :: 0 <= x < |s.procs| ==> s.procs[x].priority < |s.procs[x].ticks|
  {
    CountsTime(s) && var x := s.procs[s.p]; x.ticks[x.priority] + 1 >= 2 * (x.priority + 1)
  }

  /**
    One tick for the held process; when its quantum is used up it goes down a level, if there is one, and is let go.
   */
  function Ticked(s: Sched, m: nat): Sched
    requires |s.procs| == NPROC && |s.queues| == LEVELS && 2 <= m <= LEVELS && -1 <= s.p < NPROC
    requires forall x :: 0 <= x < NPROC ==> |s.procs[x].ticks| == LEVELS && s.procs[x].priority < m
  {
    if !CountsTime(s) then s else
    var x := s.procs[s.p];
    var l := x.priority;
    if !Expires(s) then
      Sched(s.procs[s.p := Proc(x.state, x.added, l, x.ticks[l := x.ticks[l] + 1], x.atMax)], s.queues, s.p, s.rr)
    else if l + 1 < m then
      Sched(s.procs[s.p := Proc(x.state, x.added, l + 1, x.ticks[l := 0], x.atMax)],
            Moved(s.queues, s.p, l, l + 1), -1, s.rr)
    else Sched(s.procs[s.p := Proc(x.state, x.added, l, x.ticks[l := 0], x.atMax)], s.queues, -1, s.rr)
  }

  lemma WithoutElements(l: seq<nat>, k: nat, y: nat)
    requires k < |l| && forall i, j :: 0 <= i < j < |l| ==> l[i] != l[j]
    ensures y in Without(l, k) <==> y in l && y != l[k]
    ensures forall i, j :: 0 <= i < j < |Without(l, k)| ==> Without(l, k)[i] != Without(l, k)[j]
  {
    var r := Without(l, k);
    forall i | 0 <= i < |r| ensures r[i] == l[if i < k then i else i + 1] {}
    if y in l && y != l[k] {
      var i :| 0 <= i < |l| && l[i] == y;
      assert r[if i < k then i else i - 1] == y;
    }
  }

  lemma RemovedElements(l: seq<nat>, x: nat, y: nat)
    requires forall j, k :: 0 <= j < k < |l| ==> l[j] != l[k]
    ensures y in RemoveFirst(l, x) <==> y in l && y != x
    ensures forall j, k :: 0 <= j < k < |RemoveFirst(l, x)| ==> RemoveFirst(l, x)[j] != RemoveFirst(l, x)[k]
  {
    hide RemoveFirst, Without;
    if x in l {
      var k :| 0 <= k < |l| && l[k] == x;
      RemoveFirstAt(l, x, k);
      WithoutElements(l, k, y);
    } else {
      RemoveAbsent(l, x);
    }
  }

  /** A process changes level: everything stays in its place but it. */
  lemma MovedKeeps(s: Sched, t: Sched, m: nat, n: nat, x: nat, to: nat)
    requires Inv(s, m, n) && x < NPROC && s.procs[x].added && to < m && to != s.procs[x].priority
    requires t.queues == Moved(s.queues, x, s.procs[x].priority, to) && |t.procs| == NPROC && t.procs[x].added
             && t.procs[x].priority == to
    requires forall y :: 0 <= y < NPROC && y != x ==> t.procs[y] == s.procs[y]
    ensures |t.queues| == LEVELS && (forall q :: 0 <= q < LEVELS ==> QueueOk(t, q))
            && forall y :: 0 <= y < NPROC ==> Member(t, y)
  {
    hide RemoveFirst, TicksOk, AgeOk;
    var from := s.procs[x].priority;
    assert QueueOk(s, from) && QueueOk(s, to);
    forall y ensures y in t.queues[from] <==> y in s.queues[from] && y != x { RemovedElements(s.queues[from], x, y); }
    forall q | 0 <= q < LEVELS ensures QueueOk(t, q) {
      assert QueueOk(s, q);
      if q == from {
        RemovedElements(s.queues[from], x, x);
        forall k | 0 <= k < |t.queues[q]|
          ensures t.queues[q][k] < |t.procs| && t.procs[t.queues[q][k]].added && t.procs[t.queues[q][k]].priority == q
        {
          assert t.queues[q][k] in t.queues[from];
        }
      }
    }
    forall y | 0 <= y < NPROC ensures Member(t, y) { assert Member(s, y); }
  }

  lemma TickedKeeps(s: Sched, m: nat, n: nat)
    requires Inv(s, m, n)
    ensures Inv(Ticked(s, m), m, n)
    ensures Expires(s) ==> Ticked(s, m).p == -1
  {
    hide RemoveFirst, Moved;
    var t := Ticked(s, m);
    if CountsTime(s) {
      var x := s.procs[s.p];
      assert TicksOk(x) && AgeOk(x, m, n);
      if Expires(s) && x.priority + 1 < m {
        MovedKeeps(s, t, m, n, s.p, x.priority + 1);
      } else {
        forall q | 0 <= q < LEVELS ensures QueueOk(t, q) { assert QueueOk(s, q); }
        forall y | 0 <= y < NPROC ensures Member(t, y) { assert Member(s, y); }
      }
    }
  }

  // ---------- Rule 5: lines 688 to 721 ----------

  /** A visit to a process of the bottom queue: one more pass there, and back to the top at the n-th. */
  function Visited(s: Sched, x: nat, m: nat, n: nat): Sched
    requires |s.queues| == LEVELS && 2 <= m <= LEVELS && x < |s.procs| && |s.procs[x].ticks| == LEVELS
  {
    var y := s.procs[x];
    if y.priority != m - 1 then s
    else if y.atMax + 1 >= n then
      Sched(s.procs[x := Proc(y.state, y.added, 0, y.ticks[m - 1 := 0][0 := 0], 0)],
            Moved(s.queues, x, m - 1, 0), s.p, s.rr)
    else Sched(s.procs[x := Proc(y.state, y.added, y.priority, y.ticks, y.atMax + 1)], s.queues, s.p, s.rr)
  }

  lemma VisitedKeeps(s: Sched, x: nat, m: nat, n: nat)
    requires Inv(s, m, n) && x < NPROC && s.procs[x].added
    ensures Inv(Visited(s, x, m, n), m, n) && Visited(s, x, m, n).p == s.p
    ensures forall y :: 0 <= y < NPROC && y != x ==> Visited(s, x, m, n).procs[y] == s.procs[y]
    ensures forall y :: 0 <= y < NPROC ==> Visited(s, x, m, n).procs[y].added == s.procs[y].added
  {
    hide RemoveFirst, Moved;
    var t := Visited(s, x, m, n);
    assert TicksOk(s.procs[x]) && AgeOk(s.procs[x], m, n);
    if s.procs[x].priority == m - 1 && s.procs[x].atMax + 1 >= n {
      MovedKeeps(s, t, m, n, x, 0);
    } else {
      forall q | 0 <= q < LEVELS ensures QueueOk(t, q) { assert QueueOk(s, q); }
      forall y | 0 <= y < NPROC ensures Member(t, y) { assert Member(s, y); }
    }
  }

  ghost predicate AllAdded(s: Sched, l: seq<nat>) {
    forall i :: 0 <= i < |l| ==> l[i] < |s.procs| && s.procs[l[i]].added
  }

  /** The pass after its first k visits, l being the bottom queue as it was at the start. */
  ghost function PassTo(s: Sched, l: seq<nat>, k: nat, m: nat, n: nat): (t: Sched)
    requires Inv(s, m, n) && k <= |l| && AllAdded(s, l)
    ensures Inv(t, m, n) && t.p == s.p && forall y :: 0 <= y < NPROC ==> t.procs[y].added == s.procs[y].added
  {
    if k == 0 then s
    else
      var u := PassTo(s, l, k - 1, m, n);
      VisitedKeeps(u, l[k - 1], m, n);
      Visited(u, l[k - 1], m, n)
  }

  lemma BottomAdded(s: Sched, m: nat, n: nat)
    requires Inv(s, m, n)
    ensures AllAdded(s, s.queues[m - 1])
  {
    assert QueueOk(s, m - 1);
  }

  ghost function Passed(s: Sched, m: nat, n: nat): Sched
    requires Inv(s, m, n)
  {
    BottomAdded(s, m, n);
    PassTo(s, s.queues[m - 1], |s.queues[m - 1]|, m, n)
  }

  /** The pass visits each process of the bottom queue once, and no other. */
  lemma {:induction false} PassVisits(s: Sched, l: seq<nat>, k: nat, m: nat, n: nat, x: nat)
    requires Inv(s, m, n) && k <= |l| && AllAdded(s, l) && x < NPROC
    requires forall i, j :: 0 <= i < j < |l| ==> l[i] != l[j]
    ensures PassTo(s, l, k, m, n).procs[x] == if x in l[..k] then Visited(s, x, m, n).procs[x] else s.procs[x]
  {
    hide Inv, Moved, Visited;
    if k > 0 {
      PassVisits(s, l, k - 1, m, n, x);
      assert l[..k] == l[..k - 1] + [l[k - 1]];
      ShapeOf(s, m, n);
      ShapeOf(PassTo(s, l, k - 1, m, n), m, n);
      AddedIn(s, l, k - 1, m, n);
      var u := PassTo(s, l, k - 1, m, n);
      VisitedKeeps(u, l[k - 1], m, n);
      if l[k - 1] == x { VisitDependsOn(u, s, x, m, n); }
    }
  }

  lemma VisitDependsOn(s: Sched, t: Sched, x: nat, m: nat, n: nat)
    requires Shape(s, m) && Shape(t, m) && x < NPROC && s.procs[x] == t.procs[x]
    ensures Visited(s, x, m, n).procs[x] == Visited(t, x, m, n).procs[x]
  {
    hide Moved;
  }

  lemma ShapeOf(s: Sched, m: nat, n: nat)
    requires Inv(s, m, n)
    ensures Shape(s, m)
  {
  }

  lemma AddedIn(s: Sched, l: seq<nat>, k: nat, m: nat, n: nat)
    requires Inv(s, m, n) && k < |l| && AllAdded(s, l)
    ensures l[k] < NPROC && PassTo(s, l, k, m, n).procs[l[k]].added
  {
  }

  // ---------- new processes: lines 723 to 733 ----------

  function AddedOne(s: Sched, i: nat): Sched
    requires |s.queues| == LEVELS && i < |s.procs|
  {
    var x := s.procs[i];
    if x.state == RUNNABLE && !x.added then
      Sched(s.procs[i := Proc(x.state, true, x.priority, x.ticks, x.atMax)],
            s.queues[0 := s.queues[0] + [i]], s.p, s.rr)
    else s
  }

  lemma AddedOneKeeps(s: Sched, i: nat, m: nat, n: nat)
    requires Inv(s, m, n) && i < NPROC
    ensures Inv(AddedOne(s, i), m, n)
  {
    var t := AddedOne(s, i);
    assert Member(s, i) && TicksOk(s.procs[i]) && AgeOk(s.procs[i], m, n);
    forall q | 0 <= q < LEVELS ensures QueueOk(t, q) { assert QueueOk(s, q); }
    forall y | 0 <= y < NPROC ensures Member(t, y) { assert Member(s, y); }
  }

  ghost function AddTo(s: Sched, k: nat, m: nat, n: nat): (t: Sched)
    requires Inv(s, m, n) && k <= NPROC
    ensures Inv(t, m, n) && t.p == s.p && forall i :: 0 <= i < k && t.procs[i].state == RUNNABLE ==> t.procs[i].added
    ensures forall i ::
              0 <= i < NPROC ==>
                t.procs[i].priority == s.procs[i].priority && t.procs[i].atMax == s.procs[i].atMax
                && t.procs[i].state == s.procs[i].state && t.procs[i].ticks == s.procs[i].ticks
    ensures forall i :: 0 <= i < NPROC && s.procs[i].added ==> t.procs[i].added
    ensures forall i :: 0 <= i < NPROC && t.procs[i].added ==> s.procs[i].added || s.procs[i].state == RUNNABLE
  {
    if k == 0 then s
    else
      var u := AddTo(s, k - 1, m, n);
      AddedOneKeeps(u, k - 1, m, n);
      AddedOne(u, k - 1)
  }

  // ---------- selection: lines 734 to 781 ----------

  /** The processes below k that are runnable at priority h, in table order. */
  function Candidates(procs: seq<Proc>, h: nat, k: nat): (c: seq<nat>)
    requires k <= |procs|
    ensures forall i :: 0 <= i < |c| ==> c[i] < k && procs[c[i]].state == RUNNABLE && procs[c[i]].priority == h
  {
    if k == 0 then []
    else
      Candidates(procs, h, k - 1)
        + if procs[k - 1].state == RUNNABLE && procs[k - 1].priority == h then [k - 1] else []
  }

  const INT_MAX: nat := 0x7FFF_FFFF

  /** The smallest priority number of any runnable process below k. */
  function Highest(procs: seq<Proc>, k: nat): (h: nat)
    requires k <= |procs|
    ensures forall i ::
              0 <= i < k && procs[i].state == RUNNABLE && procs[i].priority < INT_MAX ==> h <= procs[i].priority
    ensures h == INT_MAX || exists i :: 0 <= i < k && procs[i].state == RUNNABLE && procs[i].priority == h
    ensures h <= INT_MAX
  {
    if k == 0 then INT_MAX
    else
      var g := Highest(procs, k - 1);
      if procs[k - 1].state == RUNNABLE && procs[k - 1].priority < g then procs[k - 1].priority else g
  }

  function AllCandidates(procs: seq<Proc>): seq<nat> { Candidates(procs, Highest(procs, |procs|), |procs|) }

  /** Line 769 indexes the candidates with rr as it was left by the last round that had more than one. */
  predicate IndexStrays(s: Sched) {
    s.p < 0 && |AllCandidates(s.procs)| > 1 && s.rr >= |AllCandidates(s.procs)|
  }

  function Selected(s: Sched): Sched
    requires !IndexStrays(s)
  {
    if s.p >= 0 then s else
    var c := AllCandidates(s.procs);
    if |c| > 1 then Sched(s.procs, s.queues, c[s.rr], (s.rr + 1) % |c|)
    else if |c| == 1 then Sched(s.procs, s.queues, c[0], s.rr)
    else s
  }

  /** The process selected is runnable and no runnable process has a better priority. */
  lemma SelectsBest(s: Sched, m: nat, n: nat, x: nat)
    requires Inv(s, m, n) && s.p == -1 && !IndexStrays(s) && x < NPROC && s.procs[x].state == RUNNABLE
    ensures Selected(s).p >= 0 && Selected(s).p < NPROC && s.procs[Selected(s).p].state == RUNNABLE
    ensures s.procs[Selected(s).p].priority <= s.procs[x].priority
  {
    hide QueueOk, Member, TicksOk, AgeOk;
    var h := Highest(s.procs, NPROC);
    var i :| 0 <= i < NPROC && s.procs[i].state == RUNNABLE && s.procs[i].priority == h;
    CandidateIn(s.procs, h, NPROC, i);
  }

  lemma {:induction false} CandidateIn(procs: seq<Proc>, h: nat, k: nat, i: nat)
    requires i < k <= |procs| && procs[i].state == RUNNABLE && procs[i].priority == h
    ensures i in Candidates(procs, h, k)
  {
    if i < k - 1 { CandidateIn(procs, h, k - 1, i); }
  }

  // ---------- one iteration and whole runs ----------

  /** The held process has run: any process may be in any state now, but nothing else about them has changed. */
  ghost predicate Ran(s: Sched, t: Sched) {
    && t.queues == s.queues && t.p == s.p && t.rr == s.rr && |t.procs| == |s.procs|
    && forall x :: 0 <= x < |s.procs| ==> Same(t.procs[x], s.procs[x])
  }

  predicate Same(x: Proc, y: Proc) { x == Proc(x.state, y.added, y.priority, y.ticks, y.atMax) }

  /** The state in which a process is selected. */
  ghost function Ready(s: Sched, m: nat, n: nat): (t: Sched)
    requires Inv(s, m, n)
  {
    TickedKeeps(s, m, n);
    AddTo(Passed(Ticked(s, m), m, n), NPROC, m, n)
  }

  lemma SelfRan(s: Sched)
    ensures Ran(s, s)
  {
  }

  /**
    From one loop head to the next; on an expired quantum the loop starts over at once. There is no next loop head when
    line 769 reads past the candidates.
   */
  ghost predicate Iteration(s: Sched, t: Sched, m: nat, n: nat)
    requires Inv(s, m, n)
  {
    if Expires(s) then t == Ticked(s, m)
    else !IndexStrays(Ready(s, m, n)) && Ran(Held(Ready(s, m, n)), t)
  }

  function Held(s: Sched): Sched { if IndexStrays(s) then s else Selected(s) }

  lemma RanKeeps(s: Sched, t: Sched, m: nat, n: nat)
    requires Inv(s, m, n) && Ran(s, t)
    ensures Inv(t, m, n)
  {
    forall x | 0 <= x < NPROC
      ensures Member(t, x) && TicksOk(t.procs[x]) && AgeOk(t.procs[x], m, n) && |t.procs[x].ticks| == LEVELS
              && t.procs[x].priority < m
    {
      assert Same(t.procs[x], s.procs[x]) && Member(s, x) && TicksOk(s.procs[x]) && AgeOk(s.procs[x], m, n);
    }
    forall q | 0 <= q < LEVELS ensures QueueOk(t, q) {
      assert QueueOk(s, q);
      forall k | 0 <= k < |t.queues[q]|
        ensures t.queues[q][k] < |t.procs| && t.procs[t.queues[q][k]].added && t.procs[t.queues[q][k]].priority == q
      {
        assert Same(t.procs[t.queues[q][k]], s.procs[s.queues[q][k]]);
      }
    }
  }

  lemma HeldKeeps(s: Sched, m: nat, n: nat)
    requires Inv(s, m, n) && forall i :: 0 <= i < NPROC && s.procs[i].state == RUNNABLE ==> s.procs[i].added
    ensures Inv(Held(s), m, n) && Held(s).procs == s.procs
  {
    var t := Held(s);
    forall q | 0 <= q < LEVELS ensures QueueOk(t, q) { assert QueueOk(s, q); }
    forall y | 0 <= y < NPROC ensures Member(t, y) { assert Member(s, y); }
  }

  /** Every loop head is well-formed: each added process once in the queue of its priority, ticks within the quantum. */
  lemma IterationKeeps(s: Sched, t: Sched, m: nat, n: nat)
    requires Inv(s, m, n) && Iteration(s, t, m, n)
    ensures Inv(t, m, n)
  {
    hide QueueOk, Member, TicksOk, AgeOk, Ticked, Passed, Held;
    TickedKeeps(s, m, n);
    if !Expires(s) {
      HeldKeeps(Ready(s, m, n), m, n);
      RanKeeps(Held(Ready(s, m, n)), t, m, n);
    }
  }

  /** Process x is in the bottom queue and has been there for c passes. */
  ghost predicate Bottom(s: Sched, x: nat, m: nat, c: nat)
    requires x < |s.procs|
  {
    s.procs[x].added && s.procs[x].priority + 1 == m && s.procs[x].atMax == c
  }

  lemma PassedBottom(s: Sched, m: nat, n: nat, x: nat, c: nat)
    requires Inv(s, m, n) && x < NPROC && Bottom(s, x, m, c)
    ensures Inv(Passed(s, m, n), m, n)
    ensures if c + 1 >= n then Passed(s, m, n).procs[x].priority == 0 else Bottom(Passed(s, m, n), x, m, c + 1)
  {
    hide TicksOk, AgeOk, PassTo;
    var l := s.queues[m - 1];
    assert QueueOk(s, m - 1) && Member(s, x);
    BottomAdded(s, m, n);
    assert l[..|l|] == l;
    PassVisits(s, l, |l|, m, n, x);
  }

  /** One iteration of the life of a process in the bottom queue. */
  lemma BottomStep(s: Sched, t: Sched, m: nat, n: nat, x: nat, c: nat)
    requires Inv(s, m, n) && Iteration(s, t, m, n) && x < NPROC && Bottom(s, x, m, c)
    ensures |t.procs| == NPROC
    ensures Expires(s) ==> Bottom(t, x, m, c)
    ensures !Expires(s) && c + 1 < n ==> Bottom(t, x, m, c + 1)
    ensures !Expires(s) && c + 1 >= n ==> t.procs[x].priority == 0
  {
    hide QueueOk, Member, TicksOk, AgeOk, Passed, RemoveFirst, Moved, AllCandidates;
    TickedKeeps(s, m, n);
    assert Bottom(Ticked(s, m), x, m, c);
    if !Expires(s) {
      PassedBottom(Ticked(s, m), m, n, x, c);
      HeldKeeps(Ready(s, m, n), m, n);
      assert Same(t.procs[x], Ready(s, m, n).procs[x]);
    }
  }

  /** A process comes to the bottom queue by using up its quantum, and its count of passes starts at 0. */
  lemma EntersBottom(s: Sched, t: Sched, m: nat, n: nat, x: nat)
    requires Inv(s, m, n) && Iteration(s, t, m, n) && x < NPROC && s.procs[x].added && s.procs[x].priority + 2 == m
    requires Expires(s) && s.p == x
    ensures |t.procs| == NPROC && Bottom(t, x, m, 0)
  {
    assert AgeOk(s.procs[x], m, n);
  }

  /** A run starts in order and goes on by iterations. */
  ghost predicate IsRun(run: seq<Sched>, m: nat, n: nat) {
    && |run| > 0 && Inv(run[0], m, n)
    && (forall i :: 0 <= i < |run| - 1 ==> Iterates(run, i, m, n))
  }

  ghost predicate Iterates(run: seq<Sched>, i: nat, m: nat, n: nat)
    requires i + 1 < |run|
  {
    Inv(run[i], m, n) ==> Iteration(run[i], run[i + 1], m, n)
  }

  /** Every loop head of every run is in order. */
  lemma {:induction false} RunsInOrder(run: seq<Sched>, k: nat, m: nat, n: nat)
    requires IsRun(run, m, n) && k < |run|
    ensures Inv(run[k], m, n) && |run[k].procs| == NPROC && |run[k].queues| == LEVELS
    ensures k + 1 < |run| ==> Iteration(run[k], run[k + 1], m, n)
  {
    hide Iteration, QueueOk, Member, TicksOk, AgeOk;
    if k > 0 {
      RunsInOrder(run, k - 1, m, n);
      IterationKeeps(run[k - 1], run[k], m, n);
    }
    assert k + 1 < |run| ==> Iterates(run, k, m, n);
  }

  /** At every loop head each process that has been added is at one place in one queue, that of its priority. */
  lemma OnePlace(run: seq<Sched>, i: nat, m: nat, n: nat, x: nat)
    requires IsRun(run, m, n) && i < |run| && x < NPROC && |run[i].procs| == NPROC && run[i].procs[x].added
    ensures |run[i].queues| == LEVELS && run[i].procs[x].priority < m <= LEVELS
    ensures exists k ::
              0 <= k < |run[i].queues[run[i].procs[x].priority]| && StandsAt(run[i], run[i].procs[x].priority, k, x)
    ensures forall q, k, r, j :: StandsAt(run[i], q, k, x) && StandsAt(run[i], r, j, x) ==> q == r && k == j
  {
    hide IsRun, Iteration, TicksOk, AgeOk;
    RunsInOrder(run, i, m, n);
    assert Member(run[i], x);
    var h := run[i].procs[x].priority;
    var k :| 0 <= k < |run[i].queues[h]| && run[i].queues[h][k] == x;
    assert StandsAt(run[i], h, k, x);
    forall q, k, r, j | StandsAt(run[i], q, k, x) && StandsAt(run[i], r, j, x) ensures q == r && k == j {
      assert QueueOk(run[i], q) && QueueOk(run[i], r);
    }
  }

  predicate StandsAt(s: Sched, q: int, k: int, x: nat) {
    0 <= q < |s.queues| && 0 <= k < |s.queues[q]| && s.queues[q][k] == x
  }

  /** At every loop head a process has ticks at its own level only, and fewer than its quantum. */
  lemma QuantumBound(run: seq<Sched>, i: nat, m: nat, n: nat, x: nat, l: nat)
    requires IsRun(run, m, n) && i < |run| && x < NPROC && l < LEVELS
    ensures |run[i].procs| == NPROC && |run[i].procs[x].ticks| == LEVELS && run[i].procs[x].ticks[l] < 2 * (l + 1)
    ensures l != run[i].procs[x].priority ==> run[i].procs[x].ticks[l] == 0
  {
    hide IsRun, Iteration, QueueOk, Member, AgeOk;
    RunsInOrder(run, i, m, n);
    assert TicksOk(run[i].procs[x]);
  }

  /** The index stays inside the table of candidates, of which only the first ones are set. */
  lemma {:induction false} IndexInTable(run: seq<Sched>, i: nat, m: nat, n: nat)
    requires IsRun(run, m, n) && i < |run| && run[0].rr < NPROC
    ensures run[i].rr < NPROC
  {
    hide IsRun, QueueOk, Member, TicksOk, AgeOk, Ticked, Passed, Candidates, Highest;
    if i > 0 {
      RunsInOrder(run, i - 1, m, n);
      IndexInTable(run, i - 1, m, n);
      IndexKept(run[i - 1], m, n);
      CandidatesFit(Ready(run[i - 1], m, n).procs);
    }
  }

  lemma IndexKept(s: Sched, m: nat, n: nat)
    requires Inv(s, m, n)
    ensures Ticked(s, m).rr == s.rr == Ready(s, m, n).rr
  {
    hide QueueOk, Member, TicksOk, AgeOk, Moved;
    TickedKeeps(s, m, n);
    var t := Ticked(s, m);
    BottomAdded(t, m, n);
    PassKeepsIndex(t, t.queues[m - 1], |t.queues[m - 1]|, m, n);
    AddKeepsIndex(Passed(t, m, n), NPROC, m, n);
  }

  lemma {:induction false} PassKeepsIndex(s: Sched, l: seq<nat>, k: nat, m: nat, n: nat)
    requires Inv(s, m, n) && k <= |l| && AllAdded(s, l)
    ensures PassTo(s, l, k, m, n).rr == s.rr
  {
    hide Inv, Moved;
    if k > 0 {
      PassKeepsIndex(s, l, k - 1, m, n);
      AddedIn(s, l, k - 1, m, n);
      ShapeOf(PassTo(s, l, k - 1, m, n), m, n);
    }
  }

  lemma {:induction false} AddKeepsIndex(s: Sched, k: nat, m: nat, n: nat)
    requires Inv(s, m, n) && k <= NPROC
    ensures AddTo(s, k, m, n).rr == s.rr
  {
    hide Inv;
    if k > 0 {
      AddKeepsIndex(s, k - 1, m, n);
      ShapeOf(AddTo(s, k - 1, m, n), m, n);
    }
  }

  lemma CandidatesFit(procs: seq<Proc>)
    ensures |AllCandidates(procs)| <= |procs|
  {
    CandidateCount(procs, Highest(procs, |procs|), |procs|);
  }

  lemma {:induction false} CandidateCount(procs: seq<Proc>, h: nat, k: nat)
    requires k <= |procs|
    ensures |Candidates(procs, h, k)| <= k
  {
    if k > 0 { CandidateCount(procs, h, k - 1); }
  }

  /** The number of Rule-5 passes in the first k iterations. */
  ghost function Passes(run: seq<Sched>, k: nat, m: nat, n: nat): (c: nat)
    requires IsRun(run, m, n) && k < |run|
    ensures c <= k
  {
    if k == 0 then 0
    else
      RunsInOrder(run, k - 1, m, n);
      InvExpires(run[k - 1], m, n);
      Passes(run, k - 1, m, n) + if Expires(run[k - 1]) then 0 else 1
  }

  /** Until the n-th pass the process stays at the bottom, and its count is the number of passes made. */
  lemma {:induction false} AgesAtBottom(run: seq<Sched>, k: nat, m: nat, n: nat, x: nat)
    requires IsRun(run, m, n) && k < |run| && x < NPROC && |run[0].procs| == NPROC && Bottom(run[0], x, m, 0)
             && Passes(run, k, m, n) < n
    ensures |run[k].procs| == NPROC && Bottom(run[k], x, m, Passes(run, k, m, n))
  {
    hide Inv, Iteration, Bottom;
    if k > 0 {
      AgesAtBottom(run, k - 1, m, n, x);
      RunsInOrder(run, k - 1, m, n);
      BottomStep(run[k - 1], run[k], m, n, x, Passes(run, k - 1, m, n));
    }
  }

  /** The n-th pass, and no earlier one, takes it back to priority 0. */
  lemma BackAtNthPass(run: seq<Sched>, k: nat, m: nat, n: nat, x: nat)
    requires IsRun(run, m, n) && k + 1 < |run| && x < NPROC && |run[0].procs| == NPROC && Bottom(run[0], x, m, 0)
    requires Passes(run, k, m, n) == n - 1 && Passes(run, k + 1, m, n) == n
    ensures |run[k + 1].procs| == NPROC && run[k + 1].procs[x].priority == 0
  {
    hide Inv, Iteration, Bottom;
    AgesAtBottom(run, k, m, n, x);
    RunsInOrder(run, k, m, n);
    BottomStep(run[k], run[k + 1], m, n, x, n - 1);
  }

  lemma NoTwoSkips(run: seq<Sched>, i: nat, m: nat, n: nat)
    requires IsRun(run, m, n) && i + 1 < |run|
    ensures Inv(run[i], m, n) && Inv(run[i + 1], m, n) && (Expires(run[i]) ==> !Expires(run[i + 1]))
  {
    hide Inv;
    RunsInOrder(run, i, m, n);
    RunsInOrder(run, i + 1, m, n);
    InvExpires(run[i], m, n);
    InvExpires(run[i + 1], m, n);
    if Expires(run[i]) { TickedKeeps(run[i], m, n); }
  }

  lemma InvExpires(s: Sched, m: nat, n: nat)
    requires Inv(s, m, n)
    ensures s.p < |s.procs| && forall x :: 0 <= x < |s.procs| ==> s.procs[x].priority < |s.procs[x].ticks|
  {
  }

  /** The loop is never cut short twice in a row, so every other iteration at least makes a pass. */
  lemma {:induction false} EverySecondPasses(run: seq<Sched>, j: nat, m: nat, n: nat)
    requires IsRun(run, m, n) && 2 * j < |run|
    ensures Passes(run, 2 * j, m, n) >= j
  {
    hide IsRun, Expires;
    if j > 0 {
      EverySecondPasses(run, j - 1, m, n);
      NoTwoSkips(run, 2 * j - 2, m, n);
      PassesNext(run, 2 * j - 2, m, n);
      PassesNext(run, 2 * j - 1, m, n);
    }
  }

  lemma PassesNext(run: seq<Sched>, k: nat, m: nat, n: nat)
    requires IsRun(run, m, n) && k + 1 < |run|
    ensures Inv(run[k], m, n) && Passes(run, k + 1, m, n) == Passes(run, k, m, n) + if Expires(run[k]) then 0 else 1
  {
    hide Inv;
    RunsInOrder(run, k, m, n);
    InvExpires(run[k], m, n);
  }

  lemma {:induction false} ReachesN(run: seq<Sched>, k: nat, m: nat, n: nat) returns (i: nat)
    requires IsRun(run, m, n) && k < |run| && Passes(run, k, m, n) >= n >= 1
    ensures i < k && Passes(run, i, m, n) == n - 1 && Passes(run, i + 1, m, n) == n
  {
    hide IsRun;
    if Passes(run, k - 1, m, n) >= n { i := ReachesN(run, k - 1, m, n); } else { i := k - 1; }
  }

  /** No starvation: a process that has come to the bottom queue is back at priority 0 within 2n iterations. */
  lemma NoStarvation(run: seq<Sched>, m: nat, n: nat, x: nat)
    requires IsRun(run, m, n) && |run| > 2 * n && n >= 1 && x < NPROC && |run[0].procs| == NPROC
             && Bottom(run[0], x, m, 0)
    ensures exists k :: 0 < k <= 2 * n && |run[k].procs| == NPROC && run[k].procs[x].priority == 0
  {
    hide IsRun, Bottom, Passes;
    EverySecondPasses(run, n, m, n);
    var i := ReachesN(run, 2 * n, m, n);
    BackAtNthPass(run, i, m, n, x);
  }

  // ---------- what the loop does not keep ----------

  /**
    The process dispatched at line 784 is runnable exactly when none was held or the held one still is: a held process
    that went to sleep is not let go of.
   */
  lemma DispatchesRunnable(s: Sched, m: nat, n: nat)
    requires Inv(s, m, n) && !IndexStrays(s) && Held(s).p >= 0
    ensures s.procs[Held(s).p].state == RUNNABLE <==> s.p < 0 || s.procs[s.p].state == RUNNABLE
  {
    hide QueueOk, Member, TicksOk, AgeOk;
  }

  /** A held process that is asleep, or has exited, is dispatched again by every iteration, in the state it is in. */
  lemma SleeperIsRunAgain(s: Sched, t: Sched, m: nat, n: nat)
    requires Inv(s, m, n) && s.p >= 0 && s.procs[s.p].state != RUNNABLE && s.procs[s.p].state != RUNNING
    requires Iteration(s, t, m, n)
    ensures t.p == Held(Ready(s, m, n)).p == s.p && Held(Ready(s, m, n)).procs[s.p].state == s.procs[s.p].state
  {
    hide QueueOk, Member, TicksOk, AgeOk, Ready;
    HeldSleeper(s, m, n);
  }

  lemma HeldSleeper(s: Sched, m: nat, n: nat)
    requires Inv(s, m, n) && s.p >= 0 && s.procs[s.p].state != RUNNABLE && s.procs[s.p].state != RUNNING
    ensures !Expires(s) && !IndexStrays(Ready(s, m, n)) && Held(Ready(s, m, n)).p == s.p
    ensures Held(Ready(s, m, n)).procs[s.p].state == s.procs[s.p].state
  {
    hide QueueOk, Member, TicksOk, AgeOk, Moved, PassTo;
    BottomAdded(s, m, n);
    PassVisitsAll(s, m, n, s.p);
  }

  /** A pass leaves the state of every process. */
  lemma PassVisitsAll(s: Sched, m: nat, n: nat, x: nat)
    requires Inv(s, m, n) && x < NPROC
    ensures Passed(s, m, n).procs[x].state == s.procs[x].state
  {
    hide TicksOk, AgeOk, Moved, PassTo, Member;
    var l := s.queues[m - 1];
    assert QueueOk(s, m - 1);
    BottomAdded(s, m, n);
    PassVisits(s, l, |l|, m, n, x);
  }
}
