/**
  What one iteration of MLFQ_scheduler does to each process, each queue and the choice of the next process, said
  directly in terms of the two loop heads, and what that makes of the time a process spends at a level.
 */
module Turns {
  import opened LinkedQueues
  import opened Feedback

  /** A process is held and was not found asleep or gone when it came back. */
  ghost predicate Ticking(s: Sched, m: nat, n: nat)
    requires Inv(s, m, n)
  {
    s.p >= 0 && (s.procs[s.p].state == RUNNABLE || s.procs[s.p].state == RUNNING)
  }

  /** It has had all but one of the 2 * (l + 1) ticks of its level l. */
  ghost predicate LastTick(s: Sched, m: nat, n: nat)
    requires Inv(s, m, n)
  {
    Ticking(s, m, n) && var x := s.procs[s.p]; x.ticks[x.priority] == 2 * (x.priority + 1) - 1
  }

  lemma ExpiresAtLastTick(s: Sched, m: nat, n: nat)
    requires Inv(s, m, n)
    ensures s.p < |s.procs| && (forall x :: 0 <= x < |s.procs| ==> s.procs[x].priority < |s.procs[x].ticks|)
    ensures Expires(s) <==> LastTick(s, m, n)
  {
    hide QueueOk, Member, AgeOk;
    if s.p >= 0 { assert TicksOk(s.procs[s.p]); }
  }

  // ---------- the last tick of a quantum ----------

  /** l with x taken out of its place. */
  ghost predicate TakenOut(l: seq<nat>, x: nat, r: seq<nat>) {
    exists k :: 0 <= k < |l| && l[k] == x && r == l[..k] + l[k + 1..]
  }

  lemma RemovedIsTakenOut(l: seq<nat>, x: nat)
    requires x in l && forall j, k :: 0 <= j < k < |l| ==> l[j] != l[k]
    ensures TakenOut(l, x, RemoveFirst(l, x))
  {
    hide RemoveFirst;
    var k :| 0 <= k < |l| && l[k] == x;
    RemoveFirstAt(l, x, k);
  }

  /**
    A held process with one tick of its quantum left is let go one level down, last in the queue there, or where it
    is if there is no lower level. It has no ticks then. Nothing else changes.
   */
  lemma QuantumUsedUp(s: Sched, t: Sched, m: nat, n: nat)
    requires Inv(s, m, n) && Iteration(s, t, m, n) && LastTick(s, m, n)
    ensures t.p == -1 && t.rr == s.rr && |t.queues| == LEVELS
    ensures var x := s.procs[s.p];
            var to := if x.priority + 1 < m then x.priority + 1 else x.priority;
            t.procs == s.procs[s.p := Proc(x.state, x.added, to, seq(LEVELS, _ => 0), x.atMax)]
    ensures var l := s.procs[s.p].priority;
            if l + 1 < m then
              && t.queues[l + 1] == s.queues[l + 1] + [s.p] && TakenOut(s.queues[l], s.p, t.queues[l])
              && forall r :: 0 <= r < LEVELS && r != l && r != l + 1 ==> t.queues[r] == s.queues[r]
            else t.queues == s.queues
  {
    hide AgeOk, RemoveFirst;
    ExpiresAtLastTick(s, m, n);
    var x := s.procs[s.p];
    assert TicksOk(x) && Member(s, s.p) && QueueOk(s, x.priority);
    assert x.ticks[x.priority := 0] == seq(LEVELS, _ => 0);
    RemovedIsTakenOut(s.queues[x.priority], s.p);
  }

  // ---------- any other iteration ----------

  /** In the bottom queue, and at its n-th pass there. */
  ghost predicate Due(s: Sched, x: nat, m: nat, n: nat)
    requires x < |s.procs|
  {
    s.procs[x].priority == m - 1 && s.procs[x].atMax + 1 >= n
  }

  /** The ticks of a process after the tick of the held one. */
  ghost function TicksNow(s: Sched, x: nat, m: nat, n: nat): seq<nat>
    requires Inv(s, m, n) && x < NPROC
  {
    var y := s.procs[x];
    if s.p == x && Ticking(s, m, n) then y.ticks[y.priority := y.ticks[y.priority] + 1] else y.ticks
  }

  /**
    Otherwise the held process stays held, with one tick more if it is ticking. Each process of the bottom queue has
    one more pass there, and at the n-th goes to the top with no ticks. Runnable processes are all added from now on.
   */
  lemma EveryProcess(s: Sched, t: Sched, m: nat, n: nat, x: nat)
    requires Inv(s, m, n) && Iteration(s, t, m, n) && !LastTick(s, m, n) && x < NPROC
    ensures |t.procs| == NPROC
    ensures t.procs[x].priority == if Due(s, x, m, n) then 0 else s.procs[x].priority
    ensures t.procs[x].atMax ==
            if s.procs[x].priority != m - 1 then s.procs[x].atMax
            else if Due(s, x, m, n) then 0 else s.procs[x].atMax + 1
    ensures t.procs[x].ticks == if Due(s, x, m, n) then seq(LEVELS, _ => 0) else TicksNow(s, x, m, n)
    ensures t.procs[x].added == (s.procs[x].added || s.procs[x].state == RUNNABLE)
    ensures s.p >= 0 ==> t.p == s.p
  {
    hide QueueOk, Member, TicksOk, AgeOk, Moved, Passed, AllCandidates, Visited;
    ExpiresAtLastTick(s, m, n);
    TickedKeeps(s, m, n);
    PassedProcess(Ticked(s, m), m, n, x);
    PassState(Ticked(s, m), m, n);
    HeldKeeps(Ready(s, m, n), m, n);
    assert Same(t.procs[x], Ready(s, m, n).procs[x]);
  }

  /** Rule 5's pass visits exactly the processes at the bottom level. */
  lemma PassedProcess(u: Sched, m: nat, n: nat, x: nat)
    requires Inv(u, m, n) && x < NPROC
    ensures Passed(u, m, n).procs[x] == Visited(u, x, m, n).procs[x]
    ensures var y, z := u.procs[x], Visited(u, x, m, n).procs[x];
            z == if y.priority != m - 1 then y
                 else if y.atMax + 1 >= n then Proc(y.state, y.added, 0, seq(LEVELS, _ => 0), 0)
                 else Proc(y.state, y.added, y.priority, y.ticks, y.atMax + 1)
  {
    hide AgeOk, Moved, PassTo;
    assert QueueOk(u, m - 1) && Member(u, x) && TicksOk(u.procs[x]);
    BottomAdded(u, m, n);
    var l := u.queues[m - 1];
    assert l[..|l|] == l;
    PassVisits(u, l, |l|, m, n, x);
    if u.procs[x].priority == m - 1 { assert u.procs[x].ticks[m - 1 := 0][0 := 0] == seq(LEVELS, _ => 0); }
  }

  lemma PassState(u: Sched, m: nat, n: nat)
    requires Inv(u, m, n)
    ensures Inv(Passed(u, m, n), m, n) && Passed(u, m, n).p == u.p
  {
    hide Inv;
    BottomAdded(u, m, n);
  }

  ghost predicate InTable(l: seq<nat>, procs: seq<Proc>) { forall i :: 0 <= i < |l| ==> l[i] < |procs| }

  ghost predicate NoneTwice(l: seq<nat>) { forall i, j :: 0 <= i < j < |l| ==> l[i] != l[j] }

  /** Of the processes in l those that are at their n-th pass, or those that are not, in the order they stand in. */
  ghost function Those(procs: seq<Proc>, l: seq<nat>, n: nat, due: bool): seq<nat>
    requires InTable(l, procs)
  {
    if l == [] then []
    else
      var x := l[|l| - 1];
      Those(procs, l[..|l| - 1], n, due) + if due == (procs[x].atMax + 1 >= n) then [x] else []
  }

  /** The runnable processes below k that were never added, in table order. */
  ghost function Newcomers(procs: seq<Proc>, k: nat): seq<nat>
    requires k <= |procs|
  {
    if k == 0 then []
    else
      Newcomers(procs, k - 1) + if procs[k - 1].state == RUNNABLE && !procs[k - 1].added then [k - 1] else []
  }

  lemma {:induction false} ThoseFrom(procs: seq<Proc>, l: seq<nat>, n: nat, due: bool, x: nat)
    requires InTable(l, procs)
    ensures x in Those(procs, l, n, due) ==> x in l
  {
    if |l| > 0 { ThoseFrom(procs, l[..|l| - 1], n, due, x); }
  }

  lemma {:induction false} ThoseSame(procs: seq<Proc>, other: seq<Proc>, l: seq<nat>, n: nat, due: bool)
    requires |other| == |procs| && InTable(l, procs)
    requires forall x :: 0 <= x < |procs| ==> procs[x].atMax == other[x].atMax
    ensures Those(procs, l, n, due) == Those(other, l, n, due)
  {
    if |l| > 0 { ThoseSame(procs, other, l[..|l| - 1], n, due); }
  }

  lemma {:induction false} NewcomersSame(procs: seq<Proc>, other: seq<Proc>, k: nat)
    requires k <= |procs| == |other|
    requires forall x :: 0 <= x < |procs| ==> procs[x].state == other[x].state && procs[x].added == other[x].added
    ensures Newcomers(procs, k) == Newcomers(other, k)
  {
    if k > 0 { NewcomersSame(procs, other, k - 1); }
  }

  lemma RemoveBehind(a: seq<nat>, x: nat, b: seq<nat>)
    requires x !in a
    ensures RemoveFirst(a + [x] + b, x) == a + b
  {
    var l := a + [x] + b;
    assert l[..|a|] == a && l[|a|] == x && l[|a| + 1..] == b;
    RemoveFirstAt(l, x, |a|);
  }

  /** The queues after the first k visits of Rule 5's pass. */
  ghost predicate PassedSoFar(u: Sched, w: Sched, l: seq<nat>, k: nat, m: nat, n: nat)
    requires |u.queues| == LEVELS && k <= |l| && 2 <= m <= LEVELS && InTable(l[..k], u.procs)
  {
    && |w.queues| == LEVELS && w.queues[0] == u.queues[0] + Those(u.procs, l[..k], n, true)
    && w.queues[m - 1] == Those(u.procs, l[..k], n, false) + l[k..]
    && forall r :: 0 < r < LEVELS && r != m - 1 ==> w.queues[r] == u.queues[r]
  }

  lemma {:induction false} PassQueues(u: Sched, l: seq<nat>, k: nat, m: nat, n: nat)
    requires Inv(u, m, n) && l == u.queues[m - 1] && k <= |l| && AllAdded(u, l)
    ensures InTable(l[..k], u.procs) && |u.queues| == LEVELS && PassedSoFar(u, PassTo(u, l, k, m, n), l, k, m, n)
  {
    hide Inv, Visited, PassedSoFar, Those, AllAdded, NoneTwice, AllAt;
    ShapeOf(u, m, n);
    Different(u, m, n);
    if k > 0 {
      PassQueues(u, l, k - 1, m, n);
      var v := PassTo(u, l, k - 1, m, n);
      ShapeOf(v, m, n);
      AddedIn(u, l, k - 1, m, n);
      Unvisited(u, l, k, m, n);
      PassQueuesStep(u, v, l, k, m, n);
    } else {
      NoVisits(u, l, m, n);
    }
  }

  lemma Unvisited(u: Sched, l: seq<nat>, k: nat, m: nat, n: nat)
    requires Inv(u, m, n) && 0 < k <= |l| && AllAdded(u, l) && NoneTwice(l) && l[k - 1] < NPROC
    ensures PassTo(u, l, k - 1, m, n).procs[l[k - 1]] == u.procs[l[k - 1]]
  {
    hide Inv, Visited, PassTo;
    PassVisits(u, l, k - 1, m, n, l[k - 1]);
  }

  lemma NoVisits(u: Sched, l: seq<nat>, m: nat, n: nat)
    requires Shape(u, m) && l == u.queues[m - 1]
    ensures PassedSoFar(u, u, l, 0, m, n)
  {
    assert Those(u.procs, l[..0], n, false) == Those(u.procs, l[..0], n, true) == [];
  }

  lemma PassQueuesStep(u: Sched, v: Sched, l: seq<nat>, k: nat, m: nat, n: nat)
    requires Shape(u, m) && Shape(v, m) && 0 < k <= |l| && InTable(l, u.procs) && NoneTwice(l) && AllAt(u, l, m - 1)
    requires PassedSoFar(u, v, l, k - 1, m, n) && v.procs[l[k - 1]] == u.procs[l[k - 1]]
    ensures PassedSoFar(u, Visited(v, l[k - 1], m, n), l, k, m, n)
  {
    hide Visited;
    var x, a, h := l[k - 1], Those(u.procs, l[..k - 1], n, false), l[..k];
    ThoseFrom(u.procs, l[..k - 1], n, false, x);
    assert h[..|h| - 1] == l[..k - 1] && h[|h| - 1] == x;
    assert a + l[k - 1..] == a + [x] + l[k..];
    VisitQueues(v, x, m, n, a, l[k..]);
    assert a + ([x] + l[k..]) == (a + [x]) + l[k..] && a + ([] + l[k..]) == a + [] + l[k..];
  }

  ghost predicate AllAt(u: Sched, l: seq<nat>, h: nat) {
    forall i :: 0 <= i < |l| ==> l[i] < |u.procs| && u.procs[l[i]].priority == h
  }

  lemma Different(u: Sched, m: nat, n: nat)
    requires Inv(u, m, n)
    ensures InTable(u.queues[m - 1], u.procs) && NoneTwice(u.queues[m - 1])
    ensures AllAt(u, u.queues[m - 1], m - 1)
  {
    hide Member, TicksOk, AgeOk;
    assert QueueOk(u, m - 1);
  }

  lemma VisitQueues(v: Sched, x: nat, m: nat, n: nat, a: seq<nat>, b: seq<nat>)
    requires Shape(v, m) && x < NPROC && v.procs[x].priority == m - 1
    requires v.queues[m - 1] == a + [x] + b && x !in a
    ensures var due := v.procs[x].atMax + 1 >= n; var w := Visited(v, x, m, n);
            && |w.queues| == LEVELS && w.queues[0] == v.queues[0] + (if due then [x] else [])
            && w.queues[m - 1] == a + ((if due then [] else [x]) + b)
            && forall r :: 0 < r < LEVELS && r != m - 1 ==> w.queues[r] == v.queues[r]
  {
    hide RemoveFirst;
    RemoveBehind(a, x, b);
    assert a + [x] + b == a + ([x] + b) && [] + b == b;
  }

  lemma {:induction false} AddQueues(u: Sched, k: nat, m: nat, n: nat)
    requires Inv(u, m, n) && k <= NPROC
    ensures |AddTo(u, k, m, n).queues| == LEVELS
    ensures AddTo(u, k, m, n).queues[0] == u.queues[0] + Newcomers(u.procs, k)
    ensures forall r :: 0 < r < LEVELS ==> AddTo(u, k, m, n).queues[r] == u.queues[r]
    ensures forall x :: k <= x < NPROC ==> AddTo(u, k, m, n).procs[x] == u.procs[x]
  {
    hide QueueOk, Member, TicksOk, AgeOk;
    if k > 0 { AddQueues(u, k - 1, m, n); }
  }

  /**
    The bottom queue keeps those that are not due, in order; queue 0 gets those that are, and behind them the newcomers
    in table order. No other queue changes.
   */
  lemma EveryQueue(s: Sched, t: Sched, m: nat, n: nat)
    requires Inv(s, m, n) && Iteration(s, t, m, n) && !LastTick(s, m, n)
    ensures |t.queues| == LEVELS && InTable(s.queues[m - 1], s.procs)
    ensures t.queues[0] ==
            s.queues[0] + Those(s.procs, s.queues[m - 1], n, true) + Newcomers(s.procs, NPROC)
    ensures t.queues[m - 1] == Those(s.procs, s.queues[m - 1], n, false)
    ensures forall r :: 0 < r < LEVELS && r != m - 1 ==> t.queues[r] == s.queues[r]
  {
    hide QueueOk, Member, TicksOk, AgeOk, Moved, PassTo, Held, AddTo, Visited;
    ExpiresAtLastTick(s, m, n);
    TickedKeeps(s, m, n);
    var u := Ticked(s, m);
    assert u.queues == s.queues;
    Different(s, m, n);
    BottomAdded(u, m, n);
    var l := u.queues[m - 1];
    assert l[..|l|] == l && l[|l|..] == [];
    PassQueues(u, l, |l|, m, n);
    assert Those(s.procs, l, n, false) + [] == Those(s.procs, l, n, false);
    PassState(u, m, n);
    var v := Passed(u, m, n);
    AddQueues(v, NPROC, m, n);
    forall x | 0 <= x < NPROC ensures v.procs[x].state == s.procs[x].state && v.procs[x].added == s.procs[x].added {
      PassVisits(u, l, |l|, m, n, x);
      VisitLeaves(u, x, m, n);
    }
    NewcomersSame(v.procs, s.procs, NPROC);
    ThoseSame(u.procs, s.procs, l, n, true);
    ThoseSame(u.procs, s.procs, l, n, false);
    HeldKeeps(Ready(s, m, n), m, n);
    HeldQueues(Ready(s, m, n));
  }

  lemma VisitLeaves(u: Sched, x: nat, m: nat, n: nat)
    requires Shape(u, m) && x < NPROC
    ensures Visited(u, x, m, n).procs[x].state == u.procs[x].state
    ensures Visited(u, x, m, n).procs[x].added == u.procs[x].added
  {
    hide Moved;
  }

  lemma HeldQueues(s: Sched)
    ensures Held(s).queues == s.queues
  {
  }

  // ---------- the choice of the next process ----------

  ghost predicate Ascending(c: seq<nat>) { forall i, j :: 0 <= i < j < |c| ==> c[i] < c[j] }

  /** Runnable, with no runnable process at a better level. */
  ghost predicate Best(s: Sched, t: Sched, x: nat)
    requires |s.procs| == |t.procs| == NPROC
  {
    && x < NPROC && s.procs[x].state == RUNNABLE
    && forall y :: 0 <= y < NPROC && s.procs[y].state == RUNNABLE ==> t.procs[x].priority <= t.procs[y].priority
  }

  lemma {:induction false} CandidatesAscend(procs: seq<Proc>, h: nat, k: nat)
    requires k <= |procs|
    ensures Ascending(Candidates(procs, h, k))
  {
    if k > 0 { CandidatesAscend(procs, h, k - 1); }
  }

  lemma ReadyProcess(s: Sched, m: nat, n: nat, x: nat)
    requires Inv(s, m, n) && x < NPROC
    ensures Ready(s, m, n).procs[x].state == s.procs[x].state && Ready(s, m, n).p == Ticked(s, m).p
    ensures Ready(s, m, n).rr == s.rr
  {
    hide QueueOk, Member, TicksOk, AgeOk, Passed, Moved;
    TickedKeeps(s, m, n);
    PassedProcess(Ticked(s, m), m, n, x);
    PassState(Ticked(s, m), m, n);
    IndexKept(s, m, n);
  }

  lemma ReadyState(s: Sched, m: nat, n: nat)
    requires Inv(s, m, n)
    ensures Inv(Ready(s, m, n), m, n) && |Ready(s, m, n).procs| == |s.procs| == NPROC
    ensures Ready(s, m, n).rr == s.rr && Ready(s, m, n).p == Ticked(s, m).p
    ensures forall x :: 0 <= x < NPROC ==> Ready(s, m, n).procs[x].state == s.procs[x].state
    ensures forall x :: 0 <= x < NPROC && s.procs[x].state == RUNNABLE ==> Ready(s, m, n).procs[x].added
  {
    hide QueueOk, Member, TicksOk, AgeOk, Passed, Moved, Ticked, PassTo;
    TickedKeeps(s, m, n);
    PassState(Ticked(s, m), m, n);
    forall x | 0 <= x < NPROC
      ensures Ready(s, m, n).procs[x].state == s.procs[x].state && Ready(s, m, n).p == Ticked(s, m).p
      ensures Ready(s, m, n).rr == s.rr
    {
      ReadyProcess(s, m, n, x);
    }
    ReadyProcess(s, m, n, 0);
  }

  /**
    When none is held the next process is taken from those at the best level that has a runnable one, c in table
    order: the only one, or the one at rr_index, which then goes on by one, round the end.
   */
  lemma TheNext(s: Sched, t: Sched, m: nat, n: nat) returns (c: seq<nat>)
    requires Inv(s, m, n) && Iteration(s, t, m, n) && s.p == -1
    ensures |t.procs| == |s.procs| == NPROC && Ascending(c) && forall x :: x in c <==> Best(s, t, x)
    ensures c == [] <==> forall x :: 0 <= x < NPROC ==> s.procs[x].state != RUNNABLE
    ensures |c| == 0 ==> t.p == -1 && t.rr == s.rr
    ensures |c| == 1 ==> t.p == c[0] && t.rr == s.rr
    ensures |c| > 1 ==> s.rr < |c| && t.p == c[s.rr] && t.rr == if s.rr + 1 == |c| then 0 else s.rr + 1
  {
    hide Inv, Ready, Candidates, Highest, Ascending, Best, Held, Ran, Ticked, IndexStrays;
    var u := Ready(s, m, n);
    ReadyState(s, m, n);
    HeldKeeps(u, m, n);
    NoneHeld(s, m, n);
    HeldChoice(u, t);
    SamePriorities(u, t, m, n);
    var h := Highest(u.procs, NPROC);
    c := AllCandidates(u.procs);
    CandidatesAscend(u.procs, h, NPROC);
    forall x ensures x in c <==> Best(s, t, x) { BestIsCandidate(s, t, u, h, x); }
    SomeBest(s, t, u, h);
    if |c| > 0 { assert c[0] in c; }
  }

  lemma NoneHeld(s: Sched, m: nat, n: nat)
    requires Inv(s, m, n) && s.p == -1
    ensures Ticked(s, m) == s
    ensures s.p < |s.procs| && (forall x :: 0 <= x < |s.procs| ==> s.procs[x].priority < |s.procs[x].ticks|)
            && !Expires(s)
  {
    hide QueueOk, Member, TicksOk, AgeOk;
  }

  lemma HeldChoice(u: Sched, t: Sched)
    requires u.p == -1 && !IndexStrays(u) && Ran(Held(u), t)
    ensures var c := AllCandidates(u.procs);
            if |c| == 0 then t.p == -1 && t.rr == u.rr
            else if |c| == 1 then t.p == c[0] && t.rr == u.rr
            else u.rr < |c| && t.p == c[u.rr] && t.rr == if u.rr + 1 == |c| then 0 else u.rr + 1
  {
    hide AllCandidates;
    var c := AllCandidates(u.procs);
    if |c| > 1 && u.rr + 1 < |c| { SmallMod(u.rr + 1, |c|); }
  }

  lemma SmallMod(a: nat, b: nat)
    requires a < b
    ensures a % b == a
  {
  }

  lemma SamePriorities(u: Sched, t: Sched, m: nat, n: nat)
    requires Inv(u, m, n) && Ran(Held(u), t) && Held(u).procs == u.procs
    ensures |t.procs| == NPROC && forall y :: 0 <= y < NPROC ==> t.procs[y].priority == u.procs[y].priority < INT_MAX
  {
    forall y | 0 <= y < NPROC ensures t.procs[y].priority == u.procs[y].priority < INT_MAX {
      assert Same(t.procs[y], u.procs[y]);
    }
  }

  lemma SomeBest(s: Sched, t: Sched, u: Sched, h: nat)
    requires |s.procs| == |t.procs| == |u.procs| == NPROC && h == Highest(u.procs, NPROC)
    requires forall y :: 0 <= y < NPROC ==> u.procs[y].state == s.procs[y].state
    requires forall y :: 0 <= y < NPROC ==> t.procs[y].priority == u.procs[y].priority < INT_MAX
    ensures Candidates(u.procs, h, NPROC) == [] ==> forall x :: 0 <= x < NPROC ==> s.procs[x].state != RUNNABLE
    ensures |Candidates(u.procs, h, NPROC)| > 0 ==> exists x :: 0 <= x < NPROC && s.procs[x].state == RUNNABLE
  {
    hide Candidates, Highest;
    var c := Candidates(u.procs, h, NPROC);
    if c == [] {
      forall x | 0 <= x < NPROC ensures s.procs[x].state != RUNNABLE {
        if s.procs[x].state == RUNNABLE {
          assert h <= u.procs[x].priority;
          var y :| 0 <= y < NPROC && u.procs[y].state == RUNNABLE && u.procs[y].priority == h;
          CandidateIn(u.procs, h, NPROC, y);
        }
      }
    } else {
      assert s.procs[c[0]].state == RUNNABLE;
    }
  }

  lemma BestIsCandidate(s: Sched, t: Sched, u: Sched, h: nat, x: nat)
    requires |s.procs| == |t.procs| == |u.procs| == NPROC && h == Highest(u.procs, NPROC)
    requires forall y :: 0 <= y < NPROC ==> u.procs[y].state == s.procs[y].state
    requires forall y :: 0 <= y < NPROC ==> t.procs[y].priority == u.procs[y].priority < INT_MAX
    ensures x in Candidates(u.procs, h, NPROC) <==> Best(s, t, x)
  {
    hide Candidates, Highest;
    if Best(s, t, x) {
      assert u.procs[x].state == RUNNABLE && h <= u.procs[x].priority;
      var y :| 0 <= y < NPROC && u.procs[y].state == RUNNABLE && u.procs[y].priority == h;
      CandidateIn(u.procs, h, NPROC, x);
    }
  }

  // ---------- the time a process spends at a level ----------

  ghost predicate TickOf(s: Sched, x: nat) {
    s.p == x < |s.procs| && (s.procs[x].state == RUNNABLE || s.procs[x].state == RUNNING)
  }

  /** How many of the iterations from j to i - 1 start with x held and neither asleep nor gone. */
  ghost function Ticks(run: seq<Sched>, x: nat, j: nat, i: nat): nat
    requires j <= i <= |run|
    decreases i
  {
    if i == j then 0 else Ticks(run, x, j, i - 1) + if TickOf(run[i - 1], x) then 1 else 0
  }

  ghost predicate AtLevel(run: seq<Sched>, x: nat, l: nat, i: nat) {
    i < |run| && x < |run[i].procs| == NPROC && l < LEVELS == |run[i].procs[x].ticks| && run[i].procs[x].priority == l
  }

  /** What one iteration does to a process above the bottom level. */
  lemma LevelStep(s: Sched, t: Sched, m: nat, n: nat, x: nat)
    requires Inv(s, m, n) && Iteration(s, t, m, n) && x < NPROC && s.procs[x].priority + 1 < m
    ensures |t.procs| == NPROC && |t.procs[x].ticks| == LEVELS
    ensures var l := s.procs[x].priority; var c := s.procs[x].ticks[l] + if TickOf(s, x) then 1 else 0;
            if c == 2 * (l + 1) then t.procs[x].priority == l + 1 && t.procs[x].ticks == seq(LEVELS, _ => 0)
            else c < 2 * (l + 1) && t.procs[x].priority == l && t.procs[x].ticks[l] == c
  {
    hide QueueOk, Member, AgeOk, Iteration;
    assert TicksOk(s.procs[x]);
    if LastTick(s, m, n) { QuantumUsedUp(s, t, m, n); } else { EveryProcess(s, t, m, n, x); }
  }

  /** While a process stays at a level above the bottom one its ticks there count the iterations it was held in. */
  lemma {:induction false} CountsAtLevel(run: seq<Sched>, j: nat, i: nat, m: nat, n: nat, x: nat, l: nat)
    requires IsRun(run, m, n) && j <= i < |run| && x < NPROC && l + 1 < m
    requires forall h :: j <= h <= i ==> AtLevel(run, x, l, h)
    ensures AtLevel(run, x, l, i) && AtLevel(run, x, l, j)
    ensures run[i].procs[x].ticks[l] == run[j].procs[x].ticks[l] + Ticks(run, x, j, i)
    decreases i
  {
    hide IsRun, Inv, Iteration, TickOf;
    assert AtLevel(run, x, l, i) && AtLevel(run, x, l, j);
    if i > j {
      CountsAtLevel(run, j, i - 1, m, n, x, l);
      RunsInOrder(run, i - 1, m, n);
      ShapeOf(run[i - 1], m, n);
      LevelStep(run[i - 1], run[i], m, n, x);
    }
  }

  /** A process that comes to a level comes with no ticks there. */
  lemma ComesFresh(run: seq<Sched>, j: nat, m: nat, n: nat, x: nat, l: nat)
    requires IsRun(run, m, n) && x < NPROC && AtLevel(run, x, l, j + 1) && !AtLevel(run, x, l, j)
    ensures run[j + 1].procs[x].ticks[l] == 0
  {
    hide IsRun, QueueOk, Member, AgeOk, Iteration;
    RunsInOrder(run, j, m, n);
    assert TicksOk(run[j].procs[x]);
    if LastTick(run[j], m, n) {
      QuantumUsedUp(run[j], run[j + 1], m, n);
    } else {
      EveryProcess(run[j], run[j + 1], m, n, x);
    }
  }

  /**
    The quantum of level l, above the bottom one: a process that came there just before head j + 1 and was there up to
    head i is, at the next head, one level lower if it has been held in 2 * (l + 1) iterations since, and still there
    if in fewer.
   */
  lemma Quantum(run: seq<Sched>, j: nat, i: nat, m: nat, n: nat, x: nat, l: nat)
    requires IsRun(run, m, n) && j < i && i + 1 < |run| && x < NPROC && l + 1 < m
    requires !AtLevel(run, x, l, j) && forall h :: j + 1 <= h <= i ==> AtLevel(run, x, l, h)
    ensures Ticks(run, x, j + 1, i + 1) <= 2 * (l + 1) && |run[i + 1].procs| == NPROC
    ensures run[i + 1].procs[x].priority == if Ticks(run, x, j + 1, i + 1) == 2 * (l + 1) then l + 1 else l
  {
    hide IsRun, Inv, Iteration, TickOf;
    assert AtLevel(run, x, l, j + 1) && AtLevel(run, x, l, i);
    ComesFresh(run, j, m, n, x, l);
    CountsAtLevel(run, j + 1, i, m, n, x, l);
    RunsInOrder(run, i, m, n);
    LevelStep(run[i], run[i + 1], m, n, x);
  }

  /** Nobody falls further than one level in one iteration, and only from the level of a quantum used up. */
  lemma OneLevelAtATime(s: Sched, t: Sched, m: nat, n: nat, x: nat)
    requires Inv(s, m, n) && Iteration(s, t, m, n) && x < NPROC
    ensures |t.procs| == NPROC
    ensures t.procs[x].priority > s.procs[x].priority ==>
              LastTick(s, m, n) && s.p == x && t.procs[x].priority == s.procs[x].priority + 1 < m
    ensures t.procs[x].priority < s.procs[x].priority ==> Due(s, x, m, n) && t.procs[x].priority == 0
  {
    hide QueueOk, Member, AgeOk, TicksOk, Iteration;
    if LastTick(s, m, n) { QuantumUsedUp(s, t, m, n); } else { EveryProcess(s, t, m, n, x); }
  }
}
