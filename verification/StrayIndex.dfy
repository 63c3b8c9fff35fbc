/**
  A run of the scheduler (project1c kernel/proc.c, MLFQ_scheduler) in which line 769 reads past the candidates: four
  processes that are always runnable, two levels, at least four ticks at the bottom.
 */
module StrayIndex {
  import opened LinkedQueues
  import opened Feedback

  /** A process in short: level, ticks there, passes at the bottom. */
  datatype Row = Row(level: nat, ticks: nat, age: nat)

  /** Four processes are runnable, with these values; all other entries of the table are unused. */
  ghost predicate Looks(s: Sched, rows: seq<Row>, added: bool)
  {
    && |rows| == 4 && |s.procs| == NPROC
    && (forall i :: 0 <= i < 4 ==> LooksLike(s.procs[i], rows[i], added))
    && (forall i :: 4 <= i < NPROC ==> s.procs[i].state == UNUSED && !s.procs[i].added)
  }

  predicate LooksLike(x: Proc, r: Row, added: bool) {
    && x.state == RUNNABLE && x.added == added && x.priority == r.level && x.atMax == r.age
    && r.level < |x.ticks| && x.ticks[r.level] == r.ticks
  }

  // ---------- what each part of an iteration does to the four ----------

  function Aged(rows: seq<Row>): (r: seq<Row>)
    ensures |r| == |rows|
  {
    seq(|rows|, i requires 0 <= i < |rows| =>
      if rows[i].level == 1 then Row(1, rows[i].ticks, rows[i].age + 1) else rows[i])
  }

  lemma AfterPass(s: Sched, rows: seq<Row>, added: bool, n: nat)
    requires Inv(s, 2, n) && Looks(s, rows, added) && (added || forall i :: 0 <= i < 4 ==> rows[i].level == 0)
    requires forall i :: 0 <= i < 4 && rows[i].level == 1 ==> rows[i].age + 1 < n
    ensures Inv(Passed(s, 2, n), 2, n) && Looks(Passed(s, 2, n), Aged(rows), added)
    ensures Passed(s, 2, n).p == s.p && Passed(s, 2, n).rr == s.rr
  {
    hide TicksOk, AgeOk, PassTo, Moved;
    var l := s.queues[1];
    BottomAdded(s, 2, n);
    PassKeepsIndex(s, l, |l|, 2, n);
    assert QueueOk(s, 1);
    forall x | 0 <= x < NPROC
      ensures Passed(s, 2, n).procs[x] == if x in l then Visited(s, x, 2, n).procs[x] else s.procs[x]
    {
      PassVisits(s, l, |l|, 2, n, x);
      assert l[..|l|] == l;
    }
    forall x | 0 <= x < 4 ensures LooksLike(Passed(s, 2, n).procs[x], Aged(rows)[x], added) {
      assert Member(s, x) && LooksLike(s.procs[x], rows[x], added);
    }
  }

  lemma {:induction false} AfterAdding(s: Sched, rows: seq<Row>, added: bool, k: nat, n: nat)
    requires Inv(s, 2, n) && Looks(s, rows, added) && k <= NPROC
    ensures AddTo(s, k, 2, n).rr == s.rr
    ensures forall i :: 0 <= i < NPROC ==>
              AddTo(s, k, 2, n).procs[i] == if i < 4 && i < k then NowAdded(s.procs[i]) else s.procs[i]
  {
    hide Inv, LooksLike;
    if k > 0 {
      AfterAdding(s, rows, added, k - 1, n);
      ShapeOf(AddTo(s, k - 1, 2, n), 2, n);
      if k - 1 < 4 {
        assert LooksLike(s.procs[k - 1], rows[k - 1], added);
        RunnableNow(s.procs[k - 1], rows[k - 1], added);
      }
    }
  }

  function NowAdded(x: Proc): Proc { Proc(x.state, true, x.priority, x.ticks, x.atMax) }

  lemma RunnableNow(x: Proc, r: Row, added: bool)
    requires LooksLike(x, r, added)
    ensures x.state == RUNNABLE && (x.added ==> NowAdded(x) == x)
  {
  }

  /** The state in which a process is selected, when the held one, if any, has not used up its quantum. */
  lemma GetsReady(s: Sched, rows: seq<Row>, added: bool, n: nat)
    requires Inv(s, 2, n) && Looks(s, rows, added) && !Expires(s) && s.p < 4
    requires added || (s.p < 0 && forall i :: 0 <= i < 4 ==> rows[i].level == 0)
    requires forall i :: 0 <= i < 4 && rows[i].level == 1 ==> rows[i].age + 1 < n
    ensures Looks(Ready(s, 2, n), Aged(OneMore(rows, s.p)), true) && Ready(s, 2, n).p == s.p
            && Ready(s, 2, n).rr == s.rr
  {
    hide QueueOk, Member, AgeOk, Passed, AddTo;
    TickedKeeps(s, 2, n);
    TicksUp(s, rows, added, n);
    var t, r := Ticked(s, 2), OneMore(rows, s.p);
    assert forall i :: 0 <= i < 4 ==> r[i].level == rows[i].level && r[i].age == rows[i].age;
    AfterPass(t, r, added, n);
    AfterAdding(Passed(t, 2, n), Aged(OneMore(rows, s.p)), added, NPROC, n);
    AddsFour(Passed(t, 2, n), Aged(OneMore(rows, s.p)), added, n);
  }

  lemma AddsFour(s: Sched, rows: seq<Row>, added: bool, n: nat)
    requires Inv(s, 2, n) && Looks(s, rows, added)
    ensures Looks(AddTo(s, NPROC, 2, n), rows, true) && AddTo(s, NPROC, 2, n).p == s.p
            && AddTo(s, NPROC, 2, n).rr == s.rr
  {
    hide QueueOk, Member, TicksOk, AgeOk;
    AfterAdding(s, rows, added, NPROC, n);
    forall i | 0 <= i < 4 ensures LooksLike(AddTo(s, NPROC, 2, n).procs[i], rows[i], true) {
      assert LooksLike(s.procs[i], rows[i], added);
    }
  }

  function OneMore(rows: seq<Row>, p: int): (r: seq<Row>)
    ensures |r| == |rows|
  {
    if 0 <= p < |rows| then rows[p := Row(rows[p].level, rows[p].ticks + 1, rows[p].age)] else rows
  }

  lemma TicksUp(s: Sched, rows: seq<Row>, added: bool, n: nat)
    requires Inv(s, 2, n) && Looks(s, rows, added) && !Expires(s) && s.p < 4
    ensures Looks(Ticked(s, 2), OneMore(rows, s.p), added) && Ticked(s, 2).p == s.p && Ticked(s, 2).rr == s.rr
  {
    hide QueueOk, Member, AgeOk;
    if s.p >= 0 { assert LooksLike(s.procs[s.p], rows[s.p], added) && TicksOk(s.procs[s.p]); }
    forall i | 0 <= i < 4 ensures LooksLike(Ticked(s, 2).procs[i], OneMore(rows, s.p)[i], added) {
      assert LooksLike(s.procs[i], rows[i], added);
    }
  }

  /** A held process at the top with one tick expires, and goes to the bottom. */
  lemma GoesDown(s: Sched, rows: seq<Row>, n: nat)
    requires Inv(s, 2, n) && Looks(s, rows, true) && 0 <= s.p < 4 && rows[s.p] == Row(0, 1, 0)
    ensures Expires(s) && Looks(Ticked(s, 2), rows[s.p := Row(1, 0, 0)], true) && Ticked(s, 2).p == -1
    ensures Ticked(s, 2).rr == s.rr && Inv(Ticked(s, 2), 2, n) && Iteration(s, Ticked(s, 2), 2, n)
  {
    hide QueueOk, Member, AgeOk, Moved;
    assert LooksLike(s.procs[s.p], rows[s.p], true) && TicksOk(s.procs[s.p]);
    TickedKeeps(s, 2, n);
    forall i | 0 <= i < 4 ensures LooksLike(Ticked(s, 2).procs[i], rows[s.p := Row(1, 0, 0)][i], true) {
      assert LooksLike(s.procs[i], rows[i], true);
    }
  }

  // ---------- selection ----------

  /** The first k of the four that are at the top. */
  function TopOf(rows: seq<Row>, k: nat): seq<nat>
    requires k <= |rows|
  {
    if k == 0 then [] else TopOf(rows, k - 1) + if rows[k - 1].level == 0 then [k - 1] else []
  }

  lemma {:induction false} CandidatesAre(s: Sched, rows: seq<Row>, k: nat)
    requires Looks(s, rows, true) && k <= NPROC
    ensures Candidates(s.procs, 0, k) == TopOf(rows, if k < 4 then k else 4)
  {
    if k > 0 {
      CandidatesAre(s, rows, k - 1);
      if k <= 4 { assert LooksLike(s.procs[k - 1], rows[k - 1], true); }
    }
  }

  lemma AllAre(s: Sched, rows: seq<Row>, x: nat)
    requires Looks(s, rows, true) && x < 4 && rows[x].level == 0
    ensures AllCandidates(s.procs) == TopOf(rows, 4)
  {
    assert LooksLike(s.procs[x], rows[x], true);
    assert Highest(s.procs, NPROC) == 0;
    CandidatesAre(s, rows, NPROC);
  }

  // ---------- the run ----------

  const TOP: Row := Row(0, 0, 0)

  ghost predicate Fits(s: Sched, rows: seq<Row>, added: bool, n: nat) {
    && Inv(s, 2, n) && Looks(s, rows, added) && s.p < 4 && (added || forall i :: 0 <= i < 4 ==> rows[i].level == 0)
    && (forall i :: 0 <= i < 4 && rows[i].level == 1 ==> rows[i].age + 1 < n)
  }

  /** An iteration that keeps the process it holds. */
  lemma HeldTurn(s: Sched, rows: seq<Row>, n: nat) returns (t: Sched)
    requires Fits(s, rows, true, n) && s.p >= 0 && rows[s.p] == TOP
    ensures Inv(t, 2, n) && Iteration(s, t, 2, n) && Looks(t, Aged(OneMore(rows, s.p)), true) && t.p == s.p
            && t.rr == s.rr
  {
    hide QueueOk, Member, AgeOk, Passed, AddTo, Ticked, AllCandidates;
    assert LooksLike(s.procs[s.p], rows[s.p], true);
    GetsReady(s, rows, true, n);
    t := Held(Ready(s, 2, n));
    HeldKeeps(Ready(s, 2, n), 2, n);
    SelfRan(t);
  }

  /** An iteration that holds nobody reaches line 769 with these candidates. */
  lemma Chooses(s: Sched, rows: seq<Row>, added: bool, n: nat, x: nat)
    requires Fits(s, rows, added, n) && s.p == -1 && x < 4 && rows[x].level == 0
    ensures !Expires(s) && Looks(Ready(s, 2, n), Aged(rows), true) && Ready(s, 2, n).p == -1
            && Ready(s, 2, n).rr == s.rr
    ensures AllCandidates(Ready(s, 2, n).procs) == TopOf(Aged(rows), 4)
  {
    hide QueueOk, Member, TicksOk, AgeOk, Passed, AddTo, AllCandidates;
    GetsReady(s, rows, added, n);
    AllAre(Ready(s, 2, n), Aged(rows), x);
  }

  /** If the index is in range, the candidate there is the next to be held. */
  lemma ChosenTurn(s: Sched, rows: seq<Row>, added: bool, n: nat, x: nat) returns (t: Sched)
    requires Fits(s, rows, added, n) && s.p == -1 && x < 4 && rows[x].level == 0
    requires s.rr < |TopOf(Aged(rows), 4)| && |TopOf(Aged(rows), 4)| > 1
    ensures Inv(t, 2, n) && Iteration(s, t, 2, n) && Looks(t, Aged(rows), true)
    ensures t.p == TopOf(Aged(rows), 4)[s.rr] && t.rr == (s.rr + 1) % |TopOf(Aged(rows), 4)|
  {
    hide QueueOk, Member, TicksOk, AgeOk, Passed, AddTo, Ticked, AllCandidates, TopOf;
    Chooses(s, rows, added, n, x);
    t := Held(Ready(s, 2, n));
    AllNowAdded(Ready(s, 2, n), Aged(rows));
    HeldKeeps(Ready(s, 2, n), 2, n);
    SelfRan(t);
  }

  lemma AllNowAdded(s: Sched, rows: seq<Row>)
    requires Looks(s, rows, true)
    ensures forall i :: 0 <= i < NPROC && s.procs[i].state == RUNNABLE ==> s.procs[i].added
  {
    forall i | 0 <= i < 4 ensures s.procs[i].added { assert LooksLike(s.procs[i], rows[i], true); }
  }

  lemma FirstLooks(s: Sched)
    requires |s.procs| == NPROC
    requires forall x ::
               0 <= x < NPROC ==> NeverAdded(s.procs[x]) && s.procs[x].state == if x < 4 then RUNNABLE else UNUSED
    ensures Looks(s, [TOP, TOP, TOP, TOP], false)
  {
    forall i | 0 <= i < 4 ensures LooksLike(s.procs[i], TOP, false) { assert NeverAdded(s.procs[i]); }
    forall i | 4 <= i < NPROC ensures !s.procs[i].added { assert NeverAdded(s.procs[i]); }
  }

  /** The candidates, when some of the four are at the bottom. */
  lemma Tops(rows: seq<Row>)
    requires |rows| == 4
    ensures rows[0].level == rows[1].level == rows[2].level == rows[3].level == 0 ==> TopOf(rows, 4) == [0, 1, 2, 3]
    ensures rows[0].level == 1 && rows[1].level == rows[2].level == rows[3].level == 0 ==> TopOf(rows, 4) == [1, 2, 3]
    ensures rows[0].level == rows[2].level == 1 && rows[1].level == rows[3].level == 0 ==> TopOf(rows, 4) == [1, 3]
  {
    assert TopOf(rows, 0) == [] && TopOf(rows, 1) == if rows[0].level == 0 then [0] else [];
    assert TopOf(rows, 2) == TopOf(rows, 1) + if rows[1].level == 0 then [1] else [];
    assert TopOf(rows, 3) == TopOf(rows, 2) + if rows[2].level == 0 then [2] else [];
  }

  /** The first process is selected, uses its quantum, and goes down; then the third. */
  lemma TwoGoDown(s: Sched, n: nat) returns (run: seq<Sched>)
    requires n >= 4 && Inv(s, 2, n) && Looks(s, [TOP, TOP, TOP, TOP], false) && s.p == -1 && s.rr == 0
    ensures IsRun(run, 2, n) && run[0] == s && |run| == 7
    ensures Inv(run[6], 2, n) && Looks(run[6], [Row(1, 0, 2), TOP, Row(1, 0, 0), TOP], true) && run[6].p == -1
            && run[6].rr == 2
  {
    hide Inv, Iteration, Looks, LooksLike, Ready, Held, Ticked, TopOf;
    var r0, r1 := [TOP, TOP, TOP, TOP], [Row(0, 1, 0), TOP, TOP, TOP];
    Tops(Aged(r0));
    var s1 := ChosenTurn(s, r0, false, n, 0);
    assert Aged(r0) == r0 && Aged(OneMore(r0, 0)) == r1;
    var s2 := HeldTurn(s1, r0, n);
    ShapeOf(s2, 2, n);
    GoesDown(s2, r1, n);
    var s3, r3, r4 := Ticked(s2, 2), [Row(1, 0, 0), TOP, TOP, TOP], [Row(1, 0, 1), TOP, TOP, TOP];
    assert r1[0 := Row(1, 0, 0)] == r3 && Aged(r3) == r4;
    Tops(r4);
    var s4 := ChosenTurn(s3, r3, true, n, 1);
    var r5 := [Row(1, 0, 2), TOP, Row(0, 1, 0), TOP];
    assert Aged(OneMore(r4, 2)) == r5;
    var s5 := HeldTurn(s4, r4, n);
    ShapeOf(s5, 2, n);
    GoesDown(s5, r5, n);
    assert r5[2 := Row(1, 0, 0)] == [Row(1, 0, 2), TOP, Row(1, 0, 0), TOP];
    run := [s, s1, s2, s3, s4, s5, Ticked(s5, 2)];
    assert Iterates(run, 0, 2, n) && Iterates(run, 1, 2, n) && Iterates(run, 2, 2, n);
    assert Iterates(run, 3, 2, n) && Iterates(run, 4, 2, n) && Iterates(run, 5, 2, n);
  }

  /**
    From any table in which four processes are runnable and none has been added, six iterations lead to a loop head from
    which line 769 reads place 2 of two candidates.
   */
  lemma IndexCanStray(s: Sched, n: nat) returns (run: seq<Sched>)
    requires n >= 4 && |s.procs| == NPROC && s.p == -1 && s.rr == 0
    requires |s.queues| == LEVELS && forall q :: 0 <= q < LEVELS ==> s.queues[q] == []
    requires forall x ::
               0 <= x < NPROC ==> NeverAdded(s.procs[x]) && s.procs[x].state == if x < 4 then RUNNABLE else UNUSED
    ensures IsRun(run, 2, n) && run[0] == s && |run| == 7 && Inv(run[6], 2, n) && !Expires(run[6])
    ensures IndexStrays(Ready(run[6], 2, n)) && AllCandidates(Ready(run[6], 2, n).procs) == [1, 3]
            && Ready(run[6], 2, n).rr == 2
  {
    hide Inv, Iteration, LooksLike, Ready, Held, Ticked, TopOf, AllCandidates;
    FirstState(s, 2, n);
    FirstLooks(s);
    run := TwoGoDown(s, n);
    var r6 := [Row(1, 0, 2), TOP, Row(1, 0, 0), TOP];
    Chooses(run[6], r6, true, n, 1);
    Tops(Aged(r6));
  }

  /** The process that was run may come back asleep instead. */
  lemma FellAsleep(s: Sched, t: Sched, n: nat) returns (u: Sched)
    requires Inv(s, 2, n) && Iteration(s, t, 2, n) && !Expires(s) && 0 <= t.p < NPROC
    ensures Inv(u, 2, n) && Iteration(s, u, 2, n) && u.p == t.p && u.procs[t.p].state == SLEEPING
  {
    hide QueueOk, Member, TicksOk, AgeOk, Ready, Held;
    IterationKeeps(s, t, 2, n);
    var x := t.procs[t.p];
    u := t.(procs := t.procs[t.p := x.(state := SLEEPING)]);
    var h := Held(Ready(s, 2, n));
    forall i | 0 <= i < |h.procs| ensures Same(u.procs[i], h.procs[i]) { assert Same(t.procs[i], h.procs[i]); }
    IterationKeeps(s, u, 2, n);
  }

  /** And with the first process coming back asleep, two iterations lead to its being dispatched while asleep. */
  lemma SleeperIsReached(s: Sched, n: nat) returns (run: seq<Sched>)
    requires n >= 4 && |s.procs| == NPROC && s.p == -1 && s.rr == 0
    requires |s.queues| == LEVELS && forall q :: 0 <= q < LEVELS ==> s.queues[q] == []
    requires forall x ::
               0 <= x < NPROC ==> NeverAdded(s.procs[x]) && s.procs[x].state == if x < 4 then RUNNABLE else UNUSED
    ensures IsRun(run, 2, n) && run[0] == s && |run| == 2 && Inv(run[1], 2, n)
    ensures run[1].p == 0 && run[1].procs[0].state == SLEEPING
    ensures !Expires(run[1]) && Held(Ready(run[1], 2, n)).p == 0 && Held(Ready(run[1], 2, n)).procs[0].state == SLEEPING
  {
    hide Inv, LooksLike, Ready, Ticked, TopOf, AllCandidates;
    FirstState(s, 2, n);
    FirstLooks(s);
    var r0 := [TOP, TOP, TOP, TOP];
    Tops(Aged(r0));
    var t := ChosenTurn(s, r0, false, n, 0);
    var u := FellAsleep(s, t, n);
    run := [s, u];
    assert Iterates(run, 0, 2, n);
    HeldSleeper(u, 2, n);
  }
}
