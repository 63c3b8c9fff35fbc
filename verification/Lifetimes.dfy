/**
  What fork, exit and wait promise over whole runs, said of the calls that were made (project1.b kernel/proc.c): the
  status given to exit is the one wait reports, fork makes a child of the caller, orphans go to init, and wait gives up
  only without children or when killed.
 */
module Lifetimes {
  import opened ProcessLife
  import opened Reaping

  // ---------- what one step may change ----------

  /** Only the thread that moves gets to another place; another is wiped out only with its zombie or half-made slot. */
  ghost predicate PlaceLaw(s: Sys, t: Sys, p: nat)
    requires Shape(s) && Shape(t)
  {
    forall q :: 0 <= q < NPROC && q != p ==>
      t.pc[q] == s.pc[q]
      || (NoLocks(s.pc[q]) && t.pc[q] == Idle && t.state[q] == UNUSED && (s.state[q] == ZOMBIE || s.state[q] == USED))
  }

  /** A parent is set by fork, handed on to init by an exiting parent, and forgotten when the parent waits. */
  ghost predicate ParentLaw(s: Sys, t: Sys, p: nat, a: Step)
    requires Shape(s) && Shape(t) && p < NPROC
  {
    forall c :: 0 <= c < NPROC ==>
      || t.parent[c] == s.parent[c]
      || (a == Fork(FLink) && s.pc[p] == FParent(c) && s.parent[c] == NONE && t.parent[c] == p)
      || (a == Exit(XGive) && s.parent[c] == p && t.parent[c] == INIT)
      || (a == Wait(WReap) && s.parent[c] == p && s.state[c] == ZOMBIE && t.parent[c] == NONE && t.state[c] == UNUSED)
  }

  /**
    A pid is given out by allocproc and kept until the slot is free again, after a wait for its zombie or by the fork
    that has not finished with it.
   */
  ghost predicate PidLaw(s: Sys, t: Sys, p: nat, a: Step)
    requires Shape(s) && Shape(t) && p < NPROC
  {
    && (forall c :: 0 <= c < NPROC ==>
         || t.pid[c] == s.pid[c] || t.state[c] == UNUSED
         || (a == Fork(FAlloc(c)) && s.state[c] == UNUSED && t.pid[c] == s.nextpid))
    && (forall c :: 0 <= c < NPROC && t.state[c] == UNUSED && s.state[c] != UNUSED ==>
         || (a == Wait(WReap) && s.state[c] == ZOMBIE)
         || (a == Fork(FFail) && s.state[c] == USED && s.pc[p] == FCopy(c)))
  }

  /** killed is set by kill, which leaves nobody asleep, and stays set for as long as there is the process. */
  ghost predicate KillLaw(s: Sys, t: Sys, a: Step)
    requires Shape(s) && Shape(t)
  {
    forall c :: 0 <= c < NPROC ==>
      if a == Misc(Kill(c)) then t.killed[c] && t.state[c] != SLEEPING
      else t.killed[c] == s.killed[c] || t.state[c] == UNUSED
  }

  ghost predicate ExitedLaw(s: Sys, t: Sys, p: nat, a: Step)
    requires Shape(s) && Shape(t) && p < NPROC
  {
    if a == Exit(XZombie) then s.pc[p].XSet? && t.exited == s.exited[s.pid[p] := s.pc[p].st] else t.exited == s.exited
  }

  /** A process is in exit, with some status, from the call on until it is a zombie. */
  ghost predicate ExitLaw(s: Sys, t: Sys, p: nat, a: Step, q: nat)
    requires Shape(s) && Shape(t) && q < NPROC
  {
    && (Exiting(t.pc[q]) ==>
          t.pid[q] == s.pid[q]
          && if Exiting(s.pc[q]) then t.pc[q].st == s.pc[q].st else q == p && a == Exit(XStart(t.pc[q].st)))
    && (Exiting(s.pc[q]) && !Exiting(t.pc[q]) ==> q == p && a == Exit(XZombie))
    && (t.state[q] == ZOMBIE ==>
          t.pid[q] == s.pid[q]
          && if s.state[q] == ZOMBIE then t.xstate[q] == s.xstate[q]
             else q == p && a == Exit(XZombie) && s.pc[q] == XSet(t.xstate[q]))
  }

  ghost predicate Laws(s: Sys, t: Sys, p: nat, a: Step)
    requires p < NPROC
  {
    && Shape(s) && Shape(t) && PlaceLaw(s, t, p) && ParentLaw(s, t, p, a) && PidLaw(s, t, p, a) && ExitedLaw(s, t, p, a)
    && KillLaw(s, t, a)
    && forall q :: 0 <= q < NPROC ==> ExitLaw(s, t, p, a, q)
  }

  lemma MiscLaws(s: Sys, p: nat, a: MiscStep)
    requires Protocol(s) && p < NPROC && CanMisc(s, p, a)
    ensures Laws(s, DoMisc(s, p, a), p, Misc(a))
  {
    hide Knows, NotMissed, ParentOk, WlOk, PlOk, ForksApart, InitOk;
    assert Local(s, p);
  }

  lemma WaitLaws(s: Sys, p: nat, a: WaitStep)
    requires Protocol(s) && p < NPROC && CanWait(s, p, a)
    ensures Laws(s, DoWait(s, p, a), p, Wait(a))
  {
    hide Protocol, Laws, DoWait;
    if a.WReap? { ReapLaws(s, p); } else { OtherWaitLaws(s, p, a); }
  }

  lemma ReapLaws(s: Sys, p: nat)
    requires Protocol(s) && p < NPROC && CanWait(s, p, WReap)
    ensures Laws(s, DoWait(s, p, WReap), p, Wait(WReap))
  {
    hide NotMissed, ParentOk, WlOk, PlOk, ForksApart, InitOk, ZombieChild;
    assert Local(s, p);
    DeadNow(s, p);
  }

  lemma OtherWaitLaws(s: Sys, p: nat, a: WaitStep)
    requires Protocol(s) && p < NPROC && CanWait(s, p, a) && !a.WReap?
    ensures Laws(s, DoWait(s, p, a), p, Wait(a))
  {
    hide NotMissed, ParentOk, WlOk, PlOk, ForksApart, InitOk, Knows;
    assert Local(s, p);
  }

  lemma ExitLaws(s: Sys, p: nat, a: ExitStep)
    requires Protocol(s) && p < NPROC && CanExit(s, p, a)
    ensures Laws(s, DoExit(s, p, a), p, Exit(a))
  {
    hide Knows, NotMissed, ParentOk, WlOk, PlOk, ForksApart, InitOk;
    assert Local(s, p);
  }

  lemma ForkLaws(s: Sys, p: nat, a: ForkStep)
    requires Protocol(s) && p < NPROC && CanFork(s, p, a)
    ensures Laws(s, DoFork(s, p, a), p, Fork(a))
  {
    hide Protocol, Laws, DoFork;
    if a.FAlloc? { AllocLaws(s, p, a.np); } else { OtherForkLaws(s, p, a); }
  }

  lemma AllocLaws(s: Sys, p: nat, np: nat)
    requires Protocol(s) && p < NPROC && CanFork(s, p, FAlloc(np))
    ensures Laws(s, DoFork(s, p, FAlloc(np)), p, Fork(FAlloc(np)))
  {
    hide NotMissed, ParentOk, WlOk, PlOk, ForksApart, InitOk, Knows;
    assert Local(s, p) && Local(s, np);
  }

  lemma OtherForkLaws(s: Sys, p: nat, a: ForkStep)
    requires Protocol(s) && p < NPROC && CanFork(s, p, a) && !a.FAlloc?
    ensures Laws(s, DoFork(s, p, a), p, Fork(a))
  {
    hide NotMissed, ParentOk, WlOk, PlOk, ForksApart, InitOk;
    assert Local(s, p);
  }

  lemma StepLaws(s: Sys, t: Sys, p: nat, a: Step)
    requires Protocol(s) && Steps(s, t, p, a)
    ensures Laws(s, t, p, a)
  {
    hide Protocol, Laws, CanMisc, CanWait, CanExit, CanFork, DoMisc, DoWait, DoExit, DoFork;
    match a
    case Misc(m) => MiscLaws(s, p, m);
    case Wait(w) => WaitLaws(s, p, w);
    case Exit(x) => ExitLaws(s, p, x);
    case Fork(f) => ForkLaws(s, p, f);
  }

  /** Every state of a run, and every step of it. */
  lemma AlongRun(run: seq<Sys>, who: seq<nat>, what: seq<Step>, k: nat)
    requires IsRun(run, who, what) && k < |run|
    ensures Protocol(run[k]) && Shape(run[k]) && History(run[k]) && |who| == |what| == |run| - 1
    ensures k < |who| ==> who[k] < NPROC && Steps(run[k], run[k + 1], who[k], what[k])
                          && Laws(run[k], run[k + 1], who[k], what[k])
  {
    hide Protocol, History, Laws;
    RunsAreSafe(run, who, what, k);
    Sized(run[k]);
    if k < |who| {
      assert Steps(run[k], run[k + 1], who[k], what[k]);
      StepLaws(run[k], run[k + 1], who[k], what[k]);
    }
  }

  // ---------- the status of an exit ----------

  /** Process p, with pid e, is on its way out with status st, or has been recorded with that status. */
  ghost predicate OnItsWay(s: Sys, p: nat, e: nat, st: int)
    requires Shape(s) && p < NPROC
  {
    if e in s.exited then s.exited[e] == st else Exiting(s.pc[p]) && s.pc[p].st == st && s.pid[p] == e
  }

  lemma OnItsWayKept(s: Sys, t: Sys, q: nat, a: Step, p: nat, e: nat, st: int)
    requires Protocol(s) && Shape(s) && History(s) && q < NPROC && Laws(s, t, q, a) && p < NPROC
    requires OnItsWay(s, p, e, st)
    ensures OnItsWay(t, p, e, st)
  {
    hide Knows, NotMissed, ParentOk, WlOk, PlOk, ForksApart, InitOk, ParentLaw, PlaceLaw;
    assert Local(s, p) && Local(s, q) && PidOk(s, q) && PidOk(s, p);
    assert ExitLaw(s, t, q, a, p);
  }

  /** Once exit has been called, its status is what is recorded for that process, whatever else happens meanwhile. */
  lemma {:induction false} ExitOnItsWay(run: seq<Sys>, who: seq<nat>, what: seq<Step>, i: nat, k: nat, st: int)
    requires IsRun(run, who, what) && i < k < |run| && what[i] == Exit(XStart(st))
    ensures Shape(run[i]) && Shape(run[k]) && who[i] < NPROC
            && OnItsWay(run[k], who[i], run[i].pid[who[i]], st)
    decreases k
  {
    hide Protocol, History, Laws, OnItsWay, IsRun;
    AlongRun(run, who, what, i);
    AlongRun(run, who, what, k);
    AlongRun(run, who, what, k - 1);
    if i + 1 == k {
      ExitBegins(run[i], run[k], who[i], st);
    } else {
      ExitOnItsWay(run, who, what, i, k - 1, st);
      OnItsWayKept(run[k - 1], run[k], who[k - 1], what[k - 1], who[i], run[i].pid[who[i]], st);
    }
  }

  lemma ExitBegins(s: Sys, t: Sys, p: nat, st: int)
    requires Protocol(s) && Shape(s) && Shape(t) && History(s) && Steps(s, t, p, Exit(XStart(st)))
    requires ExitLaw(s, t, p, Exit(XStart(st)), p)
    ensures OnItsWay(t, p, s.pid[p], st)
  {
    hide Knows, NotMissed, ParentOk, WlOk, PlOk, ForksApart, InitOk;
    assert Local(s, p) && PidOk(s, p);
  }

  /** The status a process gives to exit is the status recorded for its pid, and so the one that wait reports. */
  lemma StatusKept(run: seq<Sys>, who: seq<nat>, what: seq<Step>, i: nat, k: nat, st: int)
    requires IsRun(run, who, what) && i < k < |run| && what[i] == Exit(XStart(st))
    ensures Shape(run[i]) && who[i] < NPROC
    ensures var e := run[i].pid[who[i]];
            && (e in run[k].exited ==> run[k].exited[e] == st)
            && (e in run[k].reaped ==> e in run[k].exited && run[k].reaped[e].1 == st)
  {
    hide Protocol, IsRun, Laws;
    AlongRun(run, who, what, i);
    AlongRun(run, who, what, k);
    ExitOnItsWay(run, who, what, i, k, st);
    var e := run[i].pid[who[i]];
    if e in run[k].reaped { assert ExitOk(run[k], e); }
  }

  /** A process in exit has called it, with the status it carries and the pid it has. */
  lemma {:induction false} ExitWasCalled(run: seq<Sys>, who: seq<nat>, what: seq<Step>, k: nat, p: nat) returns (i: nat)
    requires IsRun(run, who, what) && k < |run| && Shape(run[k]) && p < NPROC && Exiting(run[k].pc[p])
    ensures i < k && Shape(run[i]) && who[i] == p && what[i] == Exit(XStart(run[k].pc[p].st))
            && run[i].pid[p] == run[k].pid[p]
    decreases k
  {
    hide Protocol, History, IsRun, PlaceLaw, ParentLaw, PidLaw, ExitedLaw;
    if k == 0 {
      BootIdle(run, who, what);
    } else {
      AlongRun(run, who, what, k - 1);
      assert ExitLaw(run[k - 1], run[k], who[k - 1], what[k - 1], p);
      if Exiting(run[k - 1].pc[p]) { i := ExitWasCalled(run, who, what, k - 1, p); } else { i := k - 1; }
    }
  }

  lemma BootIdle(run: seq<Sys>, who: seq<nat>, what: seq<Step>)
    requires IsRun(run, who, what)
    ensures Shape(run[0]) && forall p :: 0 <= p < NPROC ==> run[0].pc[p] == Idle && run[0].state[p] != ZOMBIE
  {
  }

  /** A zombie has called exit, with the status it keeps for its parent. */
  lemma {:induction false} ZombieHasExited(run: seq<Sys>, who: seq<nat>, what: seq<Step>, k: nat, c: nat)
    returns (i: nat)
    requires IsRun(run, who, what) && k < |run| && Shape(run[k]) && c < NPROC && run[k].state[c] == ZOMBIE
    ensures i < k && Shape(run[i]) && who[i] == c && what[i] == Exit(XStart(run[k].xstate[c]))
            && run[i].pid[c] == run[k].pid[c]
    decreases k
  {
    hide Protocol, History, IsRun, PlaceLaw, ParentLaw, PidLaw, ExitedLaw;
    if k == 0 {
      BootIdle(run, who, what);
    } else {
      AlongRun(run, who, what, k - 1);
      assert ExitLaw(run[k - 1], run[k], who[k - 1], what[k - 1], c);
      if run[k - 1].state[c] == ZOMBIE {
        i := ZombieHasExited(run, who, what, k - 1, c);
      } else {
        i := ExitWasCalled(run, who, what, k - 1, c);
      }
    }
  }

  /**
    What a wait reports: the pid and status of a child of the caller that has called exit with that very status, for
    the first time. Nothing else is ever reported.
   */
  lemma WaitTellsTheTruth(run: seq<Sys>, who: seq<nat>, what: seq<Step>, k: nat) returns (i: nat, st: int)
    requires IsRun(run, who, what) && k + 1 < |run| && run[k + 1].reaped != run[k].reaped
    ensures i < k && Shape(run[i]) && Shape(run[k]) && Shape(run[k + 1]) && who[i] < NPROC && what[k] == Wait(WReap)
    ensures what[i] == Exit(XStart(st)) && run[k].parent[who[i]] == who[k] && run[k].state[who[i]] == ZOMBIE
    ensures var e := run[i].pid[who[i]];
            && run[k].pid[who[i]] == e && e !in run[k].reaped && run[k + 1].reaped == run[k].reaped[e := (who[k], st)]
            && run[k + 1].state[who[i]] == UNUSED
  {
    hide Protocol, History, IsRun, Laws;
    AlongRun(run, who, what, k);
    AlongRun(run, who, what, k + 1);
    OnlyReaping(run[k], run[k + 1], who[k], what[k]);
    ReapsOnce(run[k], who[k]);
    var c := run[k].pc[who[k]].i;
    i := ZombieHasExited(run, who, what, k, c);
    st := run[k].xstate[c];
    ZombieRecord(run[k], c);
  }

  lemma OnlyReaping(s: Sys, t: Sys, p: nat, a: Step)
    requires Protocol(s) && Steps(s, t, p, a)
    ensures t.reaped == s.reaped || (a == Wait(WReap) && CanWait(s, p, WReap) && t == DoWait(s, p, WReap)
                                     && Slot(s.pc[p].i) && s.state[s.pc[p].i] == ZOMBIE)
  {
    hide Protocol;
  }

  lemma ZombieRecord(s: Sys, c: nat)
    requires Shape(s) && History(s) && c < NPROC && s.state[c] == ZOMBIE
    ensures s.pid[c] in s.exited && s.exited[s.pid[c]] == s.xstate[c]
  {
    assert PidOk(s, c);
  }

  // ---------- parents and children ----------

  ghost predicate HasChild(s: Sys, p: nat, n: int)
    requires |s.parent| == NPROC
  {
    exists c :: 0 <= c < n && Child(s, c, p)
  }

  /** What wait has found out about children so far, and what fork has done about the one it makes. */
  ghost predicate Family(s: Sys, p: nat)
    requires Shape(s) && p < NPROC
  {
    match s.pc[p]
    case WScan(i, kids) => kids <==> HasChild(s, p, i)
    case WCheck(_, kids) => kids
    case SAcq | SRel => HasChild(s, p, NPROC)
    case FReady(np) => Slot(np) && s.parent[np] == p
    case _ => true
  }

  ghost predicate Made(s: Sys, c: nat)
    requires Shape(s) && c < NPROC
  {
    && (s.state[c] == USED ==> exists p :: 0 <= p < NPROC && Making(s.pc[p]) == c)
    && (s.state[c] != USED && s.state[c] != UNUSED && c != INIT ==> s.parent[c] != NONE)
  }

  ghost predicate Families(s: Sys) {
    Shape(s) && (forall p :: 0 <= p < NPROC ==> Family(s, p)) && (forall c :: 0 <= c < NPROC ==> Made(s, c))
  }

  /** A slot is taken by allocproc, and its process becomes real at the end of fork. */
  ghost predicate BirthLaw(s: Sys, t: Sys, p: nat, a: Step, c: nat)
    requires Shape(s) && Shape(t) && p < NPROC && c < NPROC
  {
    && (t.state[c] == USED && s.state[c] != USED ==> a == Fork(FAlloc(c)) && t.pc[p] == FCopy(c))
    && (t.state[c] != USED && t.state[c] != UNUSED && (s.state[c] == USED || s.state[c] == UNUSED) ==>
          a == Fork(FSetReady) && s.pc[p] == FReady(c) && t.parent == s.parent)
    && (Making(s.pc[p]) == c && Making(t.pc[p]) != c ==> t.state[c] != USED)
  }

  lemma MiscBirths(s: Sys, p: nat, a: MiscStep, c: nat)
    requires Protocol(s) && Families(s) && p < NPROC && c < NPROC && CanMisc(s, p, a)
    ensures BirthLaw(s, DoMisc(s, p, a), p, Misc(a), c) && Family(DoMisc(s, p, a), p)
  {
    hide Knows, NotMissed, ParentOk, WlOk, PlOk, ForksApart, InitOk, Made;
    assert Local(s, p) && Local(s, c) && Family(s, p);
    match a
    case Rouse(q) => assert Local(s, q);
    case Kill(q) => assert Local(s, q);
    case _ =>
  }

  lemma WaitBirths(s: Sys, p: nat, a: WaitStep, c: nat)
    requires Protocol(s) && Families(s) && p < NPROC && c < NPROC && CanWait(s, p, a)
    ensures Shape(DoWait(s, p, a)) && BirthLaw(s, DoWait(s, p, a), p, Wait(a), c) && Family(DoWait(s, p, a), p)
  {
    hide NotMissed, ParentOk, WlOk, PlOk, ForksApart, InitOk, Made, ZombieChild;
    assert Local(s, p) && Family(s, p);
    var pc := s.pc[p];
    if a.WNext? || a.WDrop? { OneMore(s, p, pc.i); }
    if !a.WReap? { SameChildren(s, DoWait(s, p, a), p); }
    if a.WSleep? { InTable(s, p, pc.i); }
  }

  lemma InTable(s: Sys, p: nat, i: int)
    requires |s.parent| == NPROC && HasChild(s, p, i)
    ensures HasChild(s, p, NPROC)
  {
    var c :| 0 <= c < i && Child(s, c, p);
    assert c < NPROC;
  }

  lemma OneMore(s: Sys, p: nat, i: int)
    requires |s.parent| == NPROC && 0 <= i < NPROC
    ensures HasChild(s, p, i + 1) <==> HasChild(s, p, i) || Child(s, i, p)
  {
  }

  lemma ExitBirths(s: Sys, p: nat, a: ExitStep, c: nat)
    requires Protocol(s) && Families(s) && p < NPROC && c < NPROC && CanExit(s, p, a)
    ensures Shape(DoExit(s, p, a)) && BirthLaw(s, DoExit(s, p, a), p, Exit(a), c) && Family(DoExit(s, p, a), p)
  {
    hide Knows, NotMissed, ParentOk, WlOk, PlOk, ForksApart, InitOk, Made;
    assert Local(s, p);
  }

  lemma ForkBirths(s: Sys, p: nat, a: ForkStep, c: nat)
    requires Protocol(s) && Families(s) && p < NPROC && c < NPROC && CanFork(s, p, a)
    ensures Shape(DoFork(s, p, a)) && BirthLaw(s, DoFork(s, p, a), p, Fork(a), c) && Family(DoFork(s, p, a), p)
  {
    hide NotMissed, ParentOk, WlOk, PlOk, ForksApart, InitOk, Made;
    assert Local(s, p);
  }

  lemma StepBirths(s: Sys, t: Sys, p: nat, a: Step, c: nat)
    requires Protocol(s) && Families(s) && Steps(s, t, p, a) && c < NPROC
    ensures Shape(t) && BirthLaw(s, t, p, a, c) && Family(t, p)
  {
    hide Protocol, Families, BirthLaw, Family, CanMisc, CanWait, CanExit, CanFork, DoMisc, DoWait, DoExit, DoFork;
    match a
    case Misc(m) => MiscLocks(s, p, m); MiscBirths(s, p, m, c);
    case Wait(w) => WaitBirths(s, p, w, c);
    case Exit(x) => ExitBirths(s, p, x, c);
    case Fork(f) => ForkBirths(s, p, f, c);
  }

  /** Nobody else gives children away or takes any on while a process looks for its own. */
  lemma OthersFamily(s: Sys, t: Sys, p: nat, a: Step, q: nat)
    requires Protocol(s) && Shape(s) && Shape(t) && p < NPROC && q < NPROC && q != p && Enabled(s, p, a)
    requires PlaceLaw(s, t, p) && ParentLaw(s, t, p, a) && Family(s, q)
    ensures Family(t, q)
  {
    hide Knows, NotMissed, ParentOk, StateOk, PlOk, ForksApart, InitOk, HasChild;
    assert Local(s, p) && Local(s, q);
    if HoldsW(s.pc[q]) {
      assert t.parent == s.parent;
      SameChildren(s, t, q);
    }
  }

  lemma SameChildren(s: Sys, t: Sys, p: nat)
    requires |s.parent| == NPROC && t.parent == s.parent
    ensures forall n :: HasChild(t, p, n) == HasChild(s, p, n)
  {
    forall n ensures HasChild(t, p, n) == HasChild(s, p, n) {
      if HasChild(s, p, n) { var c :| 0 <= c < n && Child(s, c, p); assert Child(t, c, p); }
      if HasChild(t, p, n) { var c :| 0 <= c < n && Child(t, c, p); assert Child(s, c, p); }
    }
  }

  lemma MadeKept(s: Sys, t: Sys, p: nat, a: Step, c: nat)
    requires Protocol(s) && Shape(s) && Shape(t) && p < NPROC && c < NPROC && Family(s, p) && Made(s, c)
    requires PlaceLaw(s, t, p) && ParentLaw(s, t, p, a) && BirthLaw(s, t, p, a, c)
    ensures Made(t, c)
  {
    hide Protocol, HasChild;
    if t.state[c] == USED {
      if s.state[c] == USED {
        var q :| 0 <= q < NPROC && Making(s.pc[q]) == c;
        assert Making(t.pc[q]) == c;
      } else {
        assert Making(t.pc[p]) == c;
      }
    }
  }

  lemma FamiliesKept(s: Sys, t: Sys, p: nat, a: Step)
    requires Protocol(s) && Families(s) && Steps(s, t, p, a)
    ensures Families(t)
  {
    hide Protocol, Family, Made, BirthLaw, PlaceLaw, ParentLaw, PidLaw, ExitedLaw, ExitLaw, Enabled, Do;
    StepLaws(s, t, p, a);
    forall q | 0 <= q < NPROC ensures Family(t, q) && Made(t, q) {
      StepBirths(s, t, p, a, q);
      if q != p { OthersFamily(s, t, p, a, q); }
      MadeKept(s, t, p, a, q);
    }
  }

  lemma {:induction false} FamiliesAlong(run: seq<Sys>, who: seq<nat>, what: seq<Step>, k: nat)
    requires IsRun(run, who, what) && k < |run|
    ensures Families(run[k])
  {
    hide Protocol, History, IsRun, Families, Laws;
    if k == 0 {
      BootFamilies(run, who, what);
    } else {
      FamiliesAlong(run, who, what, k - 1);
      AlongRun(run, who, what, k - 1);
      FamiliesKept(run[k - 1], run[k], who[k - 1], what[k - 1]);
    }
  }

  lemma BootFamilies(run: seq<Sys>, who: seq<nat>, what: seq<Step>)
    requires IsRun(run, who, what)
    ensures Families(run[0])
  {
  }

  /**
    No orphans: in every run every process but init, once fork is done with it, has a live parent, zombies included;
    and a slot that is neither free nor a process is being filled by some fork.
   */
  lemma NoOrphans(run: seq<Sys>, who: seq<nat>, what: seq<Step>, k: nat, c: nat)
    requires IsRun(run, who, what) && k < |run| && c < NPROC
    ensures Shape(run[k])
    ensures run[k].state[c] != UNUSED && run[k].state[c] != USED && c != INIT ==>
              Slot(run[k].parent[c]) && run[k].parent[c] != c && Alive(run[k].state[run[k].parent[c]])
    ensures run[k].state[c] == USED ==> exists p :: 0 <= p < NPROC && Making(run[k].pc[p]) == c
  {
    hide History, IsRun, Knows, WlOk, PlOk, ForksApart, Laws, Family;
    AlongRun(run, who, what, k);
    FamiliesAlong(run, who, what, k);
    assert Local(run[k], c) && Made(run[k], c);
  }

  /**
    A parent changes in three ways only: fork sets the caller, an exiting parent hands the child to init, and a wait
    that reports the child forgets it.
   */
  lemma ParentsChange(run: seq<Sys>, who: seq<nat>, what: seq<Step>, k: nat, c: nat)
    requires IsRun(run, who, what) && k + 1 < |run| && c < NPROC
    ensures Shape(run[k]) && Shape(run[k + 1]) && |who| == |what| == |run| - 1
    ensures run[k + 1].parent[c] != run[k].parent[c] ==>
              || (what[k] == Fork(FLink) && run[k].parent[c] == NONE && run[k + 1].parent[c] == who[k])
              || (what[k] == Exit(XGive) && run[k].parent[c] == who[k] && run[k + 1].parent[c] == INIT)
              || (what[k] == Wait(WReap) && run[k].parent[c] == who[k] && run[k].state[c] == ZOMBIE
                  && run[k + 1].state[c] == UNUSED)
  {
    hide Protocol, History, IsRun, PlaceLaw, PidLaw, ExitedLaw, ExitLaw;
    AlongRun(run, who, what, k);
  }

  /**
    wait gives up with -1 only for a caller that has no child at all at that moment or has been killed, and goes to
    sleep only for one that has a child and none that is a zombie.
   */
  lemma WaitGivesUp(run: seq<Sys>, who: seq<nat>, what: seq<Step>, k: nat)
    requires IsRun(run, who, what) && k + 1 < |run|
    ensures Shape(run[k]) && |who| == |what| == |run| - 1 && who[k] < NPROC
    ensures what[k] == Wait(WGiveUp) ==>
              run[k].killed[who[k]] || forall c :: 0 <= c < NPROC ==> run[k].parent[c] != who[k]
    ensures what[k] == Wait(WSleep) ==>
              && !run[k].killed[who[k]] && (exists c :: 0 <= c < NPROC && run[k].parent[c] == who[k])
              && forall c :: 0 <= c < NPROC && run[k].parent[c] == who[k] ==> run[k].state[c] != ZOMBIE
  {
    hide History, IsRun, NotMissed, ParentOk, WlOk, PlOk, ForksApart, InitOk, Laws, Made;
    AlongRun(run, who, what, k);
    FamiliesAlong(run, who, what, k);
    var s, p := run[k], who[k];
    assert Local(s, p) && Family(s, p);
    if what[k] == Wait(WGiveUp) && !s.killed[p] {
      forall c | 0 <= c < NPROC ensures s.parent[c] != p { assert Child(s, c, p) <==> s.parent[c] == p; }
    }
    if what[k] == Wait(WSleep) {
      var c :| 0 <= c < s.pc[p].i && Child(s, c, p);
      forall c | 0 <= c < NPROC && s.parent[c] == p ensures s.state[c] != ZOMBIE { assert !ZombieChild(s, c, p); }
    }
  }

  /** A killed process is not left asleep by kill, and stays killed until its slot is free. */
  lemma KilledStays(run: seq<Sys>, who: seq<nat>, what: seq<Step>, k: nat, c: nat)
    requires IsRun(run, who, what) && k + 1 < |run| && c < NPROC
    ensures Shape(run[k]) && Shape(run[k + 1]) && |what| == |run| - 1
    ensures what[k] == Misc(Kill(c)) ==> run[k + 1].killed[c] && run[k + 1].state[c] != SLEEPING
    ensures run[k].killed[c] ==> run[k + 1].killed[c] || run[k + 1].state[c] == UNUSED
    ensures run[k + 1].killed[c] && !run[k].killed[c] ==> what[k] == Misc(Kill(c)) || run[k + 1].state[c] == UNUSED
  {
    hide Protocol, History, IsRun, PlaceLaw, PidLaw, ExitedLaw, ExitLaw, ParentLaw;
    AlongRun(run, who, what, k);
  }

  // ---------- what fork makes ----------

  /** Process p has called fork at step i, taken slot np, and neither failed nor finished up to state h. */
  ghost predicate InFork(who: seq<nat>, what: seq<Step>, i: nat, h: nat, np: nat) {
    && i < h <= |who| == |what| && what[i] == Fork(FAlloc(np))
    && forall k :: i < k < h && who[k] == who[i] ==> what[k] != Fork(FSetReady) && what[k] != Fork(FFail)
  }

  lemma {:induction false} ForkGoesOn(run: seq<Sys>, who: seq<nat>, what: seq<Step>, i: nat, h: nat, np: nat)
    requires IsRun(run, who, what) && h < |run| && InFork(who, what, i, h, np)
    ensures Shape(run[i]) && Shape(run[h]) && who[i] < NPROC && np < NPROC
    ensures Making(run[h].pc[who[i]]) == np && run[h].pid[np] == run[i].nextpid
    decreases h
  {
    hide Protocol, History, IsRun, Laws;
    AlongRun(run, who, what, i);
    AlongRun(run, who, what, h);
    AlongRun(run, who, what, h - 1);
    if h == i + 1 {
      ForkBegins(run[i], run[h], who[i], np);
    } else {
      ForkGoesOn(run, who, what, i, h - 1, np);
      ForkStep(run[h - 1], run[h], who[h - 1], what[h - 1], who[i], np);
    }
  }

  lemma ForkBegins(s: Sys, t: Sys, p: nat, np: nat)
    requires Protocol(s) && Steps(s, t, p, Fork(FAlloc(np)))
    ensures np < NPROC && Shape(t) && Making(t.pc[p]) == np && t.pid[np] == s.nextpid
  {
    hide Knows, NotMissed, ParentOk, WlOk, PlOk, ForksApart, InitOk;
    assert Local(s, p);
  }

  lemma ForkStep(s: Sys, t: Sys, q: nat, a: Step, p: nat, np: nat)
    requires Protocol(s) && Steps(s, t, q, a) && Laws(s, t, q, a) && p < NPROC && np < NPROC && Making(s.pc[p]) == np
    requires q == p ==> a != Fork(FSetReady) && a != Fork(FFail)
    ensures Making(t.pc[p]) == np && t.pid[np] == s.pid[np]
  {
    hide Protocol, Laws, Steps;
    Sized(s);
    if q == p { OwnForkStep(s, t, a, p, np); } else { OtherForkStep(s, t, q, a, p, np); }
  }

  lemma OwnForkStep(s: Sys, t: Sys, a: Step, p: nat, np: nat)
    requires Protocol(s) && Steps(s, t, p, a) && Laws(s, t, p, a) && np < NPROC && Making(s.pc[p]) == np
    requires a != Fork(FSetReady) && a != Fork(FFail)
    ensures Making(t.pc[p]) == np && t.pid[np] == s.pid[np]
  {
    hide NotMissed, ParentOk, WlOk, PlOk, InitOk, ParentLaw, ExitedLaw, ExitLaw, KillLaw, PidLaw, DoWait, DoExit;
    assert Local(s, p) && Local(s, np);
  }

  lemma OtherForkStep(s: Sys, t: Sys, q: nat, a: Step, p: nat, np: nat)
    requires Protocol(s) && Steps(s, t, q, a) && Laws(s, t, q, a) && p < NPROC && np < NPROC && Making(s.pc[p]) == np
             && q != p
    ensures Making(t.pc[p]) == np && t.pid[np] == s.pid[np]
  {
    hide NotMissed, ParentOk, WlOk, PlOk, InitOk, ParentLaw, ExitedLaw, ExitLaw, KillLaw, DoWait, DoExit, DoMisc, DoFork;
    assert Local(s, p) && Local(s, np);
  }

  /**
    A fork that is not out of memory makes a runnable child of the caller, in another slot, with the next pid, which
    no other process has.
   */
  lemma ForkMakesAChild(run: seq<Sys>, who: seq<nat>, what: seq<Step>, i: nat, h: nat, np: nat)
    requires IsRun(run, who, what) && h + 1 < |run| && InFork(who, what, i, h, np)
    requires who[h] == who[i] && what[h] == Fork(FSetReady)
    ensures Shape(run[i]) && Shape(run[h + 1]) && np < NPROC && np != who[i]
    ensures run[h + 1].state[np] == RUNNABLE && run[h + 1].parent[np] == who[i] && run[h + 1].pid[np] == run[i].nextpid
    ensures OnlyOne(run[h + 1], np)
  {
    hide History, IsRun, NotMissed, ParentOk, WlOk, PlOk, ForksApart, InitOk, Laws, Made;
    AlongRun(run, who, what, i);
    AlongRun(run, who, what, h);
    AlongRun(run, who, what, h + 1);
    ForkGoesOn(run, who, what, i, h, np);
    FamiliesAlong(run, who, what, h);
    assert Local(run[h], who[h]) && Family(run[h], who[h]);
    Apart(run[h + 1], np);
  }

  /** No other process has its pid. */
  ghost predicate OnlyOne(s: Sys, np: nat)
    requires Shape(s) && np < NPROC
  {
    forall c :: 0 <= c < NPROC && c != np && s.state[c] != UNUSED ==> s.pid[c] != s.pid[np]
  }

  lemma Apart(s: Sys, np: nat)
    requires Shape(s) && History(s) && np < NPROC && s.state[np] != UNUSED
    ensures OnlyOne(s, np)
  {
  }
}
