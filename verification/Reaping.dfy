/**
  What the process life cycle promises over whole runs (project1.b kernel/proc.c): no child's exit is missed, and
  each exited child is waited for once and its parent is told its pid and status.
 */
module Reaping {
  import opened ProcessLife

  // ---------- the history of exits ----------

  predicate PidOk(s: Sys, c: nat)
    requires Shape(s) && c < NPROC
  {
    && (s.state[c] != UNUSED ==> s.pid[c] < s.nextpid)
    && (s.state[c] == ZOMBIE ==> s.pid[c] in s.exited && s.exited[s.pid[c]] == s.xstate[c] && s.pid[c] !in s.reaped)
    && (s.state[c] != UNUSED && s.state[c] != ZOMBIE ==> s.pid[c] !in s.exited)
  }

  ghost predicate PidsApart(s: Sys)
    requires Shape(s)
  {
    forall c, d ::
      0 <= c < NPROC && 0 <= d < NPROC && s.state[c] != UNUSED && s.state[d] != UNUSED && s.pid[c] == s.pid[d] ==>
        c == d
  }

  /** An exit is either still there as a zombie or has been reaped with the right status. */
  ghost predicate ExitOk(s: Sys, e: nat)
    requires Shape(s) && e in s.exited
  {
    && e < s.nextpid
    && if e in s.reaped then s.reaped[e].1 == s.exited[e]
       else exists c :: 0 <= c < NPROC && s.state[c] == ZOMBIE && s.pid[c] == e
  }

  ghost predicate History(s: Sys)
    requires Shape(s)
  {
    && (forall c :: 0 <= c < NPROC ==> PidOk(s, c)) && PidsApart(s)
    && (forall e :: e in s.exited ==> ExitOk(s, e))
    && (forall e :: e in s.reaped ==> e in s.exited)
  }

  /** Nothing happened to the history, nor to who is a zombie or a free slot. */
  ghost predicate Uneventful(s: Sys, t: Sys)
    requires Shape(s) && Shape(t)
  {
    && t.pid == s.pid && t.xstate == s.xstate && t.exited == s.exited && t.reaped == s.reaped && t.nextpid == s.nextpid
    && forall c ::
         0 <= c < NPROC ==>
           (t.state[c] == ZOMBIE <==> s.state[c] == ZOMBIE) && (t.state[c] == UNUSED <==> s.state[c] == UNUSED)
  }

  lemma UneventfulKeeps(s: Sys, t: Sys)
    requires Shape(s) && Shape(t) && Uneventful(s, t) && History(s)
    ensures History(t)
  {
    forall e | e in t.exited ensures ExitOk(t, e) { assert ExitOk(s, e); }
    forall c | 0 <= c < NPROC ensures PidOk(t, c) { assert PidOk(s, c); }
  }

  lemma MiscUneventful(s: Sys, p: nat, a: MiscStep)
    requires Protocol(s) && p < NPROC && CanMisc(s, p, a)
    ensures Shape(DoMisc(s, p, a)) && Uneventful(s, DoMisc(s, p, a))
  {
    hide NotMissed, ParentOk, Knows, WlOk, PlOk, ForksApart;
    assert Local(s, p);
  }

  lemma WaitUneventful(s: Sys, p: nat, a: WaitStep)
    requires Protocol(s) && p < NPROC && CanWait(s, p, a) && !a.WReap?
    ensures Shape(DoWait(s, p, a)) && Uneventful(s, DoWait(s, p, a))
  {
    hide NotMissed, ParentOk, Knows, WlOk, ForksApart;
    assert Local(s, p);
  }

  lemma ExitUneventful(s: Sys, p: nat, a: ExitStep)
    requires Protocol(s) && p < NPROC && CanExit(s, p, a) && !a.XZombie?
    ensures Shape(DoExit(s, p, a)) && Uneventful(s, DoExit(s, p, a))
  {
    hide NotMissed, ParentOk, Knows, WlOk, ForksApart;
    assert Local(s, p);
  }

  lemma ForkUneventful(s: Sys, p: nat, a: ForkStep)
    requires Protocol(s) && p < NPROC && CanFork(s, p, a) && !a.FAlloc? && !a.FFail?
    ensures Shape(DoFork(s, p, a)) && Uneventful(s, DoFork(s, p, a))
  {
    hide NotMissed, ParentOk, WlOk, PlOk, ForksApart;
    assert Local(s, p);
  }

  /** What a wait that finds a zombie reports: a child of its own, its true status, and for the first time. */
  lemma ReapsOnce(s: Sys, p: nat)
    requires Protocol(s) && History(s) && p < NPROC && CanWait(s, p, WReap)
    ensures var c, t := s.pc[p].i, DoWait(s, p, WReap);
            s.parent[c] == p && s.pid[c] in s.exited && s.pid[c] !in s.reaped
            && t.reaped == s.reaped[s.pid[c] := (p, s.exited[s.pid[c]])] && t.state[c] == UNUSED
  {
    hide NotMissed, ParentOk, WlOk, PlOk, ForksApart;
    assert Local(s, p) && PidOk(s, s.pc[p].i);
  }

  lemma ReapHistory(s: Sys, p: nat)
    requires Protocol(s) && History(s) && p < NPROC && CanWait(s, p, WReap)
    ensures Shape(DoWait(s, p, WReap)) && History(DoWait(s, p, WReap))
  {
    hide Protocol;
    Sized(s);
    var t, i := DoWait(s, p, WReap), s.pc[p].i;
    assert PidOk(s, i);
    forall c | 0 <= c < NPROC ensures PidOk(t, c) { assert PidOk(s, c); }
    forall e | e in t.exited ensures ExitOk(t, e) {
      assert ExitOk(s, e);
      if e != s.pid[i] && e !in s.reaped {
        var c :| 0 <= c < NPROC && s.state[c] == ZOMBIE && s.pid[c] == e;
        assert c != i && t.state[c] == ZOMBIE && t.pid[c] == e;
      }
    }
  }

  lemma ZombieHistory(s: Sys, p: nat)
    requires Protocol(s) && History(s) && p < NPROC && CanExit(s, p, XZombie)
    ensures Shape(DoExit(s, p, XZombie)) && History(DoExit(s, p, XZombie))
  {
    hide NotMissed, ParentOk, Knows, WlOk, PlOk, ForksApart;
    assert Local(s, p) && PidOk(s, p);
    var t := DoExit(s, p, XZombie);
    forall c | 0 <= c < NPROC ensures PidOk(t, c) { assert PidOk(s, c); }
    forall e | e in t.exited ensures ExitOk(t, e) {
      if e == s.pid[p] {
        assert t.state[p] == ZOMBIE && t.pid[p] == e;
      } else {
        assert ExitOk(s, e);
        if e !in s.reaped {
          var c :| 0 <= c < NPROC && s.state[c] == ZOMBIE && s.pid[c] == e;
          assert t.state[c] == ZOMBIE && t.pid[c] == e;
        }
      }
    }
  }

  lemma AllocHistory(s: Sys, p: nat, np: nat)
    requires Protocol(s) && History(s) && p < NPROC && CanFork(s, p, FAlloc(np))
    ensures Shape(DoFork(s, p, FAlloc(np))) && History(DoFork(s, p, FAlloc(np)))
  {
    hide Protocol;
    Sized(s);
    var t := DoFork(s, p, FAlloc(np));
    forall e | e in s.exited ensures e < s.nextpid { assert ExitOk(s, e); }
    forall c | 0 <= c < NPROC
      ensures PidOk(t, c) && (c != np && t.state[c] != UNUSED ==> t.pid[c] < s.nextpid)
    {
      assert PidOk(s, c);
    }
    assert PidsApart(t);
    forall e | e in t.exited ensures ExitOk(t, e) {
      assert ExitOk(s, e);
      if e !in s.reaped {
        var c :| 0 <= c < NPROC && s.state[c] == ZOMBIE && s.pid[c] == e;
        assert t.state[c] == ZOMBIE && t.pid[c] == e;
      }
    }
  }

  lemma FailHistory(s: Sys, p: nat)
    requires Protocol(s) && History(s) && p < NPROC && CanFork(s, p, FFail)
    ensures Shape(DoFork(s, p, FFail)) && History(DoFork(s, p, FFail))
  {
    hide NotMissed, ParentOk, WlOk, PlOk, ForksApart;
    assert Local(s, p);
    var t, np := DoFork(s, p, FFail), s.pc[p].np;
    forall c | 0 <= c < NPROC ensures PidOk(t, c) { assert PidOk(s, c); }
    forall e | e in t.exited ensures ExitOk(t, e) {
      assert ExitOk(s, e);
      if e !in s.reaped {
        var c :| 0 <= c < NPROC && s.state[c] == ZOMBIE && s.pid[c] == e;
        assert c != np && t.state[c] == ZOMBIE && t.pid[c] == e;
      }
    }
  }

  lemma HistoryKept(s: Sys, p: nat, a: Step)
    requires Protocol(s) && History(s) && p < NPROC && Enabled(s, p, a)
    ensures Shape(Do(s, p, a)) && History(Do(s, p, a))
  {
    hide CanMisc, CanWait, CanExit, CanFork, DoMisc, DoWait, DoExit, DoFork, Protocol, History, Uneventful;
    Sized(s);
    match a
    case Misc(m) => MiscUneventful(s, p, m); UneventfulKeeps(s, DoMisc(s, p, m));
    case Wait(w) =>
      if w.WReap? { ReapHistory(s, p); } else { WaitUneventful(s, p, w); UneventfulKeeps(s, DoWait(s, p, w)); }
    case Exit(x) =>
      if x.XZombie? { ZombieHistory(s, p); } else { ExitUneventful(s, p, x); UneventfulKeeps(s, DoExit(s, p, x)); }
    case Fork(f) =>
      if f.FAlloc? { AllocHistory(s, p, f.np); } else if f.FFail? { FailHistory(s, p); } else {
        ForkUneventful(s, p, f);
        UneventfulKeeps(s, DoFork(s, p, f));
      }
  }

  // ---------- whole runs ----------

  /** After userinit: one runnable process, all other slots free. */
  predicate Boot(s: Sys) {
    && Shape(s) && s.wl == NONE && s.exited == map[] && s.reaped == map[]
    && (forall p :: 0 <= p < NPROC ==> s.pc[p] == Idle && s.plock[p] == NONE && s.parent[p] == NONE
                                       && s.state[p] == (if p == INIT then RUNNABLE else UNUSED)
                                       && s.pid[p] < s.nextpid)
  }

  lemma BootOk(s: Sys)
    requires Boot(s)
    ensures Protocol(s) && History(s)
  {
  }

  /** A run: states, and the process and step that lead from each to the next. */
  ghost predicate IsRun(run: seq<Sys>, who: seq<nat>, what: seq<Step>) {
    && |run| > 0 && |who| == |what| == |run| - 1 && Boot(run[0])
    && (forall i :: 0 <= i < |who| ==> Steps(run[i], run[i + 1], who[i], what[i]))
  }

  predicate Steps(s: Sys, t: Sys, p: nat, a: Step) {
    Shape(s) && p < NPROC && Enabled(s, p, a) && t == Do(s, p, a)
  }

  lemma {:induction false} RunsAreSafe(run: seq<Sys>, who: seq<nat>, what: seq<Step>, k: nat)
    requires IsRun(run, who, what) && k < |run|
    ensures Protocol(run[k]) && History(run[k])
  {
    hide Protocol, History, Boot;
    if k == 0 {
      BootOk(run[0]);
    } else {
      RunsAreSafe(run, who, what, k - 1);
      assert Steps(run[k - 1], run[k], who[k - 1], what[k - 1]);
      ProtocolKept(run[k - 1], who[k - 1], what[k - 1]);
      HistoryKept(run[k - 1], who[k - 1], what[k - 1]);
    }
  }

  /**
    No lost child: in every run, whenever wait_lock is free, nobody asleep in wait has a zombie child, nor is anybody
    about to fall asleep there with one, and every parent is a live process.
   */
  lemma NoLostChild(run: seq<Sys>, who: seq<nat>, what: seq<Step>, k: nat, p: nat, c: nat)
    requires IsRun(run, who, what) && k < |run| && run[k].wl == NONE && p < NPROC && c < NPROC
    ensures |run[k].state| == |run[k].parent| == |run[k].pc| == |run[k].chan| == NPROC
    ensures run[k].state[p] == SLEEPING && run[k].chan[p] == p && run[k].parent[c] == p ==> run[k].state[c] != ZOMBIE
    ensures (run[k].pc[p] == SSet || run[k].pc[p] == SSched) && run[k].parent[c] == p ==> run[k].state[c] != ZOMBIE
    ensures run[k].parent[c] == p ==> run[k].state[p] != ZOMBIE && run[k].state[p] != UNUSED
  {
    hide History, IsRun, Knows, WlOk, PlOk, ForksApart;
    RunsAreSafe(run, who, what, k);
    assert Local(run[k], p) && Local(run[k], c);
    assert ZombieChild(run[k], c, p) <==> run[k].parent[c] == p && run[k].state[c] == ZOMBIE;
  }

  /** Every exit so far is either a zombie that can still be waited for or has been reported once, with its status. */
  lemma ExitsAccountedFor(run: seq<Sys>, who: seq<nat>, what: seq<Step>, k: nat, e: nat)
    requires IsRun(run, who, what) && k < |run| && e in run[k].exited
    ensures Shape(run[k]) && if e in run[k].reaped then run[k].reaped[e].1 == run[k].exited[e]
                             else exists c :: 0 <= c < NPROC && run[k].state[c] == ZOMBIE && run[k].pid[c] == e
  {
    hide Protocol, IsRun;
    RunsAreSafe(run, who, what, k);
    Sized(run[k]);
    assert ExitOk(run[k], e);
  }
}
