/**
  The life of a process slot, project1.b kernel/proc.c: between which states it can go, and by whose doing.
 */
module LifeCycle {
  import opened ProcessLife
  import opened Reaping
  import opened Lifetimes

  /** Step a of p is a wakeup of c on the channel it sleeps on: by exit, of init or of the parent. */
  predicate WokenBy(s: Sys, p: nat, a: Step, c: nat)
    requires Shape(s) && p < NPROC && c < NPROC
  {
    c != p && ((a == Exit(XWakeInit) && s.chan[c] == INIT) || (a == Exit(XWakeParent) && s.chan[c] == s.parent[p]))
  }

  /** What step a of p may do to the state of slot c. */
  predicate StateLaw(s: Sys, t: Sys, p: nat, a: Step, c: nat)
    requires Shape(s) && Shape(t) && p < NPROC && c < NPROC
  {
    match s.state[c]
    case UNUSED => t.state[c] == UNUSED || (t.state[c] == USED && a == Fork(FAlloc(c)))
    case USED =>
      t.state[c] == USED || (t.state[c] == RUNNABLE && a == Fork(FSetReady) && s.pc[p] == FReady(c))
      || (t.state[c] == UNUSED && a == Fork(FFail) && s.pc[p] == FCopy(c))
    case RUNNABLE =>
      t.state[c] == RUNNABLE || (t.state[c] == RUNNING && c == p && (a == Misc(Schedule) || a == Wait(SWake)))
    case RUNNING =>
      t.state[c] == RUNNING || (t.state[c] == RUNNABLE && c == p && a == Misc(Yield))
      || (t.state[c] == SLEEPING && c == p && ((a.Misc? && a.m.Doze? && t.chan[c] == a.m.c)
                                               || (a == Wait(SMark) && t.chan[c] == p)))
      || (t.state[c] == ZOMBIE && c == p && a == Exit(XZombie))
    case SLEEPING =>
      t.state[c] == SLEEPING
      || (t.state[c] == RUNNABLE
          && (a == Misc(Kill(c)) || (a == Misc(Rouse(c)) && s.pc[c].Other?) || WokenBy(s, p, a, c)))
    case ZOMBIE => t.state[c] == ZOMBIE || (t.state[c] == UNUSED && a == Wait(WReap) && s.parent[c] == p)
  }

  lemma MiscStates(s: Sys, p: nat, a: MiscStep, c: nat)
    requires Protocol(s) && p < NPROC && c < NPROC && CanMisc(s, p, a)
    ensures StateLaw(s, DoMisc(s, p, a), p, Misc(a), c)
  {
    hide Knows, NotMissed, ParentOk, WlOk, PlOk, ForksApart, InitOk;
    assert Local(s, p);
  }

  lemma WaitStates(s: Sys, p: nat, a: WaitStep, c: nat)
    requires Protocol(s) && p < NPROC && c < NPROC && CanWait(s, p, a)
    ensures Shape(DoWait(s, p, a)) && StateLaw(s, DoWait(s, p, a), p, Wait(a), c)
  {
    hide NotMissed, ParentOk, WlOk, PlOk, ForksApart, InitOk, ZombieChild;
    assert Local(s, p);
  }

  lemma ExitStates(s: Sys, p: nat, a: ExitStep, c: nat)
    requires Protocol(s) && p < NPROC && c < NPROC && CanExit(s, p, a)
    ensures Shape(DoExit(s, p, a)) && StateLaw(s, DoExit(s, p, a), p, Exit(a), c)
  {
    hide Knows, NotMissed, ParentOk, WlOk, PlOk, ForksApart, InitOk;
    assert Local(s, p);
  }

  lemma ForkStates(s: Sys, p: nat, a: ForkStep, c: nat)
    requires Protocol(s) && p < NPROC && c < NPROC && CanFork(s, p, a)
    ensures Shape(DoFork(s, p, a)) && StateLaw(s, DoFork(s, p, a), p, Fork(a), c)
  {
    hide NotMissed, ParentOk, WlOk, PlOk, ForksApart, InitOk;
    assert Local(s, p);
  }

  lemma StepStates(s: Sys, t: Sys, p: nat, a: Step, c: nat)
    requires Protocol(s) && Shape(t) && Steps(s, t, p, a) && c < NPROC
    ensures StateLaw(s, t, p, a, c)
  {
    hide Protocol, StateLaw, CanMisc, CanWait, CanExit, CanFork, DoMisc, DoWait, DoExit, DoFork;
    match a
    case Misc(m) => MiscStates(s, p, m, c);
    case Wait(w) => WaitStates(s, p, w, c);
    case Exit(x) => ExitStates(s, p, x, c);
    case Fork(f) => ForkStates(s, p, f, c);
  }

  /**
    In every run a slot goes from unused to used to runnable by a fork, from runnable to running and back by the
    scheduler, from running to sleeping or zombie by its own thread, from sleeping to runnable only by a kill or by a
    wakeup on the channel it sleeps on, and from zombie to unused only by its parent's wait.
   */
  lemma StatesChange(run: seq<Sys>, who: seq<nat>, what: seq<Step>, k: nat, c: nat)
    requires IsRun(run, who, what) && k + 1 < |run| && c < NPROC
    ensures Shape(run[k]) && Shape(run[k + 1]) && |who| == |what| == |run| - 1 && who[k] < NPROC
    ensures StateLaw(run[k], run[k + 1], who[k], what[k], c)
  {
    hide Protocol, History, IsRun, Laws, StateLaw, Steps;
    AlongRun(run, who, what, k);
    AlongRun(run, who, what, k + 1);
    StepStates(run[k], run[k + 1], who[k], what[k], c);
  }

  /** The wakeup of exit reaches every parent that sleeps in wait: when its loop is past it, it sleeps no more. */
  lemma WakeupWakes(s: Sys, t: Sys, p: nat)
    requires Protocol(s) && Steps(s, t, p, Exit(XWakeParent))
    ensures s.pc[p].XWakeP? && Shape(t) && s.pc[p].j < NPROC
    ensures var j := s.pc[p].j;
            s.parent[p] == j && s.state[j] == SLEEPING && s.pc[j].Asleep? ==> t.state[j] == RUNNABLE
  {
    hide NotMissed, WlOk, PlOk, ForksApart, InitOk;
    assert Local(s, p) && Local(s, s.pc[p].j);
  }
}
