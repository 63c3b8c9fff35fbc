/**
  fork, exit, wait, sleep and wakeup (project1.b kernel/proc.c) as steps of many processes, interleaved in any order
  that wait_lock and the per-process locks allow.
 */
module ProcessLife {
  const NPROC: nat := 64
  const INIT: nat := 0          // the slot of initproc
  const NONE: int := -1

  datatype PState = UNUSED | USED | SLEEPING | RUNNABLE | RUNNING | ZOMBIE

  /** Where the kernel thread of a process is. */
  datatype Pc =
    | Idle                                    // no thread yet: free slot, or a child that has not run
    | Run                                     // anywhere outside the code below, holding none of its locks
    | Other                                   // asleep on some other channel
    | WAcq | WScan(i: nat, kids: bool) | WCheck(i: nat, kids: bool)            // wait
    | SAcq | SRel | SSet | SSched | Asleep                                     // its sleep(p, &wait_lock)
    | XAcq(st: int) | XRep(st: int, i: nat) | XWakeI(st: int, i: nat, j: nat)  // exit and reparent
    | XWakeP(st: int, j: nat) | XSet(st: int) | XRelW | XSched | Dead
    | FCopy(np: nat) | FParent(np: nat) | FReady(np: nat)                      // fork

  datatype Sys = Sys(
    state: seq<PState>, parent: seq<int>, chan: seq<int>, pid: seq<nat>, xstate: seq<int>, killed: seq<bool>,
    pc: seq<Pc>, wl: int, plock: seq<int>, nextpid: nat,
    exited: map<nat, int>,                    // pid to exit status, for every exit so far
    reaped: map<nat, (nat, int)>)             // pid to who waited for it and the status it was told

  predicate Slot(p: int) { 0 <= p < NPROC }

  predicate Shape(s: Sys) {
    && |s.state| == |s.parent| == |s.chan| == |s.pid| == |s.xstate| == |s.killed| == |s.pc| == |s.plock| == NPROC
    && (s.wl == NONE || Slot(s.wl))
  }

  predicate HoldsW(pc: Pc) {
    pc.WScan? || pc.WCheck? || pc.SAcq? || pc.SRel? || pc.XRep? || pc.XWakeI? || pc.XWakeP? || pc.XSet? || pc.XRelW?
  }

  /** The process whose lock a thread holds, if any. */
  function HoldsP(pc: Pc, p: nat): int {
    match pc
    case WCheck(i, _) => i
    case SRel | SSet | SSched | XSet(_) | XRelW | XSched => p
    case FCopy(np) => np
    case _ => NONE
  }

  // ---------- the steps ----------

  datatype MiscStep = Yield | Schedule | Doze(c: int) | Rouse(q: nat) | Kill(q: nat)

  datatype WaitStep = WStart | WLock | WNext | WTake | WReap | WFault | WDrop | WGiveUp
    | WSleep | SLock | SRelease | SMark | SSwitch | SWake

  datatype ExitStep = XStart(st: int) | XLockW | XGive | XSkip | XWakeInit | XNextChild | XToParent
    | XWakeParent | XLockP | XZombie | XReleaseW | XSwitch

  datatype ForkStep = FAlloc(np: nat) | FFail | FDone | FLink | FSetReady

  predicate FreeLock(s: Sys, p: int)
    requires Shape(s)
  {
    Slot(p) && s.plock[p] == NONE
  }

  function At(s: Sys, p: nat, pc: Pc): Sys
    requires p < |s.pc|
  {
    s.(pc := s.pc[p := pc])
  }

  /** freeproc. */
  function Freed(s: Sys, i: nat): Sys
    requires Shape(s) && i < NPROC
  {
    s.(state := s.state[i := UNUSED], parent := s.parent[i := NONE], chan := s.chan[i := NONE], pid := s.pid[i := 0],
       xstate := s.xstate[i := 0], killed := s.killed[i := false], pc := s.pc[i := Idle])
  }

  /** Places where a thread runs and holds no lock, so that a timer interrupt can take the CPU from it. */
  predicate LockFree(pc: Pc) { pc.Run? || pc.WAcq? || pc.XAcq? || pc.FParent? || pc.FReady? }

  /** Being scheduled, preempted, sleeping on other channels and being woken there, being killed. */
  predicate CanMisc(s: Sys, p: nat, a: MiscStep)
    requires Shape(s) && p < NPROC
  {
    var pc := s.pc[p];
    match a
    case Yield => LockFree(pc) && s.state[p] == RUNNING && FreeLock(s, p)
    case Schedule => (pc.Idle? || LockFree(pc)) && s.state[p] == RUNNABLE && FreeLock(s, p)
    case Doze(c) => pc.Run? && s.state[p] == RUNNING && c >= NPROC && FreeLock(s, p)
    case Rouse(q) => pc.Run? && FreeLock(s, q) && s.pc[q].Other? && s.state[q] == SLEEPING
    case Kill(q) => pc.Run? && FreeLock(s, q) && s.state[q] != UNUSED
  }

  function DoMisc(s: Sys, p: nat, a: MiscStep): Sys
    requires Shape(s) && p < NPROC && CanMisc(s, p, a)
  {
    match a
    case Yield => s.(state := s.state[p := RUNNABLE])
    case Schedule => At(s.(state := s.state[p := RUNNING]), p, if s.pc[p].Idle? then Run else s.pc[p])
    case Doze(c) => At(s.(state := s.state[p := SLEEPING], chan := s.chan[p := c]), p, Other)
    case Rouse(q) => s.(state := s.state[q := RUNNABLE])
    case Kill(q) =>
      s.(killed := s.killed[q := true], state := if s.state[q] == SLEEPING then s.state[q := RUNNABLE] else s.state)
  }

  predicate CanWait(s: Sys, p: nat, a: WaitStep)
    requires Shape(s) && p < NPROC
  {
    var pc := s.pc[p];
    match a
    case WStart => pc.Run? && s.state[p] == RUNNING
    case WLock => pc.WAcq? && s.state[p] == RUNNING && s.wl == NONE
    case WNext => pc.WScan? && pc.i < NPROC && s.parent[pc.i] != p
    case WTake => pc.WScan? && pc.i < NPROC && s.parent[pc.i] == p && FreeLock(s, pc.i)
    case WReap => pc.WCheck? && Slot(pc.i) && s.state[pc.i] == ZOMBIE
    case WFault => pc.WCheck? && Slot(pc.i) && s.state[pc.i] == ZOMBIE
    case WDrop => pc.WCheck? && Slot(pc.i) && s.state[pc.i] != ZOMBIE
    case WGiveUp => pc.WScan? && pc.i >= NPROC && (!pc.kids || s.killed[p])
    case WSleep => pc.WScan? && pc.i >= NPROC && pc.kids && !s.killed[p]
    case SLock => pc.SAcq? && FreeLock(s, p)
    case SRelease => pc.SRel?
    case SMark => pc.SSet?
    case SSwitch => pc.SSched?
    case SWake => (pc.Asleep? || pc.Other?) && s.state[p] == RUNNABLE && FreeLock(s, p)
  }

  /** wait, and its call of sleep: WFault is a failed copyout, SWake the scheduler running the sleeper again. */
  function DoWait(s: Sys, p: nat, a: WaitStep): Sys
    requires Shape(s) && p < NPROC && CanWait(s, p, a)
  {
    var pc := s.pc[p];
    match a
    case WStart => At(s, p, WAcq)
    case WLock => At(s.(wl := p), p, WScan(0, false))
    case WNext => At(s, p, WScan(pc.i + 1, pc.kids))
    case WTake => At(s.(plock := s.plock[pc.i := p]), p, WCheck(pc.i, true))
    case WReap =>
      At(Freed(s.(reaped := s.reaped[s.pid[pc.i] := (p, s.xstate[pc.i])], wl := NONE, plock := s.plock[pc.i := NONE]),
          pc.i), p, Run)
    case WFault => At(s.(wl := NONE, plock := s.plock[pc.i := NONE]), p, Run)
    case WDrop => At(s.(plock := s.plock[pc.i := NONE]), p, WScan(pc.i + 1, true))
    case WGiveUp => At(s.(wl := NONE), p, Run)
    case WSleep => At(s, p, SAcq)
    case SLock => At(s.(plock := s.plock[p := p]), p, SRel)
    case SRelease => At(s.(wl := NONE), p, SSet)
    case SMark => At(s.(state := s.state[p := SLEEPING], chan := s.chan[p := p]), p, SSched)
    case SSwitch => At(s.(plock := s.plock[p := NONE]), p, Asleep)
    case SWake => At(s.(state := s.state[p := RUNNING], chan := s.chan[p := NONE]), p, if pc.Asleep? then WAcq else Run)
  }

  /** One process of a wakeup loop: made runnable if it sleeps on the channel, unless it is the caller. */
  function Woken(s: Sys, p: nat, j: nat, c: int): seq<PState>
    requires Shape(s) && j < NPROC
  {
    if j != p && s.state[j] == SLEEPING && s.chan[j] == c then s.state[j := RUNNABLE] else s.state
  }

  predicate CanExit(s: Sys, p: nat, a: ExitStep)
    requires Shape(s) && p < NPROC
  {
    var pc := s.pc[p];
    match a
    case XStart(st) => pc.Run? && s.state[p] == RUNNING && p != INIT
    case XLockW => pc.XAcq? && s.state[p] == RUNNING && s.wl == NONE
    case XGive => pc.XRep? && pc.i < NPROC && s.parent[pc.i] == p
    case XSkip => pc.XRep? && pc.i < NPROC && s.parent[pc.i] != p
    case XWakeInit => pc.XWakeI? && pc.j < NPROC && (pc.j == p || FreeLock(s, pc.j))
    case XNextChild => pc.XWakeI? && pc.j >= NPROC
    case XToParent => pc.XRep? && pc.i >= NPROC
    case XWakeParent => pc.XWakeP? && pc.j < NPROC && (pc.j == p || FreeLock(s, pc.j))
    case XLockP => pc.XWakeP? && pc.j >= NPROC && FreeLock(s, p)
    case XZombie => pc.XSet?
    case XReleaseW => pc.XRelW?
    case XSwitch => pc.XSched?
  }

  /** exit, with reparent and the two wakeup loops. */
  function DoExit(s: Sys, p: nat, a: ExitStep): Sys
    requires Shape(s) && p < NPROC && CanExit(s, p, a)
  {
    var pc := s.pc[p];
    match a
    case XStart(st) => At(s, p, XAcq(st))
    case XLockW => At(s.(wl := p), p, XRep(pc.st, 0))
    case XGive => At(s.(parent := s.parent[pc.i := INIT]), p, XWakeI(pc.st, pc.i, 0))
    case XSkip => At(s, p, XRep(pc.st, pc.i + 1))
    case XWakeInit => At(s.(state := Woken(s, p, pc.j, INIT)), p, XWakeI(pc.st, pc.i, pc.j + 1))
    case XNextChild => At(s, p, XRep(pc.st, pc.i + 1))
    case XToParent => At(s, p, XWakeP(pc.st, 0))
    case XWakeParent => At(s.(state := Woken(s, p, pc.j, s.parent[p])), p, XWakeP(pc.st, pc.j + 1))
    case XLockP => At(s.(plock := s.plock[p := p]), p, XSet(pc.st))
    case XZombie =>
      At(s.(state := s.state[p := ZOMBIE], xstate := s.xstate[p := pc.st],
            exited := s.exited[s.pid[p] := pc.st]), p, XRelW)
    case XReleaseW => At(s.(wl := NONE), p, XSched)
    case XSwitch => At(s.(plock := s.plock[p := NONE]), p, Dead)
  }

  predicate CanFork(s: Sys, p: nat, a: ForkStep)
    requires Shape(s) && p < NPROC
  {
    var pc := s.pc[p];
    match a
    case FAlloc(np) => pc.Run? && s.state[p] == RUNNING && FreeLock(s, np) && s.state[np] == UNUSED
    case FFail => pc.FCopy? && Slot(pc.np)
    case FDone => pc.FCopy? && Slot(pc.np)
    case FLink => pc.FParent? && s.state[p] == RUNNING && Slot(pc.np) && s.wl == NONE
    case FSetReady => pc.FReady? && s.state[p] == RUNNING && FreeLock(s, pc.np)
  }

  /** fork, with allocproc; FFail is memory running out. */
  function DoFork(s: Sys, p: nat, a: ForkStep): Sys
    requires Shape(s) && p < NPROC && CanFork(s, p, a)
  {
    var pc := s.pc[p];
    match a
    case FAlloc(np) =>
      At(s.(state := s.state[np := USED], pid := s.pid[np := s.nextpid], nextpid := s.nextpid + 1,
          plock := s.plock[np := p]), p, FCopy(np))
    case FFail => At(Freed(s.(plock := s.plock[pc.np := NONE]), pc.np), p, Run)
    case FDone => At(s.(plock := s.plock[pc.np := NONE]), p, FParent(pc.np))
    case FLink => At(s.(parent := s.parent[pc.np := p]), p, FReady(pc.np))
    case FSetReady => At(s.(state := s.state[pc.np := RUNNABLE]), p, Run)
  }

  // ---------- the invariant ----------

  /** A process with a thread that has not exited. */
  predicate Alive(x: PState) { x != UNUSED && x != USED && x != ZOMBIE }

  predicate StateOk(x: PState, c: int, pc: Pc, p: nat) {
    match pc
    case Idle => x == UNUSED || x == USED || x == RUNNABLE
    case Run | WAcq | XAcq(_) | FParent(_) | FReady(_) => x == RUNNING || x == RUNNABLE
    case Other => (x == SLEEPING && c >= NPROC) || x == RUNNABLE
    case Asleep => (x == SLEEPING && c == p) || x == RUNNABLE
    case SSched => x == SLEEPING && c == p
    case XRelW | XSched | Dead => x == ZOMBIE
    case _ => x == RUNNING
  }

  predicate WlOk(s: Sys, p: nat)
    requires p < |s.pc|
  {
    HoldsW(s.pc[p]) <==> s.wl == p
  }

  /** A thread has the lock it holds, and a lock that is taken is held by that thread. */
  predicate PlOk(s: Sys, p: nat)
    requires p < |s.pc| == |s.plock|
  {
    && (HoldsP(s.pc[p], p) != NONE ==>
          Slot(HoldsP(s.pc[p], p)) && |s.plock| == NPROC && s.plock[HoldsP(s.pc[p], p)] == p)
    && (s.plock[p] != NONE ==> Slot(s.plock[p]) && |s.pc| == NPROC && HoldsP(s.pc[s.plock[p]], s.plock[p]) == p)
  }

  predicate ParentOk(s: Sys, c: nat)
    requires c < |s.parent| == |s.state|
  {
    && (s.parent[c] == NONE
        || (Slot(s.parent[c]) && |s.state| == NPROC && s.parent[c] != c && Alive(s.state[s.parent[c]])))
    && (s.state[c] == UNUSED ==> s.parent[c] == NONE)
  }

  predicate Child(s: Sys, c: int, p: nat)
    requires |s.parent| == NPROC
  {
    Slot(c) && s.parent[c] == p
  }

  predicate ZombieChild(s: Sys, c: int, p: nat)
    requires |s.parent| == |s.state| == NPROC
  {
    Child(s, c, p) && s.state[c] == ZOMBIE
  }

  /** On its way to sleep in wait, past the last look at its children. */
  predicate Committed(s: Sys, p: int)
    requires |s.pc| == |s.state| == NPROC
  {
    Slot(p) && (s.pc[p].SSet? || s.pc[p].SSched? || (s.pc[p].Asleep? && s.state[p] == SLEEPING))
  }

  /** What a thread knows at its place in the code, by the locks it holds. */
  ghost predicate Knows(s: Sys, p: nat)
    requires |s.parent| == |s.state| == |s.pc| == NPROC && p < NPROC
  {
    match s.pc[p]
    case WScan(i, _) => forall c :: c < i ==> !ZombieChild(s, c, p)
    case WCheck(i, _) => Child(s, i, p) && forall c :: c < i ==> !ZombieChild(s, c, p)
    case SAcq | SRel => forall c :: !ZombieChild(s, c, p)
    case XRep(_, i) => forall c :: c < i ==> !Child(s, c, p)
    case XWakeI(_, i, _) => Child(s, i, INIT) && forall c :: c <= i ==> !Child(s, c, p)
    case XWakeP(_, j) => (forall c :: !Child(s, c, p)) && (s.parent[p] < j ==> !Committed(s, s.parent[p]))
    case XSet(_) => (forall c :: !Child(s, c, p)) && !Committed(s, s.parent[p])
    case FCopy(np) => BeingMade(s, p, np) && s.parent[np] == NONE
    case FParent(np) => BeingMade(s, p, np) && s.parent[np] == NONE
    case FReady(np) => BeingMade(s, p, np)
    case _ => true
  }

  predicate BeingMade(s: Sys, p: nat, np: int)
    requires |s.state| == |s.pc| == |s.parent| == NPROC
  {
    Slot(np) && np != p && np != INIT && s.state[np] == USED && s.pc[np] == Idle
  }

  function Making(pc: Pc): int { if pc.FCopy? || pc.FParent? || pc.FReady? then pc.np else NONE }

  /** Reparenting has handed child c to init, but its wakeup has not got to init yet. */
  predicate JustGiven(s: Sys, c: int)
    requires |s.pc| == NPROC
  {
    Slot(s.wl) && s.pc[s.wl].XWakeI? && s.pc[s.wl].i == c && s.pc[s.wl].j <= INIT
  }

  /** A process going to sleep in wait, or asleep there, has no zombie child but one init is about to be woken for. */
  ghost predicate NotMissed(s: Sys, p: nat)
    requires |s.parent| == |s.state| == |s.pc| == NPROC && p < NPROC
  {
    Committed(s, p) ==> forall c :: ZombieChild(s, c, p) ==> p == INIT && JustGiven(s, c)
  }

  /** All that is said of one process. */
  ghost predicate Local(s: Sys, q: nat)
    requires Shape(s) && q < NPROC
  {
    StateOk(s.state[q], s.chan[q], s.pc[q], q) && WlOk(s, q) && PlOk(s, q) && ParentOk(s, q) && Knows(s, q)
    && NotMissed(s, q)
  }

  /** The process that never exits. */
  predicate InitOk(s: Sys)
    requires |s.state| == |s.parent| == |s.pc| == NPROC
  {
    Alive(s.state[INIT]) && s.parent[INIT] == NONE && !Exiting(s.pc[INIT])
  }

  predicate Exiting(pc: Pc) { pc.XAcq? || pc.XRep? || pc.XWakeI? || pc.XWakeP? || pc.XSet? }

  ghost predicate ForksApart(s: Sys)
    requires Shape(s)
  {
    forall p, q :: 0 <= p < NPROC && 0 <= q < NPROC && Making(s.pc[p]) == Making(s.pc[q]) != NONE ==> p == q
  }

  ghost predicate Protocol(s: Sys) {
    && Shape(s) && InitOk(s) && ForksApart(s)
    && (forall p :: 0 <= p < NPROC ==> Local(s, p))
  }

  // ---------- every step keeps it ----------

  /** A step moves one thread, and the locks taken and released are those of its old and new place. */
  predicate LockStep(s: Sys, t: Sys, p: nat)
    requires |s.pc| == |s.plock| == NPROC && |t.pc| == NPROC && p < NPROC
  {
    var before, after := s.pc[p], t.pc[p];
    var i, j := HoldsP(before, p), HoldsP(after, p);
    && (forall q :: 0 <= q < NPROC && q != p ==> t.pc[q] == s.pc[q] || (NoLocks(s.pc[q]) && t.pc[q] == Idle))
    && t.wl == (if HoldsW(after) then p else if HoldsW(before) then NONE else s.wl)
    && (HoldsW(after) && !HoldsW(before) ==> s.wl == NONE)
    && (i == j || i == NONE || j == NONE)
    && (i == j ==> t.plock == s.plock)
    && (i == NONE != j ==> Slot(j) && s.plock[j] == NONE && t.plock == s.plock[j := p])
    && (i != NONE == j ==> Slot(i) && t.plock == s.plock[i := NONE])
  }

  predicate NoLocks(pc: Pc) { pc.Idle? || pc.Dead? }

  lemma LocksFollow(s: Sys, t: Sys, p: nat, q: nat)
    requires Shape(s) && Shape(t) && p < NPROC && q < NPROC && LockStep(s, t, p)
    requires forall x :: 0 <= x < NPROC ==> WlOk(s, x) && PlOk(s, x)
    ensures WlOk(t, q) && PlOk(t, q)
  {
    assert WlOk(s, p) && PlOk(s, p) && WlOk(s, q) && PlOk(s, q);
  }

  /** A zombie whose lock a waiter has got has left the CPU for good. */
  lemma DeadNow(s: Sys, p: nat)
    requires Protocol(s) && p < NPROC && s.pc[p].WCheck?
    ensures Slot(s.pc[p].i) && s.pc[p].i != p && s.plock[s.pc[p].i] == p
    ensures s.state[s.pc[p].i] == ZOMBIE ==> s.pc[s.pc[p].i].Dead?
  {
    hide NotMissed;
    assert Local(s, p);
    var i := s.pc[p].i;
    assert Local(s, i);
  }

  lemma MiscLocks(s: Sys, p: nat, a: MiscStep)
    requires Protocol(s) && p < NPROC && CanMisc(s, p, a)
    ensures Shape(DoMisc(s, p, a)) && LockStep(s, DoMisc(s, p, a), p)
  {
    hide Knows, NotMissed, ParentOk, ForksApart, InitOk;
    assert Local(s, p);
  }

  lemma WaitLocks(s: Sys, p: nat, a: WaitStep)
    requires Protocol(s) && p < NPROC && CanWait(s, p, a)
    ensures Shape(DoWait(s, p, a)) && LockStep(s, DoWait(s, p, a), p)
  {
    hide Protocol, LockStep;
    if a.WReap? { ReapLocks(s, p); } else { OtherWaitLocks(s, p, a); }
  }

  lemma ReapLocks(s: Sys, p: nat)
    requires Protocol(s) && p < NPROC && CanWait(s, p, WReap)
    ensures Shape(DoWait(s, p, WReap)) && LockStep(s, DoWait(s, p, WReap), p)
  {
    hide Knows, NotMissed, ParentOk, ForksApart, InitOk;
    assert Local(s, p);
    DeadNow(s, p);
  }

  lemma OtherWaitLocks(s: Sys, p: nat, a: WaitStep)
    requires Protocol(s) && p < NPROC && CanWait(s, p, a) && !a.WReap?
    ensures Shape(DoWait(s, p, a)) && LockStep(s, DoWait(s, p, a), p)
  {
    hide Knows, NotMissed, ParentOk, ForksApart, InitOk, StateOk;
    assert Local(s, p);
  }

  lemma ExitTakesLocks(s: Sys, p: nat, a: ExitStep)
    requires Protocol(s) && p < NPROC && CanExit(s, p, a) && (a.XLockW? || a.XLockP? || a.XReleaseW? || a.XSwitch?)
    ensures Shape(DoExit(s, p, a)) && LockStep(s, DoExit(s, p, a), p)
  {
    hide Knows, NotMissed, ParentOk, ForksApart, InitOk, StateOk;
    assert Local(s, p);
  }

  lemma ExitKeepsLocks(s: Sys, p: nat, a: ExitStep)
    requires Protocol(s) && p < NPROC && CanExit(s, p, a) && !(a.XLockW? || a.XLockP? || a.XReleaseW? || a.XSwitch?)
    ensures Shape(DoExit(s, p, a)) && LockStep(s, DoExit(s, p, a), p)
  {
    hide Knows, NotMissed, ParentOk, ForksApart, InitOk, StateOk;
    assert Local(s, p);
  }

  lemma ExitLocks(s: Sys, p: nat, a: ExitStep)
    requires Protocol(s) && p < NPROC && CanExit(s, p, a)
    ensures Shape(DoExit(s, p, a)) && LockStep(s, DoExit(s, p, a), p)
  {
    hide Protocol, LockStep, DoExit, CanExit;
    if a.XLockW? || a.XLockP? || a.XReleaseW? || a.XSwitch? {
      ExitTakesLocks(s, p, a);
    } else {
      ExitKeepsLocks(s, p, a);
    }
  }

  lemma ForkLocks(s: Sys, p: nat, a: ForkStep)
    requires Protocol(s) && p < NPROC && CanFork(s, p, a)
    ensures Shape(DoFork(s, p, a)) && LockStep(s, DoFork(s, p, a), p)
  {
    hide NotMissed, ParentOk, ForksApart, InitOk;
    assert Local(s, p);
  }

  // ---------- scheduling ----------

  lemma MiscStates(s: Sys, p: nat, a: MiscStep, q: nat)
    requires Protocol(s) && p < NPROC && CanMisc(s, p, a) && q < NPROC
    ensures var t := DoMisc(s, p, a); StateOk(t.state[q], t.chan[q], t.pc[q], q)
  {
    hide NotMissed, ForksApart, WlOk;
    assert Local(s, p) && Local(s, q);
  }

  lemma MiscParents(s: Sys, p: nat, a: MiscStep, q: nat)
    requires Protocol(s) && p < NPROC && CanMisc(s, p, a) && q < NPROC
    ensures ParentOk(DoMisc(s, p, a), q)
  {
    hide NotMissed, ForksApart, WlOk;
    assert Local(s, p) && Local(s, q);
    if Slot(s.parent[q]) { assert Local(s, s.parent[q]); }
  }

  // ---------- wait ----------

  lemma WaitStates(s: Sys, p: nat, a: WaitStep, q: nat)
    requires Protocol(s) && p < NPROC && CanWait(s, p, a) && q < NPROC
    ensures var t := DoWait(s, p, a); StateOk(t.state[q], t.chan[q], t.pc[q], q)
  {
    hide NotMissed, ForksApart, WlOk;
    assert Local(s, p) && Local(s, q);
  }

  lemma WaitParents(s: Sys, p: nat, a: WaitStep, q: nat)
    requires Protocol(s) && p < NPROC && CanWait(s, p, a) && q < NPROC
    ensures ParentOk(DoWait(s, p, a), q)
  {
    hide NotMissed, ForksApart, WlOk;
    assert Local(s, p) && Local(s, q);
    if Slot(s.parent[q]) { assert Local(s, s.parent[q]); }
  }

  // ---------- exit ----------

  lemma ExitStates(s: Sys, p: nat, a: ExitStep, q: nat)
    requires Protocol(s) && p < NPROC && CanExit(s, p, a) && q < NPROC
    ensures var t := DoExit(s, p, a); StateOk(t.state[q], t.chan[q], t.pc[q], q)
  {
    hide NotMissed, ForksApart, WlOk, Knows, ParentOk;
    assert Local(s, p) && Local(s, q);
  }

  lemma ExitParents(s: Sys, p: nat, a: ExitStep, q: nat)
    requires Protocol(s) && p < NPROC && CanExit(s, p, a) && q < NPROC
    ensures ParentOk(DoExit(s, p, a), q)
  {
    hide NotMissed, ForksApart, WlOk, PlOk, Committed, ZombieChild;
    assert Local(s, p) && Local(s, q);
    assert a.XZombie? ==> !Child(s, q, p);
    if Slot(s.parent[q]) { assert Local(s, s.parent[q]); }
  }

  // ---------- fork ----------

  lemma ForkStates(s: Sys, p: nat, a: ForkStep, q: nat)
    requires Protocol(s) && p < NPROC && CanFork(s, p, a) && q < NPROC
    ensures var t := DoFork(s, p, a); StateOk(t.state[q], t.chan[q], t.pc[q], q)
  {
    hide NotMissed, ForksApart, WlOk;
    assert Local(s, p) && Local(s, q);
  }

  lemma ForkParents(s: Sys, p: nat, a: ForkStep, q: nat)
    requires Protocol(s) && p < NPROC && CanFork(s, p, a) && q < NPROC
    ensures ParentOk(DoFork(s, p, a), q)
  {
    hide NotMissed, ForksApart, WlOk, PlOk, ZombieChild, Committed;
    assert Local(s, p) && Local(s, q);
    if Slot(s.parent[q]) { assert Local(s, s.parent[q]); }
  }

  // ---------- what the threads know, and no missed wakeup ----------

  /** No new parents, no new zombies, nobody newly on the way to sleep in wait. */
  ghost predicate Steady(s: Sys, t: Sys)
    requires Shape(s) && Shape(t)
  {
    && t.parent == s.parent && (forall c :: 0 <= c < NPROC ==> (t.state[c] == ZOMBIE <==> s.state[c] == ZOMBIE))
    && (forall x :: Committed(t, x) ==> Committed(s, x))
  }

  lemma KnowsSteady(s: Sys, t: Sys, q: nat)
    requires Shape(s) && Shape(t) && q < NPROC && Steady(s, t) && t.pc[q] == s.pc[q] && Knows(s, q)
    requires Making(s.pc[q]) != NONE ==> BeingMade(t, q, Making(s.pc[q]))
    ensures Knows(t, q)
  {
    assert forall c, x :: ZombieChild(t, c, x) ==> ZombieChild(s, c, x);
    assert forall c, x :: Child(t, c, x) ==> Child(s, c, x);
  }

  lemma MissedSteady(s: Sys, t: Sys, q: nat)
    requires Shape(s) && Shape(t) && q < NPROC && Steady(s, t) && NotMissed(s, q)
    requires q == INIT && Committed(t, INIT) ==> forall c :: JustGiven(s, c) ==> JustGiven(t, c)
    ensures NotMissed(t, q)
  {
    assert forall c, x :: ZombieChild(t, c, x) ==> ZombieChild(s, c, x);
  }

  /** The slot a fork is filling is not touched by anybody else. */
  ghost predicate MakingKept(s: Sys, t: Sys, p: nat)
    requires Shape(s) && Shape(t) && p < NPROC
  {
    forall q :: 0 <= q < NPROC && q != p && Making(s.pc[q]) != NONE ==> BeingMade(t, q, Making(s.pc[q]))
  }

  lemma MiscSteady(s: Sys, p: nat, a: MiscStep)
    requires Protocol(s) && p < NPROC && CanMisc(s, p, a)
    ensures Shape(DoMisc(s, p, a)) && Steady(s, DoMisc(s, p, a))
  {
    hide NotMissed, ParentOk, Knows, WlOk, ForksApart;
    assert Local(s, p);
    forall q | 0 <= q < NPROC ensures StateOk(s.state[q], s.chan[q], s.pc[q], q) { assert Local(s, q); }
  }

  lemma MiscMaking(s: Sys, p: nat, a: MiscStep)
    requires Protocol(s) && p < NPROC && CanMisc(s, p, a)
    ensures Shape(DoMisc(s, p, a)) && MakingKept(s, DoMisc(s, p, a), p)
  {
    hide NotMissed, ParentOk, WlOk, PlOk;
    assert Local(s, p);
    forall q | 0 <= q < NPROC && Making(s.pc[q]) != NONE
      ensures BeingMade(s, q, Making(s.pc[q]))
    {
      assert Local(s, q);
    }
    forall q | 0 <= q < NPROC ensures StateOk(s.state[q], s.chan[q], s.pc[q], q) { assert Local(s, q); }
  }

  lemma MiscGiven(s: Sys, p: nat, a: MiscStep)
    requires Protocol(s) && p < NPROC && CanMisc(s, p, a)
    ensures Shape(DoMisc(s, p, a))
    ensures forall c :: JustGiven(s, c) ==> JustGiven(DoMisc(s, p, a), c)
  {
    hide NotMissed, ParentOk, Knows, ForksApart;
    assert Local(s, p) && Local(s, INIT);
    forall q | 0 <= q < NPROC ensures WlOk(s, q) && StateOk(s.state[q], s.chan[q], s.pc[q], q) { assert Local(s, q); }
  }

  lemma WaitSteady(s: Sys, p: nat, a: WaitStep)
    requires Protocol(s) && p < NPROC && CanWait(s, p, a) && !a.SRelease? && !a.WReap?
    ensures Shape(DoWait(s, p, a)) && Steady(s, DoWait(s, p, a))
  {
    hide NotMissed, ParentOk, Knows, WlOk, ForksApart;
    assert Local(s, p);
    forall q | 0 <= q < NPROC ensures StateOk(s.state[q], s.chan[q], s.pc[q], q) { assert Local(s, q); }
  }

  lemma WaitMaking(s: Sys, p: nat, a: WaitStep)
    requires Protocol(s) && p < NPROC && CanWait(s, p, a) && !a.SRelease? && !a.WReap?
    ensures Shape(DoWait(s, p, a)) && MakingKept(s, DoWait(s, p, a), p)
  {
    hide NotMissed, ParentOk, WlOk, PlOk;
    assert Local(s, p);
    forall q | 0 <= q < NPROC && Making(s.pc[q]) != NONE
      ensures BeingMade(s, q, Making(s.pc[q]))
    {
      assert Local(s, q);
    }
    forall q | 0 <= q < NPROC ensures StateOk(s.state[q], s.chan[q], s.pc[q], q) { assert Local(s, q); }
  }

  lemma WaitGiven(s: Sys, p: nat, a: WaitStep)
    requires Protocol(s) && p < NPROC && CanWait(s, p, a) && !a.SRelease? && !a.WReap?
    ensures Shape(DoWait(s, p, a))
    ensures forall c :: JustGiven(s, c) ==> JustGiven(DoWait(s, p, a), c)
  {
    hide NotMissed, ParentOk, Knows, ForksApart;
    assert Local(s, p) && Local(s, INIT);
    forall q | 0 <= q < NPROC ensures WlOk(s, q) && StateOk(s.state[q], s.chan[q], s.pc[q], q) { assert Local(s, q); }
  }

  lemma WaitKnows(s: Sys, p: nat, a: WaitStep)
    requires Protocol(s) && p < NPROC && CanWait(s, p, a)
    ensures Shape(DoWait(s, p, a)) && Knows(DoWait(s, p, a), p)
  {
    hide NotMissed, ParentOk, ForksApart, PlOk;
    assert Local(s, p);
    var t := DoWait(s, p, a);
    assert forall c, x :: !a.WReap? && ZombieChild(t, c, x) ==> ZombieChild(s, c, x);
  }

  lemma ExitSteady(s: Sys, p: nat, a: ExitStep)
    requires Protocol(s) && p < NPROC && CanExit(s, p, a) && !a.XZombie? && !a.XGive?
    ensures Shape(DoExit(s, p, a)) && Steady(s, DoExit(s, p, a))
  {
    hide NotMissed, ParentOk, Knows, WlOk, ForksApart;
    assert Local(s, p);
    forall q | 0 <= q < NPROC ensures StateOk(s.state[q], s.chan[q], s.pc[q], q) { assert Local(s, q); }
  }

  lemma ExitMaking(s: Sys, p: nat, a: ExitStep)
    requires Protocol(s) && p < NPROC && CanExit(s, p, a) && !a.XZombie? && !a.XGive?
    ensures Shape(DoExit(s, p, a)) && MakingKept(s, DoExit(s, p, a), p)
  {
    hide NotMissed, ParentOk, WlOk, PlOk;
    assert Local(s, p);
    forall q | 0 <= q < NPROC && Making(s.pc[q]) != NONE
      ensures BeingMade(s, q, Making(s.pc[q]))
    {
      assert Local(s, q);
    }
    forall q | 0 <= q < NPROC ensures StateOk(s.state[q], s.chan[q], s.pc[q], q) { assert Local(s, q); }
  }

  lemma ExitGiven(s: Sys, p: nat, a: ExitStep)
    requires Protocol(s) && p < NPROC && CanExit(s, p, a) && !a.XZombie? && !a.XGive?
    ensures Shape(DoExit(s, p, a))
    ensures Committed(DoExit(s, p, a), INIT) ==> forall c :: JustGiven(s, c) ==> JustGiven(DoExit(s, p, a), c)
  {
    hide NotMissed, ParentOk, Knows, ForksApart;
    assert Local(s, p) && Local(s, INIT);
    forall q | 0 <= q < NPROC ensures WlOk(s, q) && StateOk(s.state[q], s.chan[q], s.pc[q], q) { assert Local(s, q); }
  }

  lemma SameChildren(s: Sys, t: Sys, p: nat)
    requires |s.parent| == NPROC && t.parent == s.parent
    ensures forall c :: Child(t, c, p) ==> Child(s, c, p)
  {
  }

  /** The parent on its way to sleep holds its own lock until it is asleep, and is then woken. */
  lemma WokenParent(s: Sys, p: nat)
    requires Protocol(s) && p < NPROC && CanExit(s, p, XWakeParent)
    ensures Shape(DoExit(s, p, XWakeParent)) && Knows(DoExit(s, p, XWakeParent), p)
  {
    hide NotMissed, ForksApart, WlOk;
    assert Local(s, p);
    SameChildren(s, DoExit(s, p, XWakeParent), p);
    if s.pc[p].j == s.parent[p] { assert Local(s, s.pc[p].j); }
  }

  lemma OtherExitKnows(s: Sys, p: nat, a: ExitStep)
    requires Protocol(s) && p < NPROC && CanExit(s, p, a) && !a.XWakeParent?
    ensures Shape(DoExit(s, p, a)) && Knows(DoExit(s, p, a), p)
  {
    hide NotMissed, ForksApart, PlOk, WlOk;
    assert Local(s, p);
    var t := DoExit(s, p, a);
    assert forall c, x :: !a.XGive? && Child(t, c, x) ==> Child(s, c, x);
    assert forall c :: a.XGive? && Child(t, c, p) ==> Child(s, c, p);
  }

  lemma ExitKnows(s: Sys, p: nat, a: ExitStep)
    requires Protocol(s) && p < NPROC && CanExit(s, p, a)
    ensures Shape(DoExit(s, p, a)) && Knows(DoExit(s, p, a), p)
  {
    hide Protocol, Knows, DoExit;
    if a.XWakeParent? { WokenParent(s, p); } else { OtherExitKnows(s, p, a); }
  }

  lemma ForkSteady(s: Sys, p: nat, a: ForkStep)
    requires Protocol(s) && p < NPROC && CanFork(s, p, a) && !a.FLink? && !a.FFail?
    ensures Shape(DoFork(s, p, a)) && Steady(s, DoFork(s, p, a))
  {
    hide NotMissed, ParentOk, WlOk, ForksApart;
    assert Local(s, p);
    forall q | 0 <= q < NPROC ensures StateOk(s.state[q], s.chan[q], s.pc[q], q) { assert Local(s, q); }
  }

  lemma ForkMaking(s: Sys, p: nat, a: ForkStep)
    requires Protocol(s) && p < NPROC && CanFork(s, p, a) && !a.FLink? && !a.FFail?
    ensures Shape(DoFork(s, p, a)) && MakingKept(s, DoFork(s, p, a), p)
  {
    hide NotMissed, ParentOk, WlOk, PlOk;
    assert Local(s, p);
    forall q | 0 <= q < NPROC && Making(s.pc[q]) != NONE
      ensures BeingMade(s, q, Making(s.pc[q]))
    {
      assert Local(s, q);
    }
    forall q | 0 <= q < NPROC ensures StateOk(s.state[q], s.chan[q], s.pc[q], q) { assert Local(s, q); }
  }

  lemma ForkGiven(s: Sys, p: nat, a: ForkStep)
    requires Protocol(s) && p < NPROC && CanFork(s, p, a) && !a.FLink? && !a.FFail?
    ensures Shape(DoFork(s, p, a))
    ensures forall c :: JustGiven(s, c) ==> JustGiven(DoFork(s, p, a), c)
  {
    hide NotMissed, ParentOk, Knows, ForksApart;
    assert Local(s, p) && Local(s, INIT);
    forall q | 0 <= q < NPROC ensures WlOk(s, q) && StateOk(s.state[q], s.chan[q], s.pc[q], q) { assert Local(s, q); }
  }

  lemma ForkKnows(s: Sys, p: nat, a: ForkStep)
    requires Protocol(s) && p < NPROC && CanFork(s, p, a)
    ensures Shape(DoFork(s, p, a)) && Knows(DoFork(s, p, a), p)
  {
    hide NotMissed, ForksApart;
    assert Local(s, p);
    if a.FAlloc? { assert Local(s, a.np); }
  }

  // ---------- the steps that are not steady ----------

  /** While p has wait_lock nobody else is at a place that needs it. */
  lemma OnlyHolder(s: Sys, p: nat, q: nat)
    requires Protocol(s) && p < NPROC && q < NPROC && q != p && HoldsW(s.pc[p])
    ensures !HoldsW(s.pc[q])
  {
    hide Knows, NotMissed, ParentOk, ForksApart, PlOk, StateOk;
    assert Local(s, p) && Local(s, q);
  }

  lemma NotGiven(s: Sys, p: nat, c: int)
    requires Protocol(s) && p < NPROC && HoldsW(s.pc[p]) && !s.pc[p].XWakeI?
    ensures !JustGiven(s, c)
  {
    hide Knows, NotMissed, ParentOk, ForksApart, PlOk, StateOk;
    assert Local(s, p);
  }

  /** A thread going to sleep in wait has just seen that it has no zombie child. */
  lemma ReleaseKeeps(s: Sys, p: nat, q: nat)
    requires Protocol(s) && p < NPROC && CanWait(s, p, SRelease) && q < NPROC
    ensures var t := DoWait(s, p, SRelease); Shape(t) && (q != p ==> Knows(t, q)) && NotMissed(t, q)
  {
    hide ForksApart, ParentOk, PlOk;
    assert Local(s, p) && Local(s, q);
    if q != p { OnlyHolder(s, p, q); }
    NotGiven(s, p, 0);
    var t := DoWait(s, p, SRelease);
    forall c ensures !JustGiven(s, c) { NotGiven(s, p, c); }
    assert forall c, x :: ZombieChild(t, c, x) ==> ZombieChild(s, c, x);
  }

  /** The zombie leaves its parent's children for good. */
  lemma ReapKeeps(s: Sys, p: nat, q: nat)
    requires Protocol(s) && p < NPROC && CanWait(s, p, WReap) && q < NPROC
    ensures var t := DoWait(s, p, WReap); Shape(t) && (q != p ==> Knows(t, q)) && NotMissed(t, q)
  {
    hide ForksApart, ParentOk, PlOk;
    assert Local(s, p) && Local(s, q);
    if q != p { OnlyHolder(s, p, q); }
    var t := DoWait(s, p, WReap);
    forall c ensures !JustGiven(s, c) { NotGiven(s, p, c); }
    assert forall c, x :: Slot(x) && ZombieChild(t, c, x) ==> ZombieChild(s, c, x);
  }

  /** Becoming a zombie: the parent is not on its way to sleep, having been woken since wait_lock was taken. */
  lemma ZombieKeeps(s: Sys, p: nat, q: nat)
    requires Protocol(s) && p < NPROC && CanExit(s, p, XZombie) && q < NPROC
    ensures var t := DoExit(s, p, XZombie); Shape(t) && (q != p ==> Knows(t, q)) && NotMissed(t, q)
  {
    hide ForksApart, ParentOk, PlOk;
    assert Local(s, p) && Local(s, q);
    if q != p { OnlyHolder(s, p, q); }
    var t := DoExit(s, p, XZombie);
    forall c ensures !JustGiven(s, c) { NotGiven(s, p, c); }
    assert forall c, x :: ZombieChild(t, c, x) ==> ZombieChild(s, c, x) || (c == p && x == s.parent[p]);
  }

  /** A child handed to init: init may have to be woken for it, and is about to be. */
  lemma GiveKeeps(s: Sys, p: nat, q: nat)
    requires Protocol(s) && p < NPROC && CanExit(s, p, XGive) && q < NPROC
    ensures var t := DoExit(s, p, XGive); Shape(t) && (q != p ==> Knows(t, q)) && NotMissed(t, q)
  {
    hide ForksApart, ParentOk, PlOk;
    assert Local(s, p) && Local(s, q) && Local(s, INIT);
    if q != p { OnlyHolder(s, p, q); }
    var t := DoExit(s, p, XGive);
    forall c ensures !JustGiven(s, c) { NotGiven(s, p, c); }
    assert WlOk(s, p);
    assert forall c, x :: ZombieChild(t, c, x) ==> ZombieChild(s, c, x) || (c == s.pc[p].i && x == INIT);
  }

  lemma LinkKeeps(s: Sys, p: nat, q: nat)
    requires Protocol(s) && p < NPROC && CanFork(s, p, FLink) && q < NPROC
    ensures var t := DoFork(s, p, FLink); Shape(t) && (q != p ==> Knows(t, q)) && NotMissed(t, q)
  {
    hide ParentOk, PlOk;
    assert Local(s, p) && Local(s, q);
    var t := DoFork(s, p, FLink);
    assert forall c, x :: ZombieChild(t, c, x) ==> ZombieChild(s, c, x);
  }

  lemma FailChildren(s: Sys, p: nat)
    requires Protocol(s) && p < NPROC && CanFork(s, p, FFail)
    ensures Shape(DoFork(s, p, FFail))
    ensures forall c, x: nat :: Slot(x) && Child(DoFork(s, p, FFail), c, x) ==> Child(s, c, x)
    ensures forall c, x: nat :: Slot(x) && ZombieChild(DoFork(s, p, FFail), c, x) ==> ZombieChild(s, c, x)
  {
    hide ParentOk, NotMissed, PlOk, WlOk, ForksApart, Committed;
    assert Local(s, p);
  }

  lemma FailKnows(s: Sys, p: nat, q: nat)
    requires Protocol(s) && p < NPROC && CanFork(s, p, FFail) && q < NPROC
    ensures var t := DoFork(s, p, FFail); Shape(t) && (q != p ==> Knows(t, q))
  {
    hide NotMissed, PlOk, WlOk, ZombieChild;
    FailChildren(s, p);
    assert Local(s, p) && Local(s, q);
  }

  lemma FailMissed(s: Sys, p: nat, q: nat)
    requires Protocol(s) && p < NPROC && CanFork(s, p, FFail) && q < NPROC
    ensures var t := DoFork(s, p, FFail); Shape(t) && NotMissed(t, q)
  {
    hide ParentOk, PlOk, ForksApart, WlOk, InitOk;
    assert Local(s, p) && Local(s, q);
    if Slot(s.wl) { assert Local(s, s.wl); }
    FailChildren(s, p);
  }

  // ---------- all steps ----------

  datatype Step = Misc(m: MiscStep) | Wait(w: WaitStep) | Exit(x: ExitStep) | Fork(f: ForkStep)

  predicate Enabled(s: Sys, p: nat, a: Step)
    requires Shape(s) && p < NPROC
  {
    match a
    case Misc(m) => CanMisc(s, p, m)
    case Wait(w) => CanWait(s, p, w)
    case Exit(x) => CanExit(s, p, x)
    case Fork(f) => CanFork(s, p, f)
  }

  function Do(s: Sys, p: nat, a: Step): Sys
    requires Shape(s) && p < NPROC && Enabled(s, p, a)
  {
    match a
    case Misc(m) => DoMisc(s, p, m)
    case Wait(w) => DoWait(s, p, w)
    case Exit(x) => DoExit(s, p, x)
    case Fork(f) => DoFork(s, p, f)
  }

  lemma LocksKept(s: Sys, p: nat, a: Step, q: nat)
    requires Protocol(s) && p < NPROC && Enabled(s, p, a) && q < NPROC
    ensures Shape(Do(s, p, a)) && WlOk(Do(s, p, a), q) && PlOk(Do(s, p, a), q) && LockStep(s, Do(s, p, a), p)
  {
    hide CanMisc, CanWait, CanExit, CanFork, DoMisc, DoWait, DoExit, DoFork, Knows, NotMissed, ParentOk, StateOk, WlOk;
    hide PlOk, LockStep;
    match a {
      case Misc(m) => MiscLocks(s, p, m);
      case Wait(w) => WaitLocks(s, p, w);
      case Exit(x) => ExitLocks(s, p, x);
      case Fork(f) => ForkLocks(s, p, f);
    }
    forall x | 0 <= x < NPROC ensures WlOk(s, x) && PlOk(s, x) { assert Local(s, x); }
    LocksFollow(s, Do(s, p, a), p, q);
  }

  lemma StatesKept(s: Sys, p: nat, a: Step, q: nat)
    requires Protocol(s) && p < NPROC && Enabled(s, p, a) && q < NPROC
    ensures var t := Do(s, p, a); Shape(t) && StateOk(t.state[q], t.chan[q], t.pc[q], q) && ParentOk(t, q)
  {
    hide CanMisc, CanWait, CanExit, CanFork, DoMisc, DoWait, DoExit, DoFork, Local, StateOk, ParentOk;
    LocksKept(s, p, a, q);
    match a
    case Misc(m) => MiscStates(s, p, m, q); MiscParents(s, p, m, q);
    case Wait(w) => WaitStates(s, p, w, q); WaitParents(s, p, w, q);
    case Exit(x) => ExitStates(s, p, x, q); ExitParents(s, p, x, q);
    case Fork(f) => ForkStates(s, p, f, q); ForkParents(s, p, f, q);
  }

  /** Others' places do not change, but for a slot that is freed. */
  lemma SteadyKeeps(s: Sys, t: Sys, p: nat, q: nat)
    requires Protocol(s) && Shape(t) && p < NPROC && q < NPROC && LockStep(s, t, p) && Steady(s, t)
             && MakingKept(s, t, p)
    requires Committed(t, INIT) ==> forall c :: JustGiven(s, c) ==> JustGiven(t, c)
    ensures (q != p ==> Knows(t, q)) && NotMissed(t, q)
  {
    hide Steady, ParentOk, StateOk, WlOk, PlOk, ForksApart;
    assert Local(s, q);
    MissedSteady(s, t, q);
    if q != p && t.pc[q] == s.pc[q] { KnowsSteady(s, t, q); }
  }

  lemma KnowsKept(s: Sys, p: nat, a: Step, q: nat)
    requires Protocol(s) && p < NPROC && Enabled(s, p, a) && q < NPROC
    ensures Shape(Do(s, p, a)) && Knows(Do(s, p, a), q) && NotMissed(Do(s, p, a), q)
  {
    hide CanMisc, CanWait, CanExit, CanFork, DoMisc, DoWait, DoExit, DoFork, Local, Knows, NotMissed, LockStep, Steady;
    hide MakingKept, JustGiven, Committed, Protocol;
    Sized(s);
    LocksKept(s, p, a, q);
    match a
    case Misc(m) =>
      MiscSteady(s, p, m); MiscMaking(s, p, m); MiscGiven(s, p, m);
      SteadyKeeps(s, DoMisc(s, p, m), p, q);
      MiscKnows(s, p, m);
    case Wait(w) =>
      WaitKnows(s, p, w);
      if w.SRelease? { ReleaseKeeps(s, p, q); } else if w.WReap? { ReapKeeps(s, p, q); } else {
        WaitSteady(s, p, w); WaitMaking(s, p, w); WaitGiven(s, p, w);
        SteadyKeeps(s, DoWait(s, p, w), p, q);
      }
    case Exit(x) =>
      ExitKnows(s, p, x);
      if x.XZombie? { ZombieKeeps(s, p, q); } else if x.XGive? { GiveKeeps(s, p, q); } else {
        ExitSteady(s, p, x); ExitMaking(s, p, x); ExitGiven(s, p, x);
        SteadyKeeps(s, DoExit(s, p, x), p, q);
      }
    case Fork(f) =>
      ForkKnows(s, p, f);
      if f.FLink? { LinkKeeps(s, p, q); } else if f.FFail? { FailKnows(s, p, q); FailMissed(s, p, q); } else {
        ForkSteady(s, p, f); ForkMaking(s, p, f); ForkGiven(s, p, f);
        SteadyKeeps(s, DoFork(s, p, f), p, q);
      }
  }

  lemma MiscKnows(s: Sys, p: nat, a: MiscStep)
    requires Protocol(s) && p < NPROC && CanMisc(s, p, a)
    ensures Shape(DoMisc(s, p, a)) && Knows(DoMisc(s, p, a), p)
  {
    hide NotMissed, ParentOk, ForksApart, PlOk, WlOk, StateOk;
    assert Local(s, p);
  }

  lemma Sized(s: Sys)
    requires Protocol(s)
    ensures Shape(s)
  {
  }

  lemma MiscInit(s: Sys, p: nat, a: MiscStep)
    requires Protocol(s) && p < NPROC && CanMisc(s, p, a)
    ensures Shape(DoMisc(s, p, a)) && InitOk(DoMisc(s, p, a)) && NewMaking(s, DoMisc(s, p, a), p)
  {
    hide NotMissed, PlOk, WlOk, ForksApart;
    assert Local(s, p) && Local(s, INIT);
  }

  lemma WaitInit(s: Sys, p: nat, a: WaitStep)
    requires Protocol(s) && p < NPROC && CanWait(s, p, a)
    ensures Shape(DoWait(s, p, a)) && InitOk(DoWait(s, p, a)) && NewMaking(s, DoWait(s, p, a), p)
  {
    hide NotMissed, PlOk, WlOk, ForksApart;
    assert Local(s, p) && Local(s, INIT);
  }

  lemma ExitInit(s: Sys, p: nat, a: ExitStep)
    requires Protocol(s) && p < NPROC && CanExit(s, p, a)
    ensures Shape(DoExit(s, p, a)) && InitOk(DoExit(s, p, a)) && NewMaking(s, DoExit(s, p, a), p)
  {
    hide NotMissed, PlOk, WlOk, ForksApart;
    assert Local(s, p) && Local(s, INIT);
  }

  lemma ForkInit(s: Sys, p: nat, a: ForkStep)
    requires Protocol(s) && p < NPROC && CanFork(s, p, a)
    ensures Shape(DoFork(s, p, a)) && InitOk(DoFork(s, p, a)) && NewMaking(s, DoFork(s, p, a), p)
  {
    hide NotMissed, PlOk, WlOk, ForksApart;
    assert Local(s, p) && Local(s, INIT);
  }

  /** A fork starts on a free slot and stays with it. */
  predicate NewMaking(s: Sys, t: Sys, p: nat)
    requires Shape(s) && Shape(t) && p < NPROC
  {
    var np := Making(t.pc[p]);
    np == NONE || np == Making(s.pc[p]) || (Slot(np) && s.state[np] == UNUSED)
  }

  lemma ApartKept(s: Sys, p: nat, a: Step)
    requires Protocol(s) && p < NPROC && Enabled(s, p, a)
    ensures Shape(Do(s, p, a)) && ForksApart(Do(s, p, a)) && InitOk(Do(s, p, a))
  {
    hide CanMisc, CanWait, CanExit, CanFork, DoMisc, DoWait, DoExit, DoFork, NotMissed, ParentOk, PlOk, WlOk, StateOk;
    LocksKept(s, p, a, p);
    match a {
      case Misc(m) => MiscInit(s, p, m);
      case Wait(w) => WaitInit(s, p, w);
      case Exit(x) => ExitInit(s, p, x);
      case Fork(f) => ForkInit(s, p, f);
    }
    var t := Do(s, p, a);
    forall q | 0 <= q < NPROC && Making(s.pc[q]) != NONE
      ensures BeingMade(s, q, Making(s.pc[q]))
    {
      assert Local(s, q);
    }
    forall x, y | 0 <= x < NPROC && 0 <= y < NPROC && Making(t.pc[x]) == Making(t.pc[y]) != NONE ensures x == y {
      assert x != p ==> t.pc[x] == s.pc[x];
      assert y != p ==> t.pc[y] == s.pc[y];
    }
  }

  /** Every step of every process keeps the protocol. */
  lemma ProtocolKept(s: Sys, p: nat, a: Step)
    requires Protocol(s) && p < NPROC && Enabled(s, p, a)
    ensures Protocol(Do(s, p, a))
  {
    hide Enabled, Do, Knows, NotMissed, ParentOk, StateOk, WlOk, PlOk, ForksApart, InitOk, LockStep;
    var t := Do(s, p, a);
    ApartKept(s, p, a);
    forall q | 0 <= q < NPROC ensures Local(t, q) {
      LocksKept(s, p, a, q);
      StatesKept(s, p, a, q);
      KnowsKept(s, p, a, q);
    }
  }
}
