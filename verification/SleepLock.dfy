/** sleep and wakeup (kernel/proc.c) under acquiresleep and releasesleep (kernel/sleeplock.c): one sleep lock and any
    number of processes, interleaved between any two acquires and releases of a spinlock. */
module SleepLock {
  import opened Std

  /** Where a process is.  In acquiresleep: about to acquire lk->lk (Want, Again), holding it (Test, GoSleep, Dropping,
      Got), in sleep with its own p->lock (Dropping to Switching), off the CPU (Asleep, Woken), back in sleep (Rising).
      In releasesleep: RelWant, RelSet, then wakeup's scan about to lock proc j (Scan) or holding its lock (ScanAt). */
  datatype Pc =
    | Out | Want | Test | GoSleep | Dropping | Falling | Switching | Asleep | Woken | Rising | Again
    | Got | Holds | RelWant | RelSet | Scan(j: nat) | ScanAt(j: nat) | RelDone

  datatype ProcState = Running | Sleeping | Runnable

  /** The channel of the lock. */
  const LK: nat := 1

  /** lk is the holder of lk->lk, plock[k] of proc k's lock; locked and pid are the sleep lock's fields. */
  datatype State = State(pc: seq<Pc>, lk: Option<nat>, plock: seq<Option<nat>>, st: seq<ProcState>, chan: seq<nat>,
                         locked: bool, pid: Option<nat>)

  /** Act is the next step of process t; Kick is kkill waking it. */
  datatype Step = Act(t: nat) | Kick(t: nat)

  predicate Shape(s: State) {
    |s.plock| == |s.pc| && |s.st| == |s.pc| && |s.chan| == |s.pc|
  }

  /** The locks that a step acquires are free. */
  predicate Enabled(s: State, step: Step) {
    && Shape(s) && step.t < |s.pc|
    && match step
       case Kick(k) => s.plock[k].None? && s.st[k] == Sleeping
       case Act(t) =>
         match s.pc[t]
         case Want => s.lk.None?
         case Again => s.lk.None?
         case RelWant => s.lk.None?
         case GoSleep => s.plock[t].None?
         case Woken => s.plock[t].None?
         case Asleep => false
         case Scan(j) => j >= |s.pc| || j == t || s.plock[j].None?
         case ScanAt(j) => j < |s.pc|
         case _ => true
  }

  function Next(s: State, step: Step): State
    requires Enabled(s, step)
  {
    match step
    case Kick(k) => s.(pc := s.pc[k := Woken], st := s.st[k := Runnable])
    case Act(t) =>
      match s.pc[t]
      case Out => s.(pc := s.pc[t := Want])
      case Want => s.(pc := s.pc[t := Test], lk := Some(t))
      case Again => s.(pc := s.pc[t := Test], lk := Some(t))
      case Test =>
        if s.locked then s.(pc := s.pc[t := GoSleep]) else s.(pc := s.pc[t := Got], locked := true, pid := Some(t))
      case Got => s.(pc := s.pc[t := Holds], lk := None)
      case GoSleep => s.(pc := s.pc[t := Dropping], plock := s.plock[t := Some(t)])
      case Dropping => s.(pc := s.pc[t := Falling], lk := None)
      case Falling => s.(pc := s.pc[t := Switching], chan := s.chan[t := LK], st := s.st[t := Sleeping])
      case Switching => s.(pc := s.pc[t := Asleep], plock := s.plock[t := None])
      case Woken => s.(pc := s.pc[t := Rising], plock := s.plock[t := Some(t)], st := s.st[t := Running])
      case Rising => s.(pc := s.pc[t := Again], plock := s.plock[t := None], chan := s.chan[t := 0])
      case Holds => s.(pc := s.pc[t := RelWant])
      case RelWant => s.(pc := s.pc[t := RelSet], lk := Some(t))
      case RelSet => s.(pc := s.pc[t := Scan(0)], locked := false, pid := None)
      case Scan(j) =>
        if j >= |s.pc| then s.(pc := s.pc[t := RelDone])
        else if j == t then s.(pc := s.pc[t := Scan(j + 1)])
        else s.(pc := s.pc[t := ScanAt(j)], plock := s.plock[j := Some(t)])
      case ScanAt(j) =>
        var s1 := if s.st[j] == Sleeping && s.chan[j] == LK then s.(pc := s.pc[j := Woken], st := s.st[j := Runnable])
            else s;
        s1.(pc := s1.pc[t := Scan(j + 1)], plock := s.plock[j := None])
      case RelDone => s.(pc := s.pc[t := Out], lk := None)
  }

  // ---- The invariant ----

  predicate HasLk(pc: Pc) {
    pc.Test? || pc.GoSleep? || pc.Dropping? || pc.Got? || pc.RelSet? || pc.Scan? || pc.ScanAt? || pc.RelDone?
  }

  predicate HasOwn(pc: Pc) {
    pc.Dropping? || pc.Falling? || pc.Switching? || pc.Rising?
  }

  predicate HasSleepLock(pc: Pc) {
    pc.Got? || pc.Holds? || pc.RelWant? || pc.RelSet?
  }

  /** In sleep, past the release of lk->lk and not yet woken. */
  predicate InSleep(pc: Pc) {
    pc.Falling? || pc.Switching? || pc.Asleep?
  }

  /** wakeup's scan has not passed proc k. */
  predicate Pending(pc: Pc, k: nat) {
    (pc.Scan? || pc.ScanAt?) && pc.j <= k
  }

  /** Who holds lk->lk. */
  ghost predicate LkOk(s: State, k: nat)
    requires k < |s.pc|
  {
    HasLk(s.pc[k]) <==> s.lk == Some(k)
  }

  /** Who holds proc k's lock: the process itself, or the scan that has come to it. */
  ghost predicate OwnOk(s: State, k: nat)
    requires Shape(s) && k < |s.pc|
  {
    HasOwn(s.pc[k]) <==> s.plock[k] == Some(k)
  }

  ghost predicate ScanOk(s: State, k: nat)
    requires Shape(s) && k < |s.pc|
  {
    s.pc[k].ScanAt? ==> s.pc[k].j < |s.pc| && s.pc[k].j != k && s.plock[s.pc[k].j] == Some(k)
  }

  /** p->state and p->chan. */
  ghost predicate StateOk(s: State, k: nat)
    requires Shape(s) && k < |s.pc|
  {
    && ((s.pc[k].Switching? || s.pc[k].Asleep?) <==> s.st[k] == Sleeping)
    && (s.st[k] == Sleeping ==> s.chan[k] == LK)
  }

  ghost predicate LocksOk(s: State, k: nat)
    requires Shape(s) && k < |s.pc|
  {
    LkOk(s, k) && OwnOk(s, k) && ScanOk(s, k) && StateOk(s, k)
  }

  /** Who holds the sleep lock. */
  ghost predicate HolderOk(s: State, k: nat)
    requires k < |s.pc|
  {
    && (HasSleepLock(s.pc[k]) <==> s.pid == Some(k))
    && (s.pc[k].GoSleep? || s.pc[k].Dropping? ==> s.locked)
  }

  /** The heart: a process in sleep while the lock is free is still ahead of the scan of the process that freed it. */
  ghost predicate WakeOk(s: State, k: nat)
    requires k < |s.pc|
  {
    InSleep(s.pc[k]) ==> s.locked || (s.lk.Some? && s.lk.value < |s.pc| && Pending(s.pc[s.lk.value], k))
  }

  /** Someone who is there holds a lock that is taken: proc k's, the process itself or a scan that is at it. */
  ghost predicate TakenOk(s: State, k: nat)
    requires Shape(s) && k < |s.pc|
  {
    s.plock[k].Some? && s.plock[k].value != k ==> s.plock[k].value < |s.pc| && s.pc[s.plock[k].value] == ScanAt(k)
  }

  ghost predicate Inv(s: State) {
    && Shape(s) && (s.locked <==> s.pid.Some?) && (s.lk.Some? ==> s.lk.value < |s.pc|)
    && (forall k: nat {:trigger TakenOk(s, k)} :: k < |s.pc| ==> TakenOk(s, k))
    && (forall k: nat {:trigger LocksOk(s, k)} :: k < |s.pc| ==> LocksOk(s, k))
    && (forall k: nat {:trigger HolderOk(s, k)} :: k < |s.pc| ==> HolderOk(s, k))
    && (forall k: nat {:trigger WakeOk(s, k)} :: k < |s.pc| ==> WakeOk(s, k))
  }

  ghost predicate Init(s: State) {
    && Shape(s) && s.lk.None? && !s.locked && s.pid.None?
    && forall k :: 0 <= k < |s.pc| ==> s.pc[k] == Out && s.plock[k].None? && s.st[k] == Running
  }

  /** The process that a scan is looking at. */
  function Seen(s: State, step: Step): nat
    requires Enabled(s, step)
  {
    if s.pc[step.t].ScanAt? && s.pc[step.t].j < |s.pc| then s.pc[step.t].j else step.t
  }

  lemma LkKept(s: State, step: Step, k: nat)
    requires Enabled(s, step) && k < |s.pc| && LkOk(s, k) && LkOk(s, step.t) && StateOk(s, k)
    ensures LkOk(Next(s, step), k)
  {
  }

  lemma OwnKept(s: State, step: Step, k: nat)
    requires Enabled(s, step) && k < |s.pc| && OwnOk(s, k) && OwnOk(s, step.t) && ScanOk(s, step.t) && StateOk(s, k)
    ensures Shape(Next(s, step)) && OwnOk(Next(s, step), k)
  {
  }

  lemma ScanKept(s: State, step: Step, k: nat)
    requires Enabled(s, step) && k < |s.pc| && ScanOk(s, k) && ScanOk(s, step.t) && StateOk(s, k)
             && StateOk(s, Seen(s, step))
    requires OwnOk(s, k) && OwnOk(s, step.t)
    ensures Shape(Next(s, step)) && ScanOk(Next(s, step), k)
  {
  }

  lemma StateKept(s: State, step: Step, k: nat)
    requires Enabled(s, step) && k < |s.pc| && StateOk(s, k) && StateOk(s, step.t) && ScanOk(s, step.t)
    ensures Shape(Next(s, step)) && StateOk(Next(s, step), k)
  {
  }

  lemma LocksKept(s: State, step: Step, k: nat)
    requires Inv(s) && Enabled(s, step) && k < |s.pc|
    ensures Shape(Next(s, step)) && LocksOk(Next(s, step), k)
  {
    hide LkOk, OwnOk, ScanOk, StateOk, Next;
    assert LocksOk(s, k) && LocksOk(s, step.t) && LocksOk(s, Seen(s, step));
    LkKept(s, step, k);
    OwnKept(s, step, k);
    ScanKept(s, step, k);
    StateKept(s, step, k);
  }

  lemma HolderKeptAt(s: State, step: Step, k: nat)
    requires Enabled(s, step) && k < |s.pc| && HolderOk(s, k) && HolderOk(s, step.t) && LkOk(s, k) && LkOk(s, step.t)
             && StateOk(s, k)
    requires s.locked <==> s.pid.Some?
    ensures HolderOk(Next(s, step), k) && (Next(s, step).locked <==> Next(s, step).pid.Some?)
  {
  }

  lemma HolderKept(s: State, step: Step, k: nat)
    requires Inv(s) && Enabled(s, step) && k < |s.pc|
    ensures HolderOk(Next(s, step), k) && (Next(s, step).locked <==> Next(s, step).pid.Some?)
  {
    hide LkOk, OwnOk, ScanOk, StateOk, Next, HolderOk;
    assert LocksOk(s, k) && LocksOk(s, step.t);
    assert HolderOk(s, k) && HolderOk(s, step.t);
    HolderKeptAt(s, step, k);
  }

  lemma WakeKept(s: State, step: Step, k: nat)
    requires Inv(s) && Enabled(s, step) && k < |s.pc|
    ensures WakeOk(Next(s, step), k)
  {
    hide Inv, Enabled, Next, WakeOk;
    if step.t == k { OwnWakeKept(s, step); } else { OtherWakeKept(s, step, k); }
  }

  lemma OwnWakeKept(s: State, step: Step)
    requires Inv(s) && Enabled(s, step) && step.t < |s.pc|
    ensures WakeOk(Next(s, step), step.t)
  {
    assert LocksOk(s, step.t) && HolderOk(s, step.t) && WakeOk(s, step.t);
    if s.lk.Some? && s.lk.value < |s.pc| { assert LocksOk(s, s.lk.value); }
  }

  lemma OtherWakeKept(s: State, step: Step, k: nat)
    requires Inv(s) && Enabled(s, step) && k < |s.pc| && k != step.t
    ensures WakeOk(Next(s, step), k)
  {
    assert LocksOk(s, k) && LocksOk(s, step.t);
    assert HolderOk(s, k) && HolderOk(s, step.t) && WakeOk(s, k);
    if s.lk.Some? && s.lk.value < |s.pc| { assert LocksOk(s, s.lk.value); }
  }

  lemma TakenKeptAt(s: State, step: Step, k: nat)
    requires Enabled(s, step) && k < |s.pc| && TakenOk(s, k) && OwnOk(s, step.t) && ScanOk(s, step.t)
    requires s.plock[k].Some? && s.plock[k].value < |s.pc| ==> StateOk(s, s.plock[k].value)
    ensures Shape(Next(s, step)) && TakenOk(Next(s, step), k)
  {
  }

  lemma TakenKept(s: State, step: Step, k: nat)
    requires Inv(s) && Enabled(s, step) && k < |s.pc|
    ensures Shape(Next(s, step)) && TakenOk(Next(s, step), k)
  {
    hide LkOk, OwnOk, ScanOk, StateOk, Next, TakenOk;
    assert TakenOk(s, k) && LocksOk(s, step.t);
    if s.plock[k].Some? && s.plock[k].value < |s.pc| { assert LocksOk(s, s.plock[k].value); }
    TakenKeptAt(s, step, k);
  }

  lemma LkIn(s: State, step: Step)
    requires Enabled(s, step) && (s.lk.Some? ==> s.lk.value < |s.pc|)
    ensures var s' := Next(s, step); step.t < |s.pc| == |s'.pc| && (s'.lk.Some? ==> s'.lk.value < |s'.pc|)
  {
  }

  lemma InvKept(s: State, step: Step)
    requires Inv(s) && Enabled(s, step)
    ensures Inv(Next(s, step))
  {
    hide Next, Enabled, LocksOk, HolderOk, WakeOk, TakenOk;
    var s' := Next(s, step);
    LkIn(s, step);
    forall k: nat | k < |s.pc|
      ensures Shape(s') && LocksOk(s', k) && HolderOk(s', k) && WakeOk(s', k) && TakenOk(s', k)
    {
      TakenKept(s, step, k);
      LocksKept(s, step, k);
      HolderKept(s, step, k);
      WakeKept(s, step, k);
    }
    LocksKept(s, step, step.t);
    HolderKept(s, step, step.t);
  }

  // ---- Runs ----

  lemma InitInv(s: State)
    requires Init(s)
    ensures Inv(s)
  {
    forall k: nat | k < |s.pc| ensures LocksOk(s, k) && HolderOk(s, k) && WakeOk(s, k) && TakenOk(s, k) {
      assert s.pc[k] == Out;
    }
  }

  ghost predicate IsRun(s: State, steps: seq<Step>)
    decreases |steps|
  {
    steps == [] || (Enabled(s, steps[0]) && IsRun(Next(s, steps[0]), steps[1..]))
  }

  ghost function After(s: State, steps: seq<Step>): State
    requires IsRun(s, steps)
    decreases |steps|
  {
    if steps == [] then s else After(Next(s, steps[0]), steps[1..])
  }

  lemma {:induction false} RunInv(s: State, steps: seq<Step>)
    requires Inv(s) && IsRun(s, steps)
    ensures Inv(After(s, steps))
    decreases |steps|
  {
    hide Next, Inv;
    if steps != [] {
      InvKept(s, steps[0]);
      RunInv(Next(s, steps[0]), steps[1..]);
    }
  }

  /** In every interleaving: a process is in sleep while the sleep lock is free only if the process that freed it still
      holds lk->lk and its scan has not passed that process; so whenever lk->lk is free too, no process sleeps on a free
      lock. */
  lemma NoLostWakeup(s: State, steps: seq<Step>, k: nat)
    requires Init(s) && IsRun(s, steps)
    requires var s' := After(s, steps); k < |s'.pc| && InSleep(s'.pc[k]) && !s'.locked
    ensures var s' := After(s, steps); s'.lk.Some? && s'.lk.value < |s'.pc| && s'.lk.value != k
                                       && Pending(s'.pc[s'.lk.value], k)
  {
    InitInv(s);
    RunInv(s, steps);
    var s' := After(s, steps);
    assert WakeOk(s', k);
  }

  /** At most one process holds the sleep lock, and it is the one that lk->pid names. */
  lemma OneHolder(s: State, steps: seq<Step>, t: nat, u: nat)
    requires Init(s) && IsRun(s, steps)
    requires var s' := After(s, steps); t < |s'.pc| && u < |s'.pc| && HasSleepLock(s'.pc[t]) && HasSleepLock(s'.pc[u])
    ensures t == u && After(s, steps).locked && After(s, steps).pid == Some(t)
  {
    InitInv(s);
    RunInv(s, steps);
    assert HolderOk(After(s, steps), t) && HolderOk(After(s, steps), u);
  }

  // ---- Progress ----

  /** On its way through acquiresleep or releasesleep and not asleep. */
  predicate Busy(pc: Pc) {
    !pc.Out? && !pc.Holds? && !pc.Asleep?
  }

  ghost predicate CanGo(s: State, t: nat) {
    t < |s.pc| && Busy(s.pc[t]) && Enabled(s, Act(t))
  }

  /** Whoever holds proc k's lock can go on. */
  lemma OwnerGoes(s: State, k: nat) returns (u: nat)
    requires Inv(s) && k < |s.pc| && s.plock[k].Some? && !s.pc[k].Dropping?
    ensures CanGo(s, u)
  {
    assert TakenOk(s, k) && LocksOk(s, k);
    u := s.plock[k].value;
  }

  /** Whoever holds lk->lk can go on, or waits for one who can. */
  lemma HolderGoes(s: State) returns (u: nat)
    requires Inv(s) && s.lk.Some?
    ensures CanGo(s, u)
  {
    u := s.lk.value;
    assert LocksOk(s, u);
    if !Enabled(s, Act(u)) {
      var k := if s.pc[u].Scan? then s.pc[u].j else u;
      assert LocksOk(s, k) && TakenOk(s, k);
      u := OwnerGoes(s, k);
    }
  }

  /** In every interleaving, while any process is on its way through acquiresleep or releasesleep and not asleep, one of
      them can take its next step; so locks and lock orders never stop all of them. */
  lemma NoDeadlock(s: State, steps: seq<Step>, t: nat) returns (u: nat)
    requires Init(s) && IsRun(s, steps) && t < |After(s, steps).pc| && Busy(After(s, steps).pc[t])
    ensures CanGo(After(s, steps), u)
  {
    InitInv(s);
    RunInv(s, steps);
    var s' := After(s, steps);
    assert LocksOk(s', t) && TakenOk(s', t);
    if Enabled(s', Act(t)) {
      u := t;
    } else if s'.pc[t].Want? || s'.pc[t].Again? || s'.pc[t].RelWant? || s'.pc[t].Scan? {
      u := HolderGoes(s');
    } else {
      u := OwnerGoes(s', t);
    }
  }

  /** A process that sleeps while nobody has the sleep lock is about to be woken: one process is in its wakeup, its
      scan is not past the sleeper, and one that is on its way can take its next step. */
  lemma SleeperIsReached(s: State, steps: seq<Step>, k: nat) returns (u: nat)
    requires Init(s) && IsRun(s, steps)
    requires var s' := After(s, steps); k < |s'.pc| && InSleep(s'.pc[k]) && !s'.locked
    ensures var s' := After(s, steps); s'.lk.Some? && s'.lk.value < |s'.pc| && Pending(s'.pc[s'.lk.value], k)
    ensures CanGo(After(s, steps), u)
  {
    NoLostWakeup(s, steps, k);
    u := NoDeadlock(s, steps, After(s, steps).lk.value);
  }
}
