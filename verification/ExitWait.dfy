/** kfork's last steps, kexit, reparent, kwait and freeproc (kernel/proc.c) over a table of processes, interleaved
    wherever another process can come in: between a release of wait_lock or of a process's own lock and the next
    acquire, and between the steps of the scans that hold wait_lock. Process 0 is init. */
module ExitWait {
  import opened Std

  /** Where a process is; its p->state follows from it (see StateOf).
      Fork: slot c found, then its parent set.  Exit: reparent at slot j and its wakeup of init, wakeup of the parent,
      p->lock next, then a zombie that still runs on its stack with p->lock, then off the CPU for good.
      Wait: the scan at slot j, holding that slot's lock, then sleep: p->lock next, then wait_lock dropped. */
  datatype Pc =
    | Idle | Embryo | Run
    | ForkParent(c: nat) | ForkStart(c: nat)
    | Exit0 | ExitRe(j: nat) | ExitReWake(j: nat) | ExitWake | ExitLock | ExitSwitch | Dead
    | Wait0 | WaitScan(j: nat, kids: bool) | WaitAt(j: nat) | WaitSleep | WaitFall | WaitAsleep | WaitWoken

  datatype ProcState = UNUSED | USED | SLEEPING | RUNNABLE | RUNNING | ZOMBIE

  function StateOf(pc: Pc): ProcState {
    match pc
    case Idle => UNUSED
    case Embryo => USED
    case WaitAsleep => SLEEPING
    case WaitWoken => RUNNABLE
    case ExitSwitch => ZOMBIE
    case Dead => ZOMBIE
    case _ => RUNNING
  }

  /** wl holds wait_lock, plock[k] process k's lock. `maker` is the process that is forking an embryo; `exits` and
      `reaps` count how often a slot became a zombie and was freed. */
  datatype State = State(pc: seq<Pc>, parent: seq<Option<nat>>, wl: Option<nat>, plock: seq<Option<nat>>,
                         maker: seq<nat>, exits: seq<nat>, reaps: seq<nat>)

  predicate Shape(s: State) {
    && |s.parent| == |s.pc| && |s.plock| == |s.pc| && |s.maker| == |s.pc| && |s.exits| == |s.pc| && |s.reaps| == |s.pc|
    && |s.pc| > 0
  }

  /** DoFork, DoExit and DoWait begin a system call; GiveUp is kwait's return on a failed copyout or a kill; Kick is
      kkill. */
  datatype Step =
    | DoFork(t: nat, c: nat) | DoExit(t: nat) | DoWait(t: nat)
    | ForkStep(t: nat) | ExitStep(t: nat) | WaitStep(t: nat) | GiveUp(t: nat) | Kick(t: nat)

  predicate ForkEnabled(s: State, t: nat)
    requires Shape(s) && t < |s.pc|
  {
    match s.pc[t]
    case ForkParent(c) => c < |s.pc| && s.wl.None?
    case ForkStart(c) => c < |s.pc| && s.plock[c].None?
    case _ => false
  }

  predicate ExitEnabled(s: State, t: nat)
    requires Shape(s) && t < |s.pc|
  {
    match s.pc[t]
    case Exit0 => s.wl.None?
    case ExitRe(_) => true
    case ExitReWake(_) => s.plock[0].None?
    case ExitWake => s.parent[t].Some? && s.parent[t].value < |s.pc| ==> s.plock[s.parent[t].value].None?
    case ExitLock => s.plock[t].None?
    case ExitSwitch => true
    case _ => false
  }

  predicate WaitEnabled(s: State, t: nat)
    requires Shape(s) && t < |s.pc|
  {
    match s.pc[t]
    case Wait0 => s.wl.None?
    case WaitScan(j, _) => j < |s.pc| && s.parent[j] == Some(t) ==> s.plock[j].None?
    case WaitAt(j) => j < |s.pc|
    case WaitSleep => s.plock[t].None?
    case WaitFall => true
    case WaitWoken => s.plock[t].None?
    case _ => false
  }

  predicate Enabled(s: State, step: Step) {
    && Shape(s) && step.t < |s.pc|
    && match step
       case DoFork(t, c) => s.pc[t].Run? && c < |s.pc| && s.pc[c].Idle? && s.plock[c].None?
       case DoExit(t) => s.pc[t].Run? && t != 0
       case DoWait(t) => s.pc[t].Run?
       case ForkStep(t) => ForkEnabled(s, t)
       case ExitStep(t) => ExitEnabled(s, t)
       case WaitStep(t) => WaitEnabled(s, t)
       case GiveUp(t) => s.pc[t].WaitSleep?
                         || (s.pc[t].WaitAt? && s.pc[t].j < |s.pc| && StateOf(s.pc[s.pc[t].j]) == ZOMBIE)
       case Kick(t) => s.plock[t].None? && s.pc[t].WaitAsleep?
  }

  /** wakeup(q), for the one channel that q sleeps on in kwait. */
  function Wake(pc: seq<Pc>, q: Option<nat>): (r: seq<Pc>)
    ensures |r| == |pc|
  {
    if q.Some? && q.value < |pc| && pc[q.value].WaitAsleep? then pc[q.value := WaitWoken] else pc
  }

  function ForkNext(s: State, t: nat): State
    requires Shape(s) && t < |s.pc| && ForkEnabled(s, t)
  {
    match s.pc[t]
    case ForkParent(c) => s.(pc := s.pc[t := ForkStart(c)], parent := s.parent[c := Some(t)])
    case ForkStart(c) => s.(pc := s.pc[c := Run][t := Run])
  }

  function ExitNext(s: State, t: nat): State
    requires Shape(s) && t < |s.pc| && ExitEnabled(s, t)
  {
    match s.pc[t]
    case Exit0 => s.(pc := s.pc[t := ExitRe(0)], wl := Some(t))
    case ExitRe(j) =>
      if j >= |s.pc| then s.(pc := s.pc[t := ExitWake])
      else if s.parent[j] == Some(t) then s.(pc := s.pc[t := ExitReWake(j)], parent := s.parent[j := Some(0)])
      else s.(pc := s.pc[t := ExitRe(j + 1)])
    case ExitReWake(j) => s.(pc := Wake(s.pc, Some(0))[t := ExitRe(j + 1)])
    case ExitWake => s.(pc := Wake(s.pc, s.parent[t])[t := ExitLock])
    case ExitLock => s.(pc := s.pc[t := ExitSwitch], plock := s.plock[t := Some(t)], wl := None,
                        exits := s.exits[t := s.exits[t] + 1])
    case ExitSwitch => s.(pc := s.pc[t := Dead], plock := s.plock[t := None])
  }

  function WaitNext(s: State, t: nat): State
    requires Shape(s) && t < |s.pc| && WaitEnabled(s, t)
  {
    match s.pc[t]
    case Wait0 => s.(pc := s.pc[t := WaitScan(0, false)], wl := Some(t))
    case WaitScan(j, kids) =>
      if j >= |s.pc| then (if kids then s.(pc := s.pc[t := WaitSleep]) else s.(pc := s.pc[t := Run], wl := None))
      else if s.parent[j] == Some(t) then s.(pc := s.pc[t := WaitAt(j)], plock := s.plock[j := Some(t)])
      else s.(pc := s.pc[t := WaitScan(j + 1, kids)])
    case WaitAt(j) =>
      if StateOf(s.pc[j]) == ZOMBIE then
        s.(pc := s.pc[j := Idle][t := Run], parent := s.parent[j := None], plock := s.plock[j := None], wl := None,
           reaps := s.reaps[j := s.reaps[j] + 1])
      else s.(pc := s.pc[t := WaitScan(j + 1, true)], plock := s.plock[j := None])
    case WaitSleep => s.(pc := s.pc[t := WaitFall], plock := s.plock[t := Some(t)], wl := None)
    case WaitFall => s.(pc := s.pc[t := WaitAsleep], plock := s.plock[t := None])
    case WaitWoken => s.(pc := s.pc[t := Wait0])
  }

  function Next(s: State, step: Step): State
    requires Enabled(s, step)
  {
    match step
    case DoFork(t, c) => s.(pc := s.pc[c := Embryo][t := ForkParent(c)], maker := s.maker[c := t])
    case DoExit(t) => s.(pc := s.pc[t := Exit0])
    case DoWait(t) => s.(pc := s.pc[t := Wait0])
    case ForkStep(t) => ForkNext(s, t)
    case ExitStep(t) => ExitNext(s, t)
    case WaitStep(t) => WaitNext(s, t)
    case GiveUp(t) =>
      if s.pc[t].WaitSleep? then s.(pc := s.pc[t := Run], wl := None)
      else s.(pc := s.pc[t := Run], wl := None, plock := s.plock[s.pc[t].j := None])
    case Kick(t) => s.(pc := s.pc[t := WaitWoken])
  }

  // ---- The invariant ----

  predicate HasWaitLock(pc: Pc) {
    pc.ExitRe? || pc.ExitReWake? || pc.ExitWake? || pc.ExitLock? || pc.WaitScan? || pc.WaitAt? || pc.WaitSleep?
  }

  predicate HasOwn(pc: Pc) {
    pc.ExitSwitch? || pc.WaitFall?
  }

  predicate IsZombie(pc: Pc) {
    pc.ExitSwitch? || pc.Dead?
  }

  /** Neither unused, nor being made, nor a zombie. */
  predicate Alive(pc: Pc) {
    !pc.Idle? && !pc.Embryo? && !IsZombie(pc)
  }

  predicate InExit(pc: Pc) {
    pc.Exit0? || pc.ExitRe? || pc.ExitReWake? || pc.ExitWake? || pc.ExitLock? || IsZombie(pc)
  }

  /** Asleep in kwait, or falling asleep with wait_lock released. */
  predicate InWaitSleep(pc: Pc) {
    pc.WaitFall? || pc.WaitAsleep?
  }

  predicate Forking(pc: Pc) {
    pc.ForkParent? || pc.ForkStart?
  }

  ghost predicate LockOk(s: State, k: nat)
    requires Shape(s) && k < |s.pc|
  {
    && (HasWaitLock(s.pc[k]) <==> s.wl == Some(k))
    && (HasOwn(s.pc[k]) <==> s.plock[k] == Some(k))
  }

  /** kwait's scan holds the lock of the child it looks at. */
  ghost predicate AtOk(s: State, k: nat)
    requires Shape(s) && k < |s.pc|
  {
    s.pc[k].WaitAt? ==> s.pc[k].j < |s.pc| && s.pc[k].j != k && s.plock[s.pc[k].j] == Some(k)
                        && s.parent[s.pc[k].j] == Some(k)
  }

  /** kfork and its embryo belong together. */
  ghost predicate ForkOk(s: State, k: nat)
    requires Shape(s) && k < |s.pc|
  {
    && (s.pc[k].Embryo? ==> s.maker[k] < |s.pc| && Forking(s.pc[s.maker[k]]) && s.pc[s.maker[k]].c == k)
    && (Forking(s.pc[k]) ==>
          && s.pc[k].c < |s.pc| && s.pc[k].c != k && s.pc[s.pc[k].c].Embryo? && s.maker[s.pc[k].c] == k
          && s.parent[s.pc[k].c] == if s.pc[k].ForkStart? then Some(k) else None)
  }

  /** Slot k may be a child of a process at pc: it is alive, and if it exits, reparent has still to come to k. */
  predicate MayParent(pc: Pc, k: nat) {
    && Alive(pc) && !pc.ExitWake? && !pc.ExitLock?
    && (pc.ExitRe? ==> pc.j <= k) && (pc.ExitReWake? ==> pc.j < k)
  }

  /** Everybody who has started, but for init, has a parent that may be one; unused slots have none. */
  ghost predicate ParentOk(s: State, k: nat)
    requires Shape(s) && k < |s.pc|
  {
    && (s.pc[k].Idle? ==> s.parent[k].None?)
    && (!s.pc[k].Idle? && !s.pc[k].Embryo? && k != 0 ==> s.parent[k].Some?)
    && (s.parent[k].Some? ==>
        s.parent[k].value < |s.pc| && s.parent[k].value != k && MayParent(s.pc[s.parent[k].value], k))
    && (k == 0 ==> Alive(s.pc[k]) && !InExit(s.pc[k]) && s.parent[k].None?)
  }

  /** A process at pc has not passed over the zombie in slot k: it is not asleep in kwait nor about to be, and its
      scan has still to come to k. */
  predicate NotPassed(pc: Pc, k: nat) {
    !InWaitSleep(pc) && !pc.WaitSleep? && (pc.WaitScan? ==> pc.j <= k) && (pc.WaitAt? ==> pc.j <= k)
  }

  /** reparent is on its way to wake init. */
  predicate WakesInit(s: State) {
    s.wl.Some? && s.wl.value < |s.pc| && s.pc[s.wl.value].ExitReWake?
  }

  /** A zombie's parent has not passed it over, and the parent of a process about to become one is not asleep.  The only
      exception is init while reparent is on its way to wake it. */
  ghost predicate KidOk(s: State, k: nat)
    requires Shape(s) && k < |s.pc|
  {
    s.parent[k].Some? && s.parent[k].value < |s.pc| ==>
      var q := s.parent[k].value;
      && (IsZombie(s.pc[k]) ==> NotPassed(s.pc[q], k) || (q == 0 && InWaitSleep(s.pc[q]) && WakesInit(s)))
      && (s.pc[k].ExitLock? ==> !InWaitSleep(s.pc[q]))
  }

  /** Process k has a child in a slot below j. */
  ghost predicate KidBelow(s: State, k: nat, j: nat) {
    exists i: nat :: i < j && i < |s.parent| && s.parent[i] == Some(k)
  }

  ghost predicate HasKid(s: State, k: nat) {
    KidBelow(s, k, |s.parent|)
  }

  /** havekids is whether the scan has come across a child, and who sleeps or is about to in kwait has one. */
  ghost predicate HaveKidsOk(s: State, k: nat)
    requires Shape(s) && k < |s.pc|
  {
    && (s.pc[k].WaitScan? ==> (s.pc[k].kids <==> KidBelow(s, k, s.pc[k].j)))
    && (s.pc[k].WaitSleep? || InWaitSleep(s.pc[k]) || s.pc[k].WaitWoken? ==> HasKid(s, k))
  }

  /** Who holds the lock of process k: itself, or the scan of kwait that has come to it; and wait_lock has a holder. */
  ghost predicate HolderOk(s: State, k: nat)
    requires Shape(s) && k < |s.pc|
  {
    && (s.wl.Some? ==> s.wl.value < |s.pc|)
    && (s.plock[k].Some? ==>
          s.plock[k].value < |s.pc| && (s.plock[k].value == k || s.pc[s.plock[k].value] == WaitAt(k)))
  }

  ghost predicate CountOk(s: State, k: nat)
    requires Shape(s) && k < |s.pc|
  {
    s.exits[k] == s.reaps[k] + if IsZombie(s.pc[k]) then 1 else 0
  }

  ghost predicate All(s: State, k: nat)
    requires Shape(s) && k < |s.pc|
  {
    && LockOk(s, k) && AtOk(s, k) && ForkOk(s, k) && ParentOk(s, k) && KidOk(s, k) && HaveKidsOk(s, k)
    && HolderOk(s, k) && CountOk(s, k)
  }

  ghost predicate Inv(s: State) {
    Shape(s) && forall k: nat {:trigger All(s, k)} :: k < |s.pc| ==> All(s, k)
  }

  // ---- Every step keeps it ----

  /** The parent of k, or k. */
  function Parent(s: State, k: nat): (q: nat)
    requires Shape(s) && k < |s.pc|
    ensures q < |s.pc|
  {
    if s.parent[k].Some? && s.parent[k].value < |s.pc| then s.parent[k].value else k
  }

  /** Who holds the lock of k, or k. */
  function HolderOf(s: State, k: nat): (q: nat)
    requires Shape(s) && k < |s.pc|
  {
    if s.plock[k].Some? then s.plock[k].value else k
  }

  predicate Light(step: Step) {
    !step.ExitStep? && !step.WaitStep?
  }

  lemma LightKeepsLock(s: State, step: Step, k: nat)
    requires Enabled(s, step) && Light(step) && k < |s.pc|
    requires LockOk(s, k) && LockOk(s, step.t) && AtOk(s, step.t) && ForkOk(s, step.t)
    ensures Shape(Next(s, step)) && LockOk(Next(s, step), k)
  {
  }

  lemma LightKeepsAt(s: State, step: Step, k: nat)
    requires Enabled(s, step) && Light(step) && k < |s.pc|
    requires AtOk(s, k) && LockOk(s, k) && LockOk(s, step.t)
    ensures Shape(Next(s, step)) && AtOk(Next(s, step), k)
  {
  }

  lemma ForkKeepsFork(s: State, step: Step, k: nat)
    requires Enabled(s, step) && (step.DoFork? || step.ForkStep?) && k < |s.pc|
    requires ForkOk(s, k) && ForkOk(s, step.t) && (step.DoFork? ==> ParentOk(s, step.c))
    ensures Shape(Next(s, step)) && ForkOk(Next(s, step), k)
  {
  }

  lemma OthersKeepFork(s: State, step: Step, k: nat)
    requires Enabled(s, step) && Light(step) && !step.DoFork? && !step.ForkStep? && k < |s.pc|
    requires ForkOk(s, k)
    ensures Shape(Next(s, step)) && ForkOk(Next(s, step), k)
  {
  }

  lemma LightKeepsParent(s: State, step: Step, k: nat)
    requires Enabled(s, step) && Light(step) && k < |s.pc|
    requires ParentOk(s, k) && ForkOk(s, step.t) && ParentOk(s, step.t)
    ensures Shape(Next(s, step)) && ParentOk(Next(s, step), k)
  {
  }

  lemma LightKeepsKid(s: State, step: Step, k: nat)
    requires Enabled(s, step) && Light(step) && k < |s.pc|
    requires KidOk(s, k) && ParentOk(s, k) && ForkOk(s, step.t) && LockOk(s, step.t)
    ensures Shape(Next(s, step)) && KidOk(Next(s, step), k)
  {
  }

  lemma LightKeepsCount(s: State, step: Step, k: nat)
    requires Enabled(s, step) && Light(step) && k < |s.pc|
    requires CountOk(s, k) && ForkOk(s, step.t)
    ensures Shape(Next(s, step)) && CountOk(Next(s, step), k)
  {
  }

  /** Other processes keep their children. */
  lemma SameKids(s: State, s': State, k: nat, j: nat)
    requires |s'.parent| == |s.parent|
    requires forall i: nat :: i < |s.parent| ==> (s'.parent[i] == Some(k) <==> s.parent[i] == Some(k))
    ensures KidBelow(s', k, j) <==> KidBelow(s, k, j)
  {
  }

  lemma MoreKids(s: State, s': State, k: nat)
    requires |s'.parent| == |s.parent|
    requires forall i: nat :: i < |s.parent| && s.parent[i] == Some(k) ==> s'.parent[i] == Some(k)
    ensures HasKid(s, k) ==> HasKid(s', k)
  {
  }

  lemma LightKeepsHaveKids(s: State, step: Step, k: nat)
    requires Enabled(s, step) && Light(step) && k < |s.pc|
    requires HaveKidsOk(s, k) && LockOk(s, k) && ForkOk(s, step.t)
    ensures Shape(Next(s, step)) && HaveKidsOk(Next(s, step), k)
  {
    hide KidBelow;
    var s' := Next(s, step);
    MoreKids(s, s', k);
    if s'.parent == s.parent && s.pc[k].WaitScan? { SameKids(s, s', k, s.pc[k].j); }
  }

  lemma LightKeepsHolder(s: State, step: Step, k: nat)
    requires Enabled(s, step) && Light(step) && k < |s.pc|
    requires HolderOk(s, k) && ForkOk(s, step.t) && AtOk(s, step.t)
    ensures Shape(Next(s, step)) && HolderOk(Next(s, step), k)
  {
  }

  lemma ExitKeepsLock(s: State, t: nat, k: nat)
    requires Shape(s) && t < |s.pc| && ExitEnabled(s, t) && k < |s.pc|
    requires LockOk(s, k) && LockOk(s, t)
    ensures Shape(ExitNext(s, t)) && LockOk(ExitNext(s, t), k)
  {
  }

  lemma ExitKeepsAt(s: State, t: nat, k: nat)
    requires Shape(s) && t < |s.pc| && ExitEnabled(s, t) && k < |s.pc|
    requires AtOk(s, k) && LockOk(s, k) && LockOk(s, t)
    ensures Shape(ExitNext(s, t)) && AtOk(ExitNext(s, t), k)
  {
  }

  lemma ExitKeepsFork(s: State, t: nat, k: nat)
    requires Shape(s) && t < |s.pc| && ExitEnabled(s, t) && k < |s.pc|
    requires ForkOk(s, k)
    ensures Shape(ExitNext(s, t)) && ForkOk(ExitNext(s, t), k)
  {
  }

  lemma ExitKeepsParent(s: State, t: nat, k: nat)
    requires Shape(s) && t < |s.pc| && ExitEnabled(s, t) && k < |s.pc|
    requires ParentOk(s, k) && ParentOk(s, t) && ParentOk(s, 0)
    ensures Shape(ExitNext(s, t)) && ParentOk(ExitNext(s, t), k)
  {
  }

  lemma ExitKeepsKid(s: State, t: nat, k: nat)
    requires Shape(s) && t < |s.pc| && ExitEnabled(s, t) && k < |s.pc|
    requires KidOk(s, k) && LockOk(s, k) && LockOk(s, t) && LockOk(s, Parent(s, k)) && LockOk(s, 0) && ParentOk(s, k)
             && ParentOk(s, t)
    ensures Shape(ExitNext(s, t)) && KidOk(ExitNext(s, t), k)
  {
  }

  lemma ExitKeepsHaveKids(s: State, t: nat, k: nat)
    requires Shape(s) && t < |s.pc| && ExitEnabled(s, t) && k < |s.pc|
    requires HaveKidsOk(s, k) && LockOk(s, k) && LockOk(s, t)
    ensures Shape(ExitNext(s, t)) && HaveKidsOk(ExitNext(s, t), k)
  {
    hide KidBelow;
    var s' := ExitNext(s, t);
    if k != t { MoreKids(s, s', k); }
    if s'.parent == s.parent && s.pc[k].WaitScan? { SameKids(s, s', k, s.pc[k].j); }
  }

  lemma ExitKeepsHolder(s: State, t: nat, k: nat)
    requires Shape(s) && t < |s.pc| && ExitEnabled(s, t) && k < |s.pc|
    requires HolderOk(s, k)
    ensures Shape(ExitNext(s, t)) && HolderOk(ExitNext(s, t), k)
  {
  }

  lemma ExitKeepsCount(s: State, t: nat, k: nat)
    requires Shape(s) && t < |s.pc| && ExitEnabled(s, t) && k < |s.pc|
    requires CountOk(s, k)
    ensures Shape(ExitNext(s, t)) && CountOk(ExitNext(s, t), k)
  {
  }

  lemma WaitKeepsLock(s: State, t: nat, k: nat)
    requires Shape(s) && t < |s.pc| && WaitEnabled(s, t) && k < |s.pc|
    requires LockOk(s, k) && LockOk(s, t) && AtOk(s, t) && ParentOk(s, t)
    ensures Shape(WaitNext(s, t)) && LockOk(WaitNext(s, t), k)
  {
  }

  lemma WaitKeepsAt(s: State, t: nat, k: nat)
    requires Shape(s) && t < |s.pc| && WaitEnabled(s, t) && k < |s.pc|
    requires AtOk(s, k) && AtOk(s, t) && LockOk(s, k) && LockOk(s, t) && ParentOk(s, t)
    ensures Shape(WaitNext(s, t)) && AtOk(WaitNext(s, t), k)
  {
  }

  lemma WaitKeepsFork(s: State, t: nat, k: nat)
    requires Shape(s) && t < |s.pc| && WaitEnabled(s, t) && k < |s.pc|
    requires ForkOk(s, k) && AtOk(s, t)
    ensures Shape(WaitNext(s, t)) && ForkOk(WaitNext(s, t), k)
  {
  }

  lemma WaitKeepsParent(s: State, t: nat, k: nat)
    requires Shape(s) && t < |s.pc| && WaitEnabled(s, t) && k < |s.pc|
    requires ParentOk(s, k) && AtOk(s, t) && ParentOk(s, t)
    ensures Shape(WaitNext(s, t)) && ParentOk(WaitNext(s, t), k)
  {
  }

  lemma WaitKeepsKid(s: State, t: nat, k: nat)
    requires Shape(s) && t < |s.pc| && WaitEnabled(s, t) && k < |s.pc|
    requires KidOk(s, k) && LockOk(s, k) && LockOk(s, t) && ParentOk(s, k) && AtOk(s, t)
    ensures Shape(WaitNext(s, t)) && KidOk(WaitNext(s, t), k)
  {
  }

  lemma WaitKeepsHaveKids(s: State, t: nat, k: nat)
    requires Shape(s) && t < |s.pc| && WaitEnabled(s, t) && k < |s.pc|
    requires HaveKidsOk(s, k) && LockOk(s, k) && LockOk(s, t) && AtOk(s, t)
    ensures Shape(WaitNext(s, t)) && HaveKidsOk(WaitNext(s, t), k)
  {
    var s' := WaitNext(s, t);
    if k != t {
      hide KidBelow;
      MoreKids(s, s', k);
      if s.pc[k].WaitScan? { SameKids(s, s', k, s.pc[k].j); }
    } else {
      ScanKids(s, s', t);
    }
  }

  /** What the scan of process t has seen, after one step of it. */
  lemma ScanKids(s: State, s': State, t: nat)
    requires Shape(s) && t < |s.pc| && WaitEnabled(s, t) && HaveKidsOk(s, t) && AtOk(s, t) && s' == WaitNext(s, t)
    ensures Shape(s') && HaveKidsOk(s', t)
  {
    if s.pc[t].WaitAt? && StateOf(s.pc[s.pc[t].j]) != ZOMBIE { assert s'.parent[s.pc[t].j] == Some(t); }
  }

  lemma WaitKeepsHolder(s: State, t: nat, k: nat)
    requires Shape(s) && t < |s.pc| && WaitEnabled(s, t) && k < |s.pc|
    requires HolderOk(s, k) && AtOk(s, t)
    requires s.plock[k].Some? && s.plock[k].value < |s.pc| ==> LockOk(s, s.plock[k].value)
    requires LockOk(s, t)
    ensures Shape(WaitNext(s, t)) && HolderOk(WaitNext(s, t), k)
  {
  }

  lemma WaitKeepsCount(s: State, t: nat, k: nat)
    requires Shape(s) && t < |s.pc| && WaitEnabled(s, t) && k < |s.pc|
    requires CountOk(s, k) && AtOk(s, t)
    ensures Shape(WaitNext(s, t)) && CountOk(WaitNext(s, t), k)
  {
  }

  lemma LightKept(s: State, step: Step, k: nat)
    requires Inv(s) && Enabled(s, step) && Light(step) && k < |s.pc|
    ensures Shape(Next(s, step)) && All(Next(s, step), k)
  {
    hide LockOk, AtOk, ForkOk, ParentOk, KidOk, HaveKidsOk, HolderOk, CountOk, Next;
    assert All(s, k) && All(s, step.t);
    LightKeepsLock(s, step, k);
    LightKeepsAt(s, step, k);
    if step.DoFork? { assert All(s, step.c); }
    if step.DoFork? || step.ForkStep? { ForkKeepsFork(s, step, k); } else { OthersKeepFork(s, step, k); }
    LightKeepsParent(s, step, k);
    LightKeepsKid(s, step, k);
    LightKeepsHaveKids(s, step, k);
    LightKeepsHolder(s, step, k);
    LightKeepsCount(s, step, k);
  }

  lemma ExitKept(s: State, t: nat, k: nat)
    requires Inv(s) && t < |s.pc| && ExitEnabled(s, t) && k < |s.pc|
    ensures Shape(ExitNext(s, t)) && All(ExitNext(s, t), k)
  {
    hide LockOk, AtOk, ForkOk, ParentOk, KidOk, HaveKidsOk, HolderOk, CountOk, ExitNext;
    assert All(s, k) && All(s, t) && All(s, 0) && All(s, Parent(s, k));
    ExitKeepsLock(s, t, k);
    ExitKeepsAt(s, t, k);
    ExitKeepsFork(s, t, k);
    ExitKeepsParent(s, t, k);
    ExitKeepsKid(s, t, k);
    ExitKeepsHaveKids(s, t, k);
    ExitKeepsHolder(s, t, k);
    ExitKeepsCount(s, t, k);
  }

  lemma WaitKept(s: State, t: nat, k: nat)
    requires Inv(s) && t < |s.pc| && WaitEnabled(s, t) && k < |s.pc|
    ensures Shape(WaitNext(s, t)) && All(WaitNext(s, t), k)
  {
    hide LockOk, AtOk, ForkOk, ParentOk, KidOk, HaveKidsOk, HolderOk, CountOk, WaitNext;
    assert All(s, k) && All(s, t);
    WaitKeepsLock(s, t, k);
    WaitKeepsAt(s, t, k);
    WaitKeepsFork(s, t, k);
    WaitKeepsParent(s, t, k);
    WaitKeepsKid(s, t, k);
    WaitKeepsHaveKids(s, t, k);
    assert HolderOf(s, k) < |s.pc| ==> All(s, HolderOf(s, k));
    WaitKeepsHolder(s, t, k);
    WaitKeepsCount(s, t, k);
  }

  lemma InvKept(s: State, step: Step)
    requires Inv(s) && Enabled(s, step)
    ensures Inv(Next(s, step))
  {
    hide All, Light, ExitNext, WaitNext, ForkNext;
    var s' := Next(s, step);
    NextShape(s, step);
    forall k: nat | k < |s'.pc| ensures All(s', k) {
      match step
      case ExitStep(t) => ExitKept(s, t, k);
      case WaitStep(t) => WaitKept(s, t, k);
      case _ => LightKept(s, step, k) by { assert Light(step) by { LightSteps(step); } }
    }
  }

  lemma LightSteps(step: Step)
    ensures Light(step) <==> !step.ExitStep? && !step.WaitStep?
  {
  }

  lemma NextShape(s: State, step: Step)
    requires Enabled(s, step)
    ensures Shape(Next(s, step)) && |Next(s, step).pc| == |s.pc|
  {
  }

  // ---- Runs ----

  /** Init alone, running. */
  ghost predicate Init(s: State) {
    && Shape(s) && s.wl.None? && s.pc[0] == Run
    && (forall k :: 0 <= k < |s.pc| ==> s.parent[k].None? && s.plock[k].None? && s.exits[k] == 0 == s.reaps[k])
    && (forall k :: 0 < k < |s.pc| ==> s.pc[k] == Idle)
  }

  lemma InitInv(s: State)
    requires Init(s)
    ensures Inv(s)
  {
    forall k: nat | k < |s.pc| ensures All(s, k) {
      assert k == 0 || s.pc[k] == Idle;
    }
  }

  ghost predicate IsRun(s: State, steps: seq<Step>)
    decreases |steps|
  {
    steps == [] || (Enabled(s, steps[0]) && IsRun(Next(s, steps[0]), steps[1..]))
  }

  ghost function After(s: State, steps: seq<Step>): State
    requires IsRun(s, steps)
    decreases |steps|
  {
    if steps == [] then s else After(Next(s, steps[0]), steps[1..])
  }

  lemma {:induction false} RunInv(s: State, steps: seq<Step>)
    requires Inv(s) && IsRun(s, steps)
    ensures Inv(After(s, steps))
    decreases |steps|
  {
    hide Next, Inv;
    if steps != [] {
      InvKept(s, steps[0]);
      RunInv(Next(s, steps[0]), steps[1..]);
    }
  }

  /** In every interleaving: nobody is the child of a zombie or of an unused slot; every started process but init has a
      parent, which is alive. */
  lemma Families(s: State, steps: seq<Step>, k: nat)
    requires Init(s) && IsRun(s, steps) && k < |After(s, steps).pc|
    ensures var s' := After(s, steps);
      && |s'.parent| == |s'.pc|
      && (k != 0 && StateOf(s'.pc[k]) != UNUSED && StateOf(s'.pc[k]) != USED ==> s'.parent[k].Some?)
      && (s'.parent[k].Some? ==>
          s'.parent[k].value < |s'.pc| && StateOf(s'.pc[s'.parent[k].value]) !in {UNUSED, USED, ZOMBIE})
  {
    InitInv(s);
    RunInv(s, steps);
    assert All(After(s, steps), k);
  }

  /** Whenever wait_lock is free, no process asleep in kwait has a zombie child. */
  lemma NoUnseenZombie(s: State, steps: seq<Step>, k: nat)
    requires Init(s) && IsRun(s, steps) && k < |After(s, steps).pc| && After(s, steps).wl.None?
    requires StateOf(After(s, steps).pc[k]) == ZOMBIE
    ensures var s' := After(s, steps);
            |s'.parent| == |s'.pc| && s'.parent[k].Some? && s'.parent[k].value < |s'.pc|
                && StateOf(s'.pc[s'.parent[k].value]) != SLEEPING
  {
    InitInv(s);
    RunInv(s, steps);
    var s' := After(s, steps);
    assert All(s', k);
    assert All(s', 0);
  }

  /** Each exit is reaped at most once; and when kwait comes to free a child, that child's CPU has left its kernel
      stack. */
  lemma ReapedOnce(s: State, steps: seq<Step>, k: nat)
    requires Init(s) && IsRun(s, steps) && k < |After(s, steps).pc|
    ensures var s' := After(s, steps);
      && |s'.exits| == |s'.pc| == |s'.reaps|
      && s'.reaps[k] <= s'.exits[k] <= s'.reaps[k] + 1 && (s'.exits[k] > s'.reaps[k] <==> StateOf(s'.pc[k]) == ZOMBIE)
      && (s'.pc[k].WaitAt? ==>
          s'.pc[k].j < |s'.pc| && (StateOf(s'.pc[s'.pc[k].j]) == ZOMBIE ==> s'.pc[s'.pc[k].j] == Dead))
  {
    InitInv(s);
    RunInv(s, steps);
    var s' := After(s, steps);
    assert All(s', k);
    if s'.pc[k].WaitAt? { assert All(s', s'.pc[k].j); }
  }

  /** kwait returns without a child only if the process has none. */
  lemma WaitReturnsChildless(s: State, steps: seq<Step>, t: nat)
    requires Init(s) && IsRun(s, steps) && Enabled(After(s, steps), WaitStep(t))
    requires var s1 := After(s, steps); var s2 := Next(s1, WaitStep(t)); s2.pc[t] == Run && s2.reaps == s1.reaps
    ensures forall k :: 0 <= k < |After(s, steps).parent| ==> After(s, steps).parent[k] != Some(t)
  {
    InitInv(s);
    RunInv(s, steps);
    var s1 := After(s, steps);
    assert All(s1, t);
  }

  /** With a child and none of them a zombie, the scan ends in sleep; with no child it returns.  A scan that has come to
      its end has found no zombie. */
  lemma ScanEnds(s: State, steps: seq<Step>, t: nat)
    requires Init(s) && IsRun(s, steps) && t < |After(s, steps).pc|
    requires var s1 := After(s, steps); s1.pc[t].WaitScan? && s1.pc[t].j >= |s1.pc|
    ensures var s1 := After(s, steps);
      && Enabled(s1, WaitStep(t)) && Next(s1, WaitStep(t)).pc[t] == (if HasKid(s1, t) then WaitSleep else Run)
      && |s1.parent| == |s1.pc|
      && forall k :: 0 <= k < |s1.pc| && s1.parent[k] == Some(t) ==> StateOf(s1.pc[k]) != ZOMBIE
  {
    InitInv(s);
    RunInv(s, steps);
    var s1 := After(s, steps);
    assert All(s1, t);
    forall k | 0 <= k < |s1.pc| && s1.parent[k] == Some(t) ensures StateOf(s1.pc[k]) != ZOMBIE {
      assert All(s1, k);
    }
  }

  /** Nobody sleeps in kwait without a child to wait for. */
  lemma SleepersHaveKids(s: State, steps: seq<Step>, t: nat)
    requires Init(s) && IsRun(s, steps) && t < |After(s, steps).pc| && StateOf(After(s, steps).pc[t]) == SLEEPING
    ensures exists k :: 0 <= k < |After(s, steps).parent| && After(s, steps).parent[k] == Some(t)
  {
    InitInv(s);
    RunInv(s, steps);
    assert All(After(s, steps), t);
  }

  /** A parent changes in three ways only: kfork gives the child it makes its own process, the exit of a parent gives
      its child to init, and kwait takes it from a dead child that it frees. */
  lemma ParentChanges(s: State, steps: seq<Step>, step: Step, k: nat)
    requires Init(s) && IsRun(s, steps) && Enabled(After(s, steps), step) && k < |After(s, steps).pc|
    ensures Shape(After(s, steps)) && Shape(Next(After(s, steps), step))
    ensures |Next(After(s, steps), step).pc| == |After(s, steps).pc|
    ensures ParentChange(After(s, steps), step, Next(After(s, steps), step), k)
  {
    hide Next, LockOk, AtOk, ForkOk, ParentChange;
    InitInv(s);
    RunInv(s, steps);
    var s1 := After(s, steps);
    assert All(s1, k) && All(s1, step.t);
    NextShape(s1, step);
    StepParents(s1, step, k);
  }

  ghost predicate ParentChange(s: State, step: Step, s': State, k: nat)
    requires Shape(s) && Shape(s') && k < |s.pc| == |s'.pc|
  {
    || s'.parent[k] == s.parent[k]
    || (step.ForkStep? && step.t < |s.pc| && s.pc[step.t] == ForkParent(k) && s.parent[k] == None
        && s'.parent[k] == Some(step.t))
    || (step.ExitStep? && s.parent[k] == Some(step.t) && s'.parent[k] == Some(0))
    || (step.WaitStep? && s.parent[k] == Some(step.t) && s'.parent[k] == None && s.pc[k] == Dead
        && s'.pc[k] == Idle && s'.reaps[k] == s.reaps[k] + 1)
  }

  lemma StepParents(s: State, step: Step, k: nat)
    requires Enabled(s, step) && k < |s.pc| && LockOk(s, k) && ForkOk(s, step.t) && AtOk(s, step.t)
    ensures Shape(Next(s, step)) && |Next(s, step).pc| == |s.pc| && ParentChange(s, step, Next(s, step), k)
  {
  }

  /** A process in the middle of kfork, kexit or kwait that is not asleep. */
  predicate Busy(pc: Pc) {
    !pc.Idle? && !pc.Embryo? && !pc.Run? && !pc.Dead? && !pc.WaitAsleep?
  }

  predicate CanGo(s: State, u: nat) {
    Enabled(s, ForkStep(u)) || Enabled(s, ExitStep(u)) || Enabled(s, WaitStep(u))
  }

  /** The locks never deadlock: if a process is in the middle of a call and not asleep, some such process can go on. */
  lemma NoDeadlock(s: State, steps: seq<Step>, t: nat)
    requires Init(s) && IsRun(s, steps) && t < |After(s, steps).pc| && Busy(After(s, steps).pc[t])
    ensures exists u: nat :: CanGo(After(s, steps), u)
  {
    InitInv(s);
    RunInv(s, steps);
    var s1 := After(s, steps);
    assert All(s1, t);
    if s1.wl.Some? { HolderGoes(s1, s1.wl.value); } else { FreeGoes(s1, t); }
  }

  /** Who is named by a process's lock, other than a scan with wait_lock, can go on. */
  lemma LockGoes(s: State, k: nat)
    requires Inv(s) && k < |s.pc| && s.plock[k].Some? && s.plock[k].value < |s.pc|
             && !HasWaitLock(s.pc[s.plock[k].value])
    ensures CanGo(s, s.plock[k].value)
  {
    assert All(s, k);
    assert All(s, s.plock[k].value);
  }

  lemma HolderGoes(s: State, w: nat)
    requires Inv(s) && s.wl == Some(w)
    ensures exists u: nat :: CanGo(s, u)
  {
    assert All(s, 0);
    assert All(s, w);
    if !CanGo(s, w) {
      var k := match s.pc[w]
        case ExitReWake(_) => 0
        case ExitWake => Parent(s, w)
        case WaitScan(j, _) => if j < |s.pc| then j else w
        case _ => w;
      assert All(s, k);
      assert s.plock[k].Some?;
      assert All(s, s.plock[k].value);
      LockGoes(s, k);
    }
  }

  lemma FreeGoes(s: State, t: nat)
    requires Inv(s) && t < |s.pc| && s.wl == None && Busy(s.pc[t])
    ensures exists u: nat :: CanGo(s, u)
  {
    assert All(s, t);
    if !CanGo(s, t) {
      var k := if s.pc[t].ForkStart? then s.pc[t].c else t;
      assert All(s, k);
      assert s.plock[k].Some?;
      assert All(s, s.plock[k].value);
      LockGoes(s, k);
    }
  }
}
