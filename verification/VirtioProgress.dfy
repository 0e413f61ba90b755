/** Requests come to an end: each goes through its phases one step at a time, in the order in which the queue is read,
    and whatever is in progress can be driven to its end. */
module VirtioProgress {
  import opened Std
  import opened Counters
  import opened Virtio

  /** How many steps a request in this phase still takes: the device reads it, the device finishes it, the interrupt
      sees it, and virtio_disk_rw gives its descriptors back. */
  function ToDo(phase: Phase): nat {
    match phase case Queued => 4 case Taken => 3 case Completed => 2 case Finished => 1
  }

  ghost function Rest(live: map<nat, Req>): map<nat, nat> { map h | h in live :: ToDo(live[h].phase) }

  ghost function Work(s: State): nat { Sum(Rest(s.live)) }

  lemma PhaseWork(live: map<nat, Req>, h: nat, phase: Phase)
    requires h in live && ToDo(phase) == ToDo(live[h].phase) - 1
    ensures Sum(Rest(SetPhase(live, h, phase))) == Sum(Rest(live)) - 1
  {
    assert Rest(SetPhase(live, h, phase)) == Rest(live)[h := ToDo(phase)];
    SumRemove(Rest(live), h);
    SumUpdate(Rest(live), h, ToDo(phase));
  }

  lemma RemoveWork(live: map<nat, Req>, h: nat)
    requires h in live
    ensures Sum(Rest(live - {h})) == Sum(Rest(live)) - ToDo(live[h].phase)
  {
    assert Rest(live - {h}) == Rest(live) - {h};
    SumRemove(Rest(live), h);
  }

  /** The entry that a ring offers next is a request of the ring's phase. */
  lemma RingHead(ring: seq<nat>, lo: nat, hi: nat, live: map<nat, Req>, phase: Phase)
    requires RingHolds(ring, lo, hi, live, phase) && lo != hi
    ensures ring[lo % |ring|] in live && live[ring[lo % |ring|]].phase == phase
  {
    WindowPop(ring, lo, hi, U16);
    assert Window(ring, lo, hi, U16)[0] == ring[lo % |ring|];
  }

  /** Each step of the device, the interrupt or a process that waits does one step of one request. */
  lemma StepWorks(s: State, step: Step)
    requires Inv(s) && Enabled(s, step) && !step.Submit?
    ensures Work(Next(s, step)) == Work(s) - 1
  {
    hide Inv, RingHolds;
    match step
    case Take =>
      TakeReads(s);
      PhaseWork(s.live, s.avail[s.seen % |s.avail|], Taken);
    case Complete(h) => PhaseWork(s.live, h, Completed);
    case Interrupt =>
      InterruptReads(s);
      PhaseWork(s.live, s.used[s.usedSeen % |s.used|], Finished);
    case Release(h) => RemoveWork(s.live, h);
  }

  lemma TakeReads(s: State)
    requires Inv(s) && s.seen != s.availIdx
    ensures Enabled(s, Take) && s.live[s.avail[s.seen % |s.avail|]].phase == Queued
  {
    RingHead(s.avail, s.seen, s.availIdx, s.live, Queued);
  }

  /** A ring with a request in it is not empty. */
  lemma RingNotEmpty(ring: seq<nat>, lo: nat, hi: nat, live: map<nat, Req>, phase: Phase, h: nat)
    requires RingHolds(ring, lo, hi, live, phase) && h in live && live[h].phase == phase
    ensures lo != hi
  {
    assert h in Window(ring, lo, hi, U16);
    CountUp(lo, hi, U16);
  }

  /** A request that is in progress can be taken one step further, or one that is before it in its ring can. */
  lemma CanWork(s: State, h: nat) returns (step: Step)
    requires Inv(s) && h in s.live
    ensures Enabled(s, step) && !step.Submit?
  {
    assert ChainOk(s, h);
    match s.live[h].phase
    case Queued =>
      RingNotEmpty(s.avail, s.seen, s.availIdx, s.live, Queued, h);
      TakeReads(s);
      step := Take;
    case Taken => step := Complete(h);
    case Completed =>
      RingNotEmpty(s.used, s.usedSeen, s.usedIdx, s.live, Completed, h);
      InterruptReads(s);
      step := Interrupt;
    case Finished => step := Release(h);
  }

  // ---- Runs ----

  lemma {:induction false} Drain(s: State) returns (steps: seq<Step>)
    requires Inv(s)
    ensures IsRun(s, steps) && |steps| == Work(s) && forall i :: 0 <= i < |steps| ==> !steps[i].Submit?
    decreases Work(s)
  {
    hide Inv, Next, Enabled;
    if s.live == map[] {
      assert Rest(s.live) == map[];
      steps := [];
    } else {
      var h :| h in s.live;
      var step := CanWork(s, h);
      StepWorks(s, step);
      InvKept(s, step);
      var more := Drain(Next(s, step));
      steps := [step] + more;
      assert steps[1..] == more;
    }
  }

  lemma {:induction false} WorkDone(s: State, steps: seq<Step>)
    requires Inv(s) && IsRun(s, steps) && forall i :: 0 <= i < |steps| ==> !steps[i].Submit?
    ensures Inv(After(s, steps)) && Work(After(s, steps)) == Work(s) - |steps|
    decreases |steps|
  {
    hide Inv, Next, Enabled;
    if steps != [] {
      StepWorks(s, steps[0]);
      InvKept(s, steps[0]);
      WorkDone(Next(s, steps[0]), steps[1..]);
    }
  }

  lemma NoWork(s: State)
    ensures Work(s) == 0 <==> s.live == map[]
  {
    if s.live == map[] {
      assert Rest(s.live) == map[];
    } else {
      var h :| h in s.live;
      SumRemove(Rest(s.live), h);
    }
  }

  /** Request h is what buffer b waits for. */
  ghost predicate WaitsFor(s: State, b: nat, h: nat) {
    h in s.live && s.live[h].buf == b && s.live[h].phase != Finished
  }

  /** Every buffer with b->disk set has its request. */
  ghost predicate Awaited(s: State) {
    forall b :: b in s.disk ==> exists h :: WaitsFor(s, b, h)
  }

  lemma AwaitedKept(s: State, step: Step)
    requires Inv(s) && Awaited(s) && Enabled(s, step)
    ensures Awaited(Next(s, step))
  {
    hide RingHolds, ChainOk, DescOk;
    var s' := Next(s, step);
    if step.Take? { TakeReads(s); }
    if step.Interrupt? { InterruptReads(s); }
    if step.Submit? { FreeNotLive(s, step.i0); }
    forall b | b in s'.disk ensures exists h :: WaitsFor(s', b, h) {
      if b in s.disk {
        var h :| WaitsFor(s, b, h);
        assert BufOk(s, h);
        assert WaitsFor(s', b, h);
      } else {
        assert WaitsFor(s', b, step.i0);
      }
    }
  }

  lemma {:induction false} RunAwaited(s: State, steps: seq<Step>)
    requires Inv(s) && Awaited(s) && IsRun(s, steps)
    ensures Inv(After(s, steps)) && Awaited(After(s, steps))
    decreases |steps|
  {
    hide Inv, Next, Enabled, Awaited;
    if steps != [] {
      InvKept(s, steps[0]);
      AwaitedKept(s, steps[0]);
      RunAwaited(Next(s, steps[0]), steps[1..]);
    }
  }

  /** From every reachable state the requests in progress can be brought to an end without a new one, and any way to
      do so takes exactly as many steps as they have left. They are all at an end if and only if every descriptor is
      free, and then no buffer waits. */
  lemma RequestsEnd(s: State, steps: seq<Step>, more: seq<Step>) returns (rest: seq<Step>)
    requires Init(s) && IsRun(s, steps) && IsRun(After(s, steps), more)
    requires forall i :: 0 <= i < |more| ==> !more[i].Submit?
    ensures |more| <= Work(After(s, steps))
    ensures var t := After(After(s, steps), more);
      && (|more| == Work(After(s, steps)) <==> t.live == map[])
      && (t.live == map[] <==> forall i :: 0 <= i < |t.free| ==> t.free[i])
      && (t.live == map[] ==> t.disk == {})
      && IsRun(t, rest) && After(t, rest).live == map[] && forall i :: 0 <= i < |rest| ==> !rest[i].Submit?
  {
    hide Inv, Next, Enabled, IsRun, After, Awaited, Work;
    InitInv(s);
    assert Awaited(s) by { NoneAwaited(s); }
    RunAwaited(s, steps);
    var m := After(s, steps);
    RunAwaited(m, more);
    var t := After(m, more);
    WorkDone(m, more);
    NoWork(t);
    AllFree(t);
    rest := Drain(t);
    WorkDone(t, rest);
    NoWork(After(t, rest));
  }

  lemma NoneAwaited(s: State)
    requires Init(s)
    ensures Awaited(s)
  {
  }

  lemma AllFree(s: State)
    requires Inv(s) && Awaited(s)
    ensures s.live == map[] <==> forall i :: 0 <= i < |s.free| ==> s.free[i]
    ensures s.live == map[] ==> s.disk == {}
  {
    hide RingHolds;
    if s.live == map[] {
      forall i: nat | i < |s.free| ensures s.free[i] { assert DescOk(s, i); }
    } else {
      var h :| h in s.live;
      assert ChainOk(s, h) && DescOk(s, h);
    }
  }
}
