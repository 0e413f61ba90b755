/** The request queue of kernel/virtio_disk.c: split virtqueues with three descriptors to a request, sections 2.6 and
    5.2 of VIRTIO 1.1. Steps are the stretches of the driver under vdisk_lock and the moves of the device, which may
    finish requests in any order. The number of descriptors is |free|, and divides 2^16. */
module Virtio {
  import opened Std
  import opened Counters

  const U16: nat := 0x1_0000

  /** The fields of a descriptor that the driver follows: VRING_DESC_F_NEXT and next. */
  datatype Desc = Desc(more: bool, next: nat)

  /** How far a request has come: in the avail ring, taken by the device, in the used ring, seen by the interrupt. */
  datatype Phase = Queued | Taken | Completed | Finished

  /** A request in progress: its second and third descriptor and its buffer; the first one is its name. */
  datatype Req = Req(mid: nat, tail: nat, buf: nat, phase: Phase)

  /** `seen` is the device's place in the avail ring, usedSeen the driver's in the used ring (disk.used_idx), and `disk`
      the buffers with b->disk set.  `live` and `part` say which request each descriptor is part of. */
  datatype State = State(free: seq<bool>, desc: seq<Desc>, info: seq<Option<nat>>,
                         avail: seq<nat>, availIdx: nat, seen: nat, used: seq<nat>, usedIdx: nat, usedSeen: nat,
                         disk: set<nat>, live: map<nat, Req>, part: map<nat, nat>)

  // ---- The invariant ----

  ghost predicate Shape(s: State) {
    |s.desc| == |s.free| == |s.info| == |s.avail| == |s.used|
  }

  /** The three descriptors of request h: distinct, linked in order, belonging to it alone. */
  ghost predicate ChainOk(s: State, h: nat)
    requires Shape(s)
  {
    && h in s.live
    && var r := s.live[h];
       && h < |s.desc| && r.mid < |s.desc| && r.tail < |s.desc| && h != r.mid && h != r.tail && r.mid != r.tail
       && s.desc[h] == Desc(true, r.mid) && s.desc[r.mid] == Desc(true, r.tail) && !s.desc[r.tail].more
       && h in s.part && s.part[h] == h && r.mid in s.part && s.part[r.mid] == h && r.tail in s.part
           && s.part[r.tail] == h
       && s.info[h] == Some(r.buf)
  }

  /** A descriptor is free, or part of one live request. */
  ghost predicate DescOk(s: State, i: nat)
    requires Shape(s)
  {
    && (i in s.part <==> i < |s.free| && !s.free[i])
    && (i in s.part ==> s.part[i] in s.live
                        && (i == s.part[i] || i == s.live[s.part[i]].mid || i == s.live[s.part[i]].tail))
  }

  /** Requests have different buffers, and b->disk is set until the interrupt has seen the request done. */
  ghost predicate BufOk(s: State, h: nat) {
    && h in s.live
    && (forall g :: g in s.live && s.live[g].buf == s.live[h].buf ==> g == h)
    && (s.live[h].buf in s.disk <==> s.live[h].phase != Finished)
  }

  /** The entries of a ring between its indices are the requests of one phase, each once. */
  ghost predicate RingHolds(ring: seq<nat>, lo: nat, hi: nat, live: map<nat, Req>, phase: Phase) {
    && WindowOk(ring, lo, hi, U16)
    && NoDup(Window(ring, lo, hi, U16))
    && (forall h :: h in Window(ring, lo, hi, U16) <==> h in live && live[h].phase == phase)
  }

  ghost predicate Inv(s: State) {
    && Shape(s)
    && (forall h {:trigger ChainOk(s, h)} :: h in s.live ==> ChainOk(s, h))
    && (forall i: nat {:trigger DescOk(s, i)} :: DescOk(s, i))
    && (forall h {:trigger BufOk(s, h)} :: h in s.live ==> BufOk(s, h))
    && RingHolds(s.avail, s.seen, s.availIdx, s.live, Queued)
    && RingHolds(s.used, s.usedSeen, s.usedIdx, s.live, Completed)
  }

  // ---- Counting ----

  /** Requests and their descriptors, apart from the rest of the state. */
  ghost predicate Parts(live: map<nat, Req>, part: map<nat, nat>) {
    && (forall h {:trigger Whole(live, part, h)} :: h in live ==> Whole(live, part, h))
    && (forall i {:trigger Member(live, part, i)} :: i in part ==> Member(live, part, i))
  }

  ghost predicate Whole(live: map<nat, Req>, part: map<nat, nat>, h: nat) {
    && h in live && h != live[h].mid && h != live[h].tail && live[h].mid != live[h].tail
    && h in part && part[h] == h && live[h].mid in part && part[live[h].mid] == h && live[h].tail in part
        && part[live[h].tail] == h
  }

  ghost predicate Member(live: map<nat, Req>, part: map<nat, nat>, i: nat) {
    i in part && part[i] in live && (i == part[i] || i == live[part[i]].mid || i == live[part[i]].tail)
  }

  lemma {:induction false} PartsCount(live: map<nat, Req>, part: map<nat, nat>)
    requires Parts(live, part)
    ensures |part| == 3 * |live|
    decreases |live|
  {
    if live == map[] {
      forall i ensures i !in part {
        assert i in part ==> Member(live, part, i);
      }
    } else {
      var h :| h in live;
      assert Whole(live, part, h);
      var r := live[h];
      var live', part' := live - {h}, part - {h, r.mid, r.tail};
      assert |{h, r.mid, r.tail}| == 3;
      assert part.Keys == part'.Keys + {h, r.mid, r.tail} && |part.Keys| == |part'.Keys| + 3;
      assert live.Keys == live'.Keys + {h};
      forall g | g in live' ensures Whole(live', part', g) {
        assert Whole(live, part, g);
      }
      forall i | i in part' ensures Member(live', part', i) {
        assert Member(live, part, i);
      }
      PartsCount(live', part');
    }
  }

  lemma InvParts(s: State)
    requires Inv(s)
    ensures Parts(s.live, s.part)
  {
    forall h | h in s.live ensures Whole(s.live, s.part, h) {
      assert ChainOk(s, h);
    }
    forall i | i in s.part ensures Member(s.live, s.part, i) {
      assert DescOk(s, i);
    }
  }

  ghost function FreeOnes(s: State): set<nat> {
    set i: nat | i < |s.free| && s.free[i]
  }

  /** Every descriptor is free or one of three in a live request: free + 3 * live = NUM. */
  lemma Conservation(s: State)
    requires Inv(s)
    ensures |FreeOnes(s)| + 3 * |s.live| == |s.free|
  {
    InvParts(s);
    PartsCount(s.live, s.part);
    forall i: nat ensures i in s.part <==> i < |s.free| && !s.free[i] {
      assert DescOk(s, i);
    }
    hide Inv, Parts;
    SplitCard(Below(|s.free|), FreeOnes(s), s.part.Keys);
  }

  lemma SplitCard(all: set<nat>, a: set<nat>, b: set<nat>)
    requires forall i: nat :: i in all <==> i in a || i in b
    requires forall i: nat :: !(i in a && i in b)
    ensures |all| == |a| + |b|
  {
    assert all == a + b && a * b == {};
  }

  /** A ring never holds more than the live requests, so with room for one more request it has a free slot. */
  lemma RingRoom(ring: seq<nat>, lo: nat, hi: nat, live: map<nat, Req>, phase: Phase)
    requires RingHolds(ring, lo, hi, live, phase)
    ensures Count(lo, hi, U16) <= |live|
  {
    var w := Window(ring, lo, hi, U16);
    NoDupCard(w);
    SubsetCardinality(Elements(w), live.Keys);
  }

  // ---- Steps ----

  /** Submit: virtio_disk_rw up to its wait, with the descriptors that alloc3_desc found.  Take and Complete: the device
      reads the avail ring, and finishes a request it has taken.  Interrupt: one round of virtio_disk_intr's loop.
      Release: the end of virtio_disk_rw. */
  datatype Step =
    | Submit(b: nat, i0: nat, i1: nat, i2: nat)
    | Take
    | Complete(h: nat)
    | Interrupt
    | Release(h: nat)

  /** A buffer has one request at a time, as its holder has locked it. */
  ghost predicate Enabled(s: State, step: Step) {
    && Shape(s) && |s.free| > 0
    && match step
       case Submit(b, i0, i1, i2) =>
         && i0 < |s.free| && i1 < |s.free| && i2 < |s.free| && i0 != i1 && i0 != i2 && i1 != i2
         && s.free[i0] && s.free[i1] && s.free[i2] && b !in s.disk && forall h :: h in s.live ==> s.live[h].buf != b
       case Take => s.seen != s.availIdx && s.avail[s.seen % |s.avail|] in s.live
       case Complete(h) => h in s.live && s.live[h].phase == Taken
       case Interrupt =>
         s.usedSeen != s.usedIdx && s.used[s.usedSeen % |s.used|] < |s.info|
             && s.info[s.used[s.usedSeen % |s.used|]].Some?
         && s.used[s.usedSeen % |s.used|] in s.live
       case Release(h) => h in s.live && s.live[h].phase == Finished && h < |s.free| && s.live[h].mid < |s.free|
                          && s.live[h].tail < |s.free|
  }

  ghost function SetPhase(live: map<nat, Req>, h: nat, phase: Phase): map<nat, Req>
    requires h in live
  {
    live[h := live[h].(phase := phase)]
  }

  ghost function Next(s: State, step: Step): State
    requires Enabled(s, step)
  {
    match step
    case Submit(b, i0, i1, i2) =>
      s.(free := s.free[i0 := false][i1 := false][i2 := false],
         desc := s.desc[i0 := Desc(true, i1)][i1 := Desc(true, i2)][i2 := Desc(false, 0)],
         info := s.info[i0 := Some(b)], disk := s.disk + {b},
         avail := s.avail[s.availIdx % |s.avail| := i0], availIdx := (s.availIdx + 1) % U16,
         live := s.live[i0 := Req(i1, i2, b, Queued)], part := s.part[i0 := i0][i1 := i0][i2 := i0])
    case Take =>
      s.(seen := (s.seen + 1) % U16, live := SetPhase(s.live, s.avail[s.seen % |s.avail|], Taken))
    case Complete(h) =>
      s.(used := s.used[s.usedIdx % |s.used| := h], usedIdx := (s.usedIdx + 1) % U16,
         live := SetPhase(s.live, h, Completed))
    case Interrupt =>
      var id := s.used[s.usedSeen % |s.used|];
      s.(disk := s.disk - {s.info[id].value}, usedSeen := (s.usedSeen + 1) % U16,
         live := SetPhase(s.live, id, Finished))
    case Release(h) =>
      var r := s.live[h];
      s.(free := s.free[h := true][r.mid := true][r.tail := true],
         desc := s.desc[h := Desc(false, 0)][r.mid := Desc(false, 0)][r.tail := Desc(false, 0)],
         info := s.info[h := None], live := s.live - {h}, part := s.part - {h, r.mid, r.tail})
  }

  // ---- Every step keeps the invariant ----

  lemma RingPush(ring: seq<nat>, lo: nat, hi: nat, live: map<nat, Req>, phase: Phase, h: nat, live': map<nat, Req>)
    requires RingHolds(ring, lo, hi, live, phase) && Count(lo, hi, U16) < |ring|
    requires h in live ==> live[h].phase != phase
    requires h in live' && live'[h].phase == phase
    requires forall g :: g != h ==> (g in live && live[g].phase == phase <==> g in live' && live'[g].phase == phase)
    ensures RingHolds(ring[hi % |ring| := h], lo, (hi + 1) % U16, live', phase)
  {
    WindowPush(ring, lo, hi, U16, h);
  }

  lemma RingPop(ring: seq<nat>, lo: nat, hi: nat, live: map<nat, Req>, phase: Phase, live': map<nat, Req>)
    requires RingHolds(ring, lo, hi, live, phase) && lo != hi
    requires forall g :: g != ring[lo % |ring|] ==>
               (g in live && live[g].phase == phase <==> g in live' && live'[g].phase == phase)
    requires ring[lo % |ring|] in live' ==> live'[ring[lo % |ring|]].phase != phase
    ensures RingHolds(ring, (lo + 1) % U16, hi, live', phase)
    ensures ring[lo % |ring|] in live && live[ring[lo % |ring|]].phase == phase
  {
    WindowPop(ring, lo, hi, U16);
    var w, w' := Window(ring, lo, hi, U16), Window(ring, (lo + 1) % U16, hi, U16);
    assert w[0] == ring[lo % |ring|] && w' == w[1..];
    hide Window, WindowOk;
    assert forall k :: 0 <= k < |w'| ==> w'[k] == w[k + 1];
  }

  /** Requests of this phase have not changed. */
  lemma RingSame(ring: seq<nat>, lo: nat, hi: nat, live: map<nat, Req>, phase: Phase, live': map<nat, Req>)
    requires RingHolds(ring, lo, hi, live, phase)
    requires forall g :: g in live && live[g].phase == phase <==> g in live' && live'[g].phase == phase
    ensures RingHolds(ring, lo, hi, live', phase)
  {
  }

  lemma SubmitChains(s: State, b: nat, i0: nat, i1: nat, i2: nat, h: nat)
    requires Inv(s) && Enabled(s, Submit(b, i0, i1, i2)) && h in Next(s, Submit(b, i0, i1, i2)).live
    ensures Shape(Next(s, Submit(b, i0, i1, i2))) && ChainOk(Next(s, Submit(b, i0, i1, i2)), h)
  {
    assert DescOk(s, i0) && DescOk(s, i1) && DescOk(s, i2);
    if h != i0 {
      assert ChainOk(s, h);
    }
  }

  lemma SubmitDescs(s: State, b: nat, i0: nat, i1: nat, i2: nat, i: nat)
    requires Inv(s) && Enabled(s, Submit(b, i0, i1, i2))
    ensures Shape(Next(s, Submit(b, i0, i1, i2))) && DescOk(Next(s, Submit(b, i0, i1, i2)), i)
  {
    assert DescOk(s, i);
    FreeNotLive(s, i0);
  }

  lemma SubmitBufs(s: State, b: nat, i0: nat, i1: nat, i2: nat, h: nat)
    requires Inv(s) && Enabled(s, Submit(b, i0, i1, i2)) && h in Next(s, Submit(b, i0, i1, i2)).live
    ensures BufOk(Next(s, Submit(b, i0, i1, i2)), h)
  {
    if h != i0 { assert BufOk(s, h); }
  }

  /** A free descriptor names no request. */
  lemma FreeNotLive(s: State, i: nat)
    requires Inv(s) && i < |s.free| && s.free[i]
    ensures i !in s.live
  {
    assert DescOk(s, i);
    assert i in s.live ==> ChainOk(s, i);
  }

  lemma SubmitRings(s: State, b: nat, i0: nat, i1: nat, i2: nat)
    requires Inv(s) && Enabled(s, Submit(b, i0, i1, i2))
    ensures var s' := Next(s, Submit(b, i0, i1, i2));
      RingHolds(s'.avail, s'.seen, s'.availIdx, s'.live, Queued)
      && RingHolds(s'.used, s'.usedSeen, s'.usedIdx, s'.live, Completed)
  {
    hide RingHolds, ChainOk, DescOk, BufOk;
    var s' := Next(s, Submit(b, i0, i1, i2));
    FreeNotLive(s, i0);
    Conservation(s);
    RingRoom(s.avail, s.seen, s.availIdx, s.live, Queued);
    FreeThree(s, i0, i1, i2);
    RingPush(s.avail, s.seen, s.availIdx, s.live, Queued, i0, s'.live);
    RingSame(s.used, s.usedSeen, s.usedIdx, s.live, Completed, s'.live);
  }

  lemma SubmitInv(s: State, b: nat, i0: nat, i1: nat, i2: nat)
    requires Inv(s) && Enabled(s, Submit(b, i0, i1, i2))
    ensures Inv(Next(s, Submit(b, i0, i1, i2)))
  {
    hide RingHolds, Next, Enabled, ChainOk, DescOk, BufOk;
    var s' := Next(s, Submit(b, i0, i1, i2));
    SubmitRings(s, b, i0, i1, i2);
    SubmitDescs(s, b, i0, i1, i2, 0);
    forall h | h in s'.live ensures Shape(s') && ChainOk(s', h) { SubmitChains(s, b, i0, i1, i2, h); }
    forall h | h in s'.live ensures BufOk(s', h) { SubmitBufs(s, b, i0, i1, i2, h); }
    forall i: nat ensures Shape(s') && DescOk(s', i) { SubmitDescs(s, b, i0, i1, i2, i); }
  }

  lemma FreeThree(s: State, i0: nat, i1: nat, i2: nat)
    requires i0 < |s.free| && i1 < |s.free| && i2 < |s.free| && i0 != i1 && i0 != i2 && i1 != i2 && s.free[i0]
             && s.free[i1] && s.free[i2]
    ensures |FreeOnes(s)| >= 3
  {
    assert {i0, i1, i2} <= FreeOnes(s) && |{i0, i1, i2}| == 3;
    SubsetCardinality({i0, i1, i2}, FreeOnes(s));
  }

  /** Only a phase changes, and with it perhaps b->disk. */
  lemma PhaseKeeps(s: State, h: nat, phase: Phase, s': State)
    requires Inv(s) && h in s.live && s'.live == SetPhase(s.live, h, phase) && s.live[h].phase != Finished
    requires s'.free == s.free && s'.desc == s.desc && s'.info == s.info && s'.part == s.part
             && |s'.avail| == |s.avail| && |s'.used| == |s.used|
    requires s'.disk == if phase == Finished then s.disk - {s.live[h].buf} else s.disk
    ensures Shape(s')
    ensures forall g :: g in s'.live ==> ChainOk(s', g) && BufOk(s', g)
    ensures forall i: nat :: DescOk(s', i)
  {
    assert BufOk(s, h);
    forall g | g in s'.live ensures ChainOk(s', g) && BufOk(s', g) {
      assert ChainOk(s, g) && BufOk(s, g);
    }
    forall i: nat ensures DescOk(s', i) {
      assert DescOk(s, i);
    }
  }

  lemma TakeInv(s: State)
    requires Inv(s) && Enabled(s, Take)
    ensures Inv(Next(s, Take))
  {
    hide RingHolds, ChainOk, BufOk, DescOk;
    var s' := Next(s, Take);
    var h := s.avail[s.seen % |s.avail|];
    RingPop(s.avail, s.seen, s.availIdx, s.live, Queued, s'.live);
    RingSame(s.used, s.usedSeen, s.usedIdx, s.live, Completed, s'.live);
    PhaseKeeps(s, h, Taken, s');
  }

  lemma CompleteInv(s: State, h: nat)
    requires Inv(s) && Enabled(s, Complete(h))
    ensures Inv(Next(s, Complete(h)))
  {
    hide RingHolds, ChainOk, BufOk, DescOk;
    var s' := Next(s, Complete(h));
    Conservation(s);
    RingRoom(s.used, s.usedSeen, s.usedIdx, s.live, Completed);
    assert |s.live| > 0 by { assert h in s.live.Keys; }
    RingPush(s.used, s.usedSeen, s.usedIdx, s.live, Completed, h, s'.live);
    RingSame(s.avail, s.seen, s.availIdx, s.live, Queued, s'.live);
    PhaseKeeps(s, h, Completed, s');
  }

  /** The interrupt's entry names a request that the device has finished, and its buffer is the one it clears. */
  lemma InterruptReads(s: State)
    requires Inv(s) && s.usedSeen != s.usedIdx
    ensures Enabled(s, Interrupt)
    ensures var id := s.used[s.usedSeen % |s.used|];
            id in s.live && s.live[id].phase == Completed && s.info[id] == Some(s.live[id].buf)
                && s.live[id].buf in s.disk
  {
    WindowPop(s.used, s.usedSeen, s.usedIdx, U16);
    var id := s.used[s.usedSeen % |s.used|];
    assert Window(s.used, s.usedSeen, s.usedIdx, U16)[0] == id;
    assert id in s.live && s.live[id].phase == Completed;
    assert ChainOk(s, id) && BufOk(s, id);
  }

  lemma InterruptInv(s: State)
    requires Inv(s) && Enabled(s, Interrupt)
    ensures Inv(Next(s, Interrupt))
  {
    hide RingHolds, ChainOk, BufOk, DescOk;
    InterruptReads(s);
    var s' := Next(s, Interrupt);
    var id := s.used[s.usedSeen % |s.used|];
    RingPop(s.used, s.usedSeen, s.usedIdx, s.live, Completed, s'.live);
    RingSame(s.avail, s.seen, s.availIdx, s.live, Queued, s'.live);
    PhaseKeeps(s, id, Finished, s');
  }

  lemma ReleaseChains(s: State, h: nat, g: nat)
    requires Inv(s) && Enabled(s, Release(h)) && g in s.live && g != h
    ensures Shape(Next(s, Release(h))) && ChainOk(Next(s, Release(h)), g)
  {
    hide RingHolds;
    assert ChainOk(s, h) && ChainOk(s, g);
  }

  lemma ReleaseDescs(s: State, h: nat, i: nat)
    requires Inv(s) && Enabled(s, Release(h))
    ensures Shape(Next(s, Release(h))) && DescOk(Next(s, Release(h)), i)
  {
    hide RingHolds;
    assert ChainOk(s, h) && DescOk(s, i);
  }

  lemma ReleaseInv(s: State, h: nat)
    requires Inv(s) && Enabled(s, Release(h))
    ensures Inv(Next(s, Release(h)))
  {
    hide RingHolds, ChainOk, DescOk;
    var s' := Next(s, Release(h));
    RingSame(s.avail, s.seen, s.availIdx, s.live, Queued, s'.live);
    RingSame(s.used, s.usedSeen, s.usedIdx, s.live, Completed, s'.live);
    forall g | g in s'.live ensures ChainOk(s', g) && BufOk(s', g) {
      ReleaseChains(s, h, g);
      assert BufOk(s, g);
    }
    forall i: nat ensures DescOk(s', i) { ReleaseDescs(s, h, i); }
  }

  lemma InvKept(s: State, step: Step)
    requires Inv(s) && Enabled(s, step)
    ensures Inv(Next(s, step))
  {
    match step
    case Submit(b, i0, i1, i2) => SubmitInv(s, b, i0, i1, i2);
    case Take => TakeInv(s);
    case Complete(h) => CompleteInv(s, h);
    case Interrupt => InterruptInv(s);
    case Release(h) => ReleaseInv(s, h);
  }

  // ---- Runs ----

  /** As virtio_disk_init leaves it: all descriptors free, both rings empty. */
  ghost predicate Init(s: State) {
    && Shape(s) && 0 < |s.free| < U16 && U16 % |s.free| == 0 && (forall i :: 0 <= i < |s.free| ==> s.free[i])
    && s.availIdx == s.seen < U16 && s.usedIdx == s.usedSeen < U16 && s.disk == {} && s.live == map[] && s.part == map[]
  }

  lemma InitInv(s: State)
    requires Init(s)
    ensures Inv(s)
  {
    CountUp(s.seen, s.availIdx, U16);
    CountUp(s.usedSeen, s.usedIdx, U16);
    assert Window(s.avail, s.seen, s.availIdx, U16) == [] && Window(s.used, s.usedSeen, s.usedIdx, U16) == [];
    forall i: nat ensures DescOk(s, i) {
    }
  }

  ghost predicate IsRun(s: State, steps: seq<Step>)
    decreases |steps|
  {
    steps == [] || (Enabled(s, steps[0]) && IsRun(Next(s, steps[0]), steps[1..]))
  }

  ghost function After(s: State, steps: seq<Step>): State
    requires IsRun(s, steps)
    decreases |steps|
  {
    if steps == [] then s else After(Next(s, steps[0]), steps[1..])
  }

  lemma {:induction false} RunInv(s: State, steps: seq<Step>)
    requires Inv(s) && IsRun(s, steps)
    ensures Inv(After(s, steps))
    decreases |steps|
  {
    hide Inv, Next;
    if steps != [] {
      InvKept(s, steps[0]);
      RunInv(Next(s, steps[0]), steps[1..]);
    }
  }

  /** For any order of completions: live requests are disjoint triples of descriptors that are not free and with the
      free ones make up all; what lies in the rings between the indices is just the requests queued and those
      completed, never more than there are slots, wherever the 16-bit indices stand. */
  lemma QueueSafety(s: State, steps: seq<Step>)
    requires Init(s) && IsRun(s, steps)
    ensures var s' := After(s, steps);
      && Inv(s') && |FreeOnes(s')| + 3 * |s'.live| == |s'.free|
      && Count(s'.seen, s'.availIdx, U16) <= |s'.live|
          && Count(s'.usedSeen, s'.usedIdx, U16) <= |s'.live| <= |s'.free| / 3
  {
    InitInv(s);
    RunInv(s, steps);
    var s' := After(s, steps);
    Conservation(s');
    RingRoom(s'.avail, s'.seen, s'.availIdx, s'.live, Queued);
    RingRoom(s'.used, s'.usedSeen, s'.usedIdx, s'.live, Completed);
  }

  /** Each round of the interrupt releases the buffer of one request that the device has finished, which was waiting,
      and no other buffer and no other request; and whenever the indices differ there is such a round to make. */
  lemma InterruptReleasesOne(s: State, steps: seq<Step>)
    requires Init(s) && IsRun(s, steps) && After(s, steps).usedSeen != After(s, steps).usedIdx
    ensures var s' := After(s, steps);
      && Enabled(s', Interrupt)
      && var id := s'.used[s'.usedSeen % |s'.used|];
         && id in s'.live && s'.live[id].phase == Completed && s'.live[id].buf in s'.disk
         && Next(s', Interrupt).disk == s'.disk - {s'.live[id].buf}
         && Next(s', Interrupt).live == SetPhase(s'.live, id, Finished)
         && forall h :: h in s'.live && s'.live[h].phase != Finished && h != id ==>
               s'.live[h].buf in Next(s', Interrupt).disk
  {
    InitInv(s);
    RunInv(s, steps);
    var s' := After(s, steps);
    InterruptReads(s');
    var id := s'.used[s'.usedSeen % |s'.used|];
    assert BufOk(s', id);
    forall h | h in s'.live && s'.live[h].phase != Finished && h != id
      ensures s'.live[h].buf in Next(s', Interrupt).disk {
      assert BufOk(s', h);
    }
  }

  // ---- alloc_desc, alloc3_desc and free_chain on arrays ----

  class Table {
    const free: array<bool>
    const desc: array<Desc>

    ghost predicate Valid()
      reads this
    {
      desc.Length == free.Length
    }

    /** alloc_desc: the first free descriptor, marked; -1 if there is none. */
    method AllocDesc() returns (r: int)
      requires Valid()
      modifies free
      ensures r == -1 ==> (forall i :: 0 <= i < free.Length ==> !free[i]) && free[..] == old(free[..])
      ensures r != -1 ==> 0 <= r < free.Length && old(free[r]) && free[..] == old(free[..])[r := false]
      ensures r != -1 ==> forall k :: 0 <= k < r ==> !old(free[k])
    {
      var i := 0;
      while i < free.Length
        invariant 0 <= i <= free.Length && free[..] == old(free[..]) && forall k :: 0 <= k < i ==> !free[k]
      {
        if free[i] {
          free[i] := false;
          return i;
        }
        i := i + 1;
      }
      return -1;
    }

    /** free_desc; its panics are the two preconditions. */
    method FreeDesc(i: nat)
      requires Valid() && i < free.Length && !free[i]
      modifies free, desc
      ensures free[..] == old(free[..])[i := true] && desc[..] == old(desc[..])[i := Desc(false, 0)]
    {
      desc[i] := Desc(false, 0);
      free[i] := true;
    }

    /** alloc3_desc: three different descriptors that were free, or none taken and at most two free. */
    method Alloc3() returns (ok: bool, i0: nat, i1: nat, i2: nat)
      requires Valid()
      modifies free, desc
      ensures ok ==>
                && i0 < free.Length && i1 < free.Length && i2 < free.Length && i0 != i1 && i0 != i2 && i1 != i2
                && old(free[i0] && free[i1] && free[i2])
                    && free[..] == old(free[..])[i0 := false][i1 := false][i2 := false]
                && desc[..] == old(desc[..])
      ensures !ok ==> free[..] == old(free[..])
      ensures !ok ==> forall a, b, c :: 0 <= a < b < c < free.Length ==> !(free[a] && free[b] && free[c])
    {
      ok, i0, i1, i2 := false, 0, 0, 0;
      ghost var f := free[..];
      var a := AllocDesc();
      if a < 0 { return; }
      var b := AllocDesc();
      if b < 0 {
        FreeDesc(a);
        assert free[..] == f;
        return;
      }
      var c := AllocDesc();
      if c < 0 {
        FreeDesc(a);
        FreeDesc(b);
        assert free[..] == f;
        return;
      }
      return true, a, b, c;
    }

    /** free_chain of a request's three descriptors. */
    method FreeChain(h: nat, ghost mid: nat, ghost tail: nat)
      requires Valid() && h < free.Length && mid < free.Length && tail < free.Length && h != mid && h != tail
               && mid != tail
      requires !free[h] && !free[mid] && !free[tail]
      requires desc[h] == Desc(true, mid) && desc[mid] == Desc(true, tail) && !desc[tail].more
      modifies free, desc
      ensures free[..] == old(free[..])[h := true][mid := true][tail := true]
      ensures desc[..] == old(desc[..])[h := Desc(false, 0)][mid := Desc(false, 0)][tail := Desc(false, 0)]
    {
      var i := h;
      ghost var step := 0;
      while true
        invariant 0 <= step <= 2 && i == (if step == 0 then h else if step == 1 then mid else tail)
        invariant free[..] == (if step == 0 then old(free[..]) else if step == 1 then old(free[..])[h := true]
                               else old(free[..])[h := true][mid := true])
        invariant desc[..] == (if step == 0 then old(desc[..]) else if step == 1 then old(desc[..])[h := Desc(false, 0)]
                               else old(desc[..])[h := Desc(false, 0)][mid := Desc(false, 0)])
        decreases 2 - step
      {
        var flag, nxt := desc[..][i].more, desc[..][i].next;
        assert !free[..][i];
        FreeDesc(i);
        if flag { i := nxt; } else { break; }
        step := step + 1;
      }
    }
  }
}
