/** Readers and writers of one pipe (kernel/pipe.c), interleaved at its lock: a step is one stretch under the lock, from
    acquiring it or waking up with it to giving it up or going to sleep. */
module PipeMachine {
  import opened Std
  import opened Pipe

  /** What a process does with the pipe; `asleep` on nwrite or nread. */
  datatype Thread = Idle | Writer(src: seq<Byte>, i: nat, asleep: bool) | Reader(n: nat, asleep: bool)

  /** `stored` and `delivered` are all bytes ever put in and taken out. `left` counts the bytes in the pipe that
      writers who were killed put there since readers were last woken or the pipe was last found empty. */
  datatype State = State(pipe: Pipe, threads: seq<Thread>, stored: seq<Byte>, delivered: seq<Byte>, left: nat)

  datatype Step =
    | CallWrite(t: nat, src: seq<Byte>)
    | CallRead(t: nat, n: nat)
    | RunWrite(t: nat, killAt: nat, bad: nat)
    | RunRead(t: nat, killed: bool, bad: nat)
    | Kill(t: nat)
    | CloseWrite
    | CloseRead

  function Woken(th: Thread, writers: bool): Thread {
    match th
    case Writer(src, i, _) => if writers then Writer(src, i, false) else th
    case Reader(n, _) => if writers then th else Reader(n, false)
    case Idle => th
  }

  /** wakeup(&pi->nwrite), or wakeup(&pi->nread). */
  function WakeUp(threads: seq<Thread>, writers: bool): (r: seq<Thread>)
    ensures |r| == |threads| && forall t :: 0 <= t < |threads| ==> r[t] == Woken(threads[t], writers)
  {
    seq(|threads|, t requires 0 <= t < |threads| => Woken(threads[t], writers))
  }

  /** Calls come through an open end, and an end is closed when no call is using it, as its file is still referenced. */
  predicate Enabled(s: State, step: Step) {
    match step
    case CallWrite(t, src) => t < |s.threads| && s.threads[t].Idle? && s.pipe.writeopen
    case CallRead(t, n) => t < |s.threads| && s.threads[t].Idle? && s.pipe.readopen
    case RunWrite(t, _, _) => t < |s.threads| && s.threads[t].Writer? && !s.threads[t].asleep
                              && s.threads[t].i <= |s.threads[t].src| && |s.pipe.data| > 0
    case RunRead(t, _, _) => t < |s.threads| && s.threads[t].Reader? && !s.threads[t].asleep && |s.pipe.data| > 0
    case Kill(t) => t < |s.threads|
    case CloseWrite => forall t :: 0 <= t < |s.threads| ==> !s.threads[t].Writer?
    case CloseRead => forall t :: 0 <= t < |s.threads| ==> !s.threads[t].Reader?
  }

  function Next(s: State, size: nat, step: Step): State
    requires Enabled(s, step)
  {
    match step
    case CallWrite(t, src) => s.(threads := s.threads[t := Writer(src, 0, false)])
    case CallRead(t, n) => s.(threads := s.threads[t := Reader(n, false)])
    case RunWrite(t, killAt, bad) =>
      var (src, i) := (s.threads[t].src, s.threads[t].i);
      var (q, j, e) := WriteRun(s.pipe, size, src, i, killAt, bad);
      var threads := if e == WriteKilled then s.threads else WakeUp(s.threads, false);
      s.(pipe := q,
         threads := threads[t := if e == WriteSleeps then Writer(src, j, true) else Idle],
         stored := if j > i && j <= |src| then s.stored + src[i..j] else s.stored,
         left := if e == WriteKilled && j >= i then s.left + (j - i) else 0)
    case RunRead(t, killed, bad) =>
      var (q, bytes, e) := ReadRun(s.pipe, s.threads[t].n, killed, bad);
      var threads := if e == ReadDone then WakeUp(s.threads, true) else s.threads;
      s.(pipe := q,
         threads := threads[t := if e == ReadSleeps then s.threads[t].(asleep := true) else Idle],
         delivered := s.delivered + bytes,
         left := if e == ReadSleeps || s.left < |bytes| then 0 else s.left - |bytes|)
    case Kill(t) => s.(threads := s.threads[t := Woken(Woken(s.threads[t], true), false)])
    case CloseWrite => s.(pipe := s.pipe.(writeopen := false), threads := WakeUp(s.threads, false), left := 0)
    case CloseRead => s.(pipe := s.pipe.(readopen := false), threads := WakeUp(s.threads, true))
  }

  // ---- The invariant ----

  ghost predicate StreamOk(s: State, size: nat) {
    RingOk(s.pipe, size) && s.stored == s.delivered + Content(s.pipe, size)
  }

  ghost predicate WriterOk(s: State, size: nat, t: nat)
    requires t < |s.threads| && s.threads[t].Writer?
  {
    && s.threads[t].i <= |s.threads[t].src| && s.pipe.writeopen
    && (s.threads[t].asleep ==> IsFull(s.pipe, size) && s.pipe.readopen)
  }

  ghost predicate ReaderOk(s: State, size: nat, t: nat)
    requires t < |s.threads| && s.threads[t].Reader? && RingOk(s.pipe, size)
  {
    && s.pipe.readopen
    && (s.threads[t].asleep ==> s.pipe.writeopen && Occupancy(s.pipe) == s.left)
  }

  predicate SleepingWriter(s: State, t: nat) {
    t < |s.threads| && s.threads[t].Writer? && s.threads[t].asleep
  }

  predicate SleepingReader(s: State, t: nat) {
    t < |s.threads| && s.threads[t].Reader? && s.threads[t].asleep
  }

  ghost predicate Inv(s: State, size: nat) {
    && StreamOk(s, size)
    && (forall t: nat :: t < |s.threads| && s.threads[t].Writer? ==> WriterOk(s, size, t))
    && (forall t: nat :: t < |s.threads| && s.threads[t].Reader? ==> ReaderOk(s, size, t))
    && (forall t, u :: !(SleepingWriter(s, t) && SleepingReader(s, u)))
  }

  /** An empty pipe with both ends open and nobody using it. */
  ghost predicate Init(s: State, size: nat) {
    && RingOk(s.pipe, size) && s.pipe.nread == s.pipe.nwrite && s.pipe.readopen && s.pipe.writeopen
    && s.stored == [] == s.delivered && s.left == 0 && forall t :: 0 <= t < |s.threads| ==> s.threads[t].Idle?
  }

  lemma InitInv(s: State, size: nat)
    requires Init(s, size)
    ensures Inv(s, size)
  {
    FullIs(s.pipe, size);
    assert Content(s.pipe, size) == [];
  }

  lemma RunWriteInv(s: State, size: nat, t: nat, killAt: nat, bad: nat)
    requires Inv(s, size) && Enabled(s, RunWrite(t, killAt, bad))
    ensures Inv(Next(s, size, RunWrite(t, killAt, bad)), size)
  {
    var s' := Next(s, size, RunWrite(t, killAt, bad));
    var src, i := s.threads[t].src, s.threads[t].i;
    var (q, j, e) := WriteRun(s.pipe, size, src, i, killAt, bad);
    assert WriterOk(s, size, t);
    WriteRunAppends(s.pipe, size, src, i, killAt, bad);
    FullIs(s.pipe, size);
    FullIs(q, size);
    assert Occupancy(q) == Occupancy(s.pipe) + (j - i);
    assert s.stored + src[i..j] == s.delivered + (Content(s.pipe, size) + src[i..j]);
    forall u: nat | u < |s'.threads| && s'.threads[u].Writer? ensures WriterOk(s', size, u) {
      if u != t { assert WriterOk(s, size, u); }
    }
    forall u: nat | u < |s'.threads| && s'.threads[u].Reader? ensures ReaderOk(s', size, u) {
      assert ReaderOk(s, size, u);
    }
    forall a, b ensures !(SleepingWriter(s', a) && SleepingReader(s', b)) {
      assert !(SleepingWriter(s, a) && SleepingReader(s, b));
    }
  }

  lemma RunReadInv(s: State, size: nat, t: nat, killed: bool, bad: nat)
    requires Inv(s, size) && Enabled(s, RunRead(t, killed, bad))
    ensures Inv(Next(s, size, RunRead(t, killed, bad)), size)
  {
    var s' := Next(s, size, RunRead(t, killed, bad));
    assert |s.pipe.data| > 0;
    var (q, bytes, e) := ReadRun(s.pipe, s.threads[t].n, killed, bad);
    ReadRunTakes(s.pipe, size, s.threads[t].n, killed, bad);
    assert ReaderOk(s, size, t);
    FullIs(s.pipe, size);
    hide ReadRun, Content, RingOk, Occupancy, IsFull;
    assert s.delivered + (bytes + Content(q, size)) == s.delivered + bytes + Content(q, size);
    forall u: nat | u < |s'.threads| && s'.threads[u].Writer? ensures WriterOk(s', size, u) {
      assert WriterOk(s, size, u);
    }
    forall u: nat | u < |s'.threads| && s'.threads[u].Reader? ensures ReaderOk(s', size, u) {
      if u != t { assert ReaderOk(s, size, u); }
    }
    forall a, b ensures !(SleepingWriter(s', a) && SleepingReader(s', b)) {
      assert !(SleepingWriter(s, a) && SleepingReader(s, b));
    }
  }

  lemma OtherStepsInv(s: State, size: nat, step: Step)
    requires Inv(s, size) && Enabled(s, step) && !step.RunWrite? && !step.RunRead?
    ensures Inv(Next(s, size, step), size)
  {
    var s' := Next(s, size, step);
    assert Content(s'.pipe, size) == Content(s.pipe, size);
    forall u: nat | u < |s'.threads| && s'.threads[u].Writer? ensures WriterOk(s', size, u) {
      if s.threads[u].Writer? { assert WriterOk(s, size, u); }
    }
    forall u: nat | u < |s'.threads| && s'.threads[u].Reader? ensures ReaderOk(s', size, u) {
      if s.threads[u].Reader? { assert ReaderOk(s, size, u); }
    }
    forall a, b ensures !(SleepingWriter(s', a) && SleepingReader(s', b)) {
      assert !(SleepingWriter(s, a) && SleepingReader(s, b));
    }
  }

  lemma StepInv(s: State, size: nat, step: Step)
    requires Inv(s, size) && Enabled(s, step)
    ensures Inv(Next(s, size, step), size)
  {
    match step
    case RunWrite(t, killAt, bad) => RunWriteInv(s, size, t, killAt, bad);
    case RunRead(t, killed, bad) => RunReadInv(s, size, t, killed, bad);
    case _ => OtherStepsInv(s, size, step);
  }

  // ---- Runs ----

  /** A run of enabled steps. */
  ghost predicate IsRun(s: State, size: nat, steps: seq<Step>)
    decreases |steps|
  {
    steps == [] || (Enabled(s, steps[0]) && IsRun(Next(s, size, steps[0]), size, steps[1..]))
  }

  ghost function After(s: State, size: nat, steps: seq<Step>): State
    requires IsRun(s, size, steps)
    decreases |steps|
  {
    if steps == [] then s else After(Next(s, size, steps[0]), size, steps[1..])
  }

  lemma {:induction false} RunInv(s: State, size: nat, steps: seq<Step>)
    requires Inv(s, size) && IsRun(s, size, steps)
    ensures Inv(After(s, size, steps), size)
    decreases |steps|
  {
    if steps != [] {
      StepInv(s, size, steps[0]);
      RunInv(Next(s, size, steps[0]), size, steps[1..]);
    }
  }

  /** Over every interleaving: what has been delivered is a prefix of what has been stored and the rest is in the
      pipe, at most `size` bytes, wherever the counters stand; a sleeping writer means a full pipe with a reader's
      end; no reader and writer sleep at once; and a pipe with a sleeping reader is open for writing and holds just
      the bytes that killed writers left, so none if no writer was killed in its write. */
  lemma Stream(s: State, size: nat, steps: seq<Step>)
    requires Init(s, size) && IsRun(s, size, steps)
    ensures var s' := After(s, size, steps);
      && RingOk(s'.pipe, size) && Occupancy(s'.pipe) <= size
      && s'.delivered <= s'.stored && s'.stored[|s'.delivered|..] == Content(s'.pipe, size)
      && (forall t :: SleepingWriter(s', t) ==> Occupancy(s'.pipe) == size && s'.pipe.readopen)
      && (forall t :: SleepingReader(s', t) ==> s'.pipe.writeopen && Occupancy(s'.pipe) == s'.left)
      && (forall t, u :: !(SleepingWriter(s', t) && SleepingReader(s', u)))
  {
    InitInv(s, size);
    RunInv(s, size, steps);
    var s' := After(s, size, steps);
    FullIs(s'.pipe, size);
    forall t | SleepingWriter(s', t) ensures Occupancy(s'.pipe) == size && s'.pipe.readopen {
      assert WriterOk(s', size, t);
    }
    forall t | SleepingReader(s', t) ensures s'.pipe.writeopen && Occupancy(s'.pipe) == s'.left {
      assert ReaderOk(s', size, t);
    }
  }

  /** What piperead gives, over every interleaving: on an empty pipe open for writing it sleeps, or returns if killed,
      and takes nothing; otherwise it takes from the front as many bytes as were asked for, are there and can be
      written, no more and no fewer, and every writer that slept is awake. */
  lemma ReadTakes(s: State, size: nat, steps: seq<Step>, t: nat, killed: bool, bad: nat)
    requires Init(s, size) && IsRun(s, size, steps) && Enabled(After(s, size, steps), RunRead(t, killed, bad))
    ensures var s1 := After(s, size, steps); var s2 := Next(s1, size, RunRead(t, killed, bad));
      && RingOk(s1.pipe, size) && RingOk(s2.pipe, size) && |s2.threads| == |s1.threads|
      && var c := Content(s1.pipe, size);
         if c == [] && s1.pipe.writeopen then
           && s2.pipe == s1.pipe && s2.delivered == s1.delivered
           && s2.threads[t] == if killed then Idle else Reader(s1.threads[t].n, true)
         else
           var k := Least(s1.threads[t].n, bad, |c|);
           && s2.delivered == s1.delivered + c[..k] && Content(s2.pipe, size) == c[k..] && s2.threads[t] == Idle
           && forall u :: !SleepingWriter(s2, u)
  {
    InitInv(s, size);
    RunInv(s, size, steps);
    var s1 := After(s, size, steps);
    ReadRunTakes(s1.pipe, size, s1.threads[t].n, killed, bad);
    hide ReadRun, Content, RingOk, Occupancy, IsFull;
    var s2 := Next(s1, size, RunRead(t, killed, bad));
    var c := Content(s1.pipe, size);
    var (q, bytes, e) := ReadRun(s1.pipe, s1.threads[t].n, killed, bad);
    assert c[..|bytes|] == bytes && c[|bytes|..] == Content(q, size);
    assert s1.delivered + [] == s1.delivered;
  }

  /** A write has stored src[i..j] and ended so. */
  ghost predicate Stored(s: State, s': State, size: nat, t: nat, j: nat, e: WriteEnd)
    requires t < |s.threads| && s.threads[t].Writer? && RingOk(s.pipe, size) && RingOk(s'.pipe, size)
  {
    && |s'.threads| == |s.threads| && s.threads[t].i <= j <= |s.threads[t].src|
    && (var bytes := s.threads[t].src[s.threads[t].i..j];
        s'.stored == s.stored + bytes && Content(s'.pipe, size) == Content(s.pipe, size) + bytes)
    && s'.threads[t] == (if e == WriteSleeps then Writer(s.threads[t].src, j, true) else Idle)
    && (e != WriteKilled ==> forall u :: !SleepingReader(s', u))
  }

  /** What pipewrite stores, over every interleaving: the bytes up to the first that it is not to write.  It sleeps
      exactly at a full pipe with bytes left; and unless it gives up, every reader that slept is awake. */
  lemma WriteStores(s: State, size: nat, steps: seq<Step>, t: nat, killAt: nat, bad: nat) returns (j: nat, e: WriteEnd)
    requires Init(s, size) && IsRun(s, size, steps) && Enabled(After(s, size, steps), RunWrite(t, killAt, bad))
    ensures var s1 := After(s, size, steps); var s2 := Next(s1, size, RunWrite(t, killAt, bad));
      && RingOk(s1.pipe, size) && RingOk(s2.pipe, size) && Occupancy(s1.pipe) <= size
      && WriteStops(s1.threads[t].src, s1.threads[t].i, s1.pipe.readopen, size - Occupancy(s1.pipe), killAt, bad, j, e)
      && Stored(s1, s2, size, t, j, e)
  {
    InitInv(s, size);
    RunInv(s, size, steps);
    var s1 := After(s, size, steps);
    assert |s1.pipe.data| > 0;
    var src, i := s1.threads[t].src, s1.threads[t].i;
    j, e := WriteRun(s1.pipe, size, src, i, killAt, bad).1, WriteRun(s1.pipe, size, src, i, killAt, bad).2;
    WriteRunStops(s1.pipe, size, src, i, killAt, bad);
    StepStores(s1, size, t, killAt, bad);
  }

  lemma StepStores(s: State, size: nat, t: nat, killAt: nat, bad: nat)
    requires Enabled(s, RunWrite(t, killAt, bad)) && RingOk(s.pipe, size)
    ensures var s' := Next(s, size, RunWrite(t, killAt, bad));
      var (q, j, e) := WriteRun(s.pipe, size, s.threads[t].src, s.threads[t].i, killAt, bad);
      RingOk(s'.pipe, size) && Stored(s, s', size, t, j, e)
  {
    hide WriteRun, Content, RingOk, Occupancy, IsFull;
    var src, i := s.threads[t].src, s.threads[t].i;
    WriteRunAppends(s.pipe, size, src, i, killAt, bad);
    assert s.stored + src[i..i] == s.stored;
  }

  lemma RunOne(s: State, size: nat, step: Step, rest: seq<Step>)
    requires Enabled(s, step) && IsRun(Next(s, size, step), size, rest)
    ensures IsRun(s, size, [step] + rest) && After(s, size, [step] + rest) == After(Next(s, size, step), size, rest)
  {
    var steps := [step] + rest;
    assert steps[0] == step && steps[1..] == rest;
  }

  /** A writer killed between two bytes returns without wakeup(&pi->nread): a reader that slept on the empty pipe then
      sleeps on a pipe with a byte in it. */
  lemma KilledWriterStrandsReader(size: nat)
    requires 1 < size < U32 && U32 % size == 0
    ensures exists s, steps ::
              && Init(s, size) && IsRun(s, size, steps)
              && SleepingReader(After(s, size, steps), 0) && RingOk(After(s, size, steps).pipe, size)
                  && Occupancy(After(s, size, steps).pipe) == 1
  {
    var p0 := Pipe(seq(size, _ => 0), 0, 0, true, true);
    var s0 := State(p0, [Idle, Idle], [], [], 0);
    var c0, c1, c2, c3 := CallRead(0, 1), RunRead(0, false, 1), CallWrite(1, [7, 8]), RunWrite(1, 1, 2);
    var s1 := Next(s0, size, c0);
    var s2 := Next(s1, size, c1);
    assert s2 == s1.(threads := [Reader(1, true), Idle]) by { assert s1.threads == [Reader(1, false), Idle]; }
    var s3 := Next(s2, size, c2);
    assert s3.threads == [Reader(1, true), Writer([7, 8], 0, false)];
    assert WriteRun(Put(p0, 7), size, [7, 8], 1, 1, 2) == (Put(p0, 7), 1, WriteKilled);
    assert WriteRun(p0, size, [7, 8], 0, 1, 2) == (Put(p0, 7), 1, WriteKilled);
    var s4 := Next(s3, size, c3);
    assert s4.threads == [Reader(1, true), Idle] && s4.pipe == Put(p0, 7);
    assert IsRun(s4, size, []) && After(s4, size, []) == s4;
    RunOne(s3, size, c3, []);
    RunOne(s2, size, c2, [c3] + []);
    RunOne(s1, size, c1, [c2] + ([c3] + []));
    RunOne(s0, size, c0, [c1] + ([c2] + ([c3] + [])));
    assert Init(s0, size);
    var steps := [c0] + ([c1] + ([c2] + ([c3] + [])));
    assert IsRun(s0, size, steps) && After(s0, size, steps) == s4;
    assert SleepingReader(s4, 0) && RingOk(s4.pipe, size) && Occupancy(s4.pipe) == 1;
  }
}
