/** Commit and recovery come to an end: the process that runs one always has a next step once it holds the buffers that
    step works on, and how many steps are left is known. */
module LogProgress {
  import opened Std
  import opened BufferCache
  import opened LogMachine
  import opened LogInvariant
  import opened LogDataProof
  import opened LogDiskProof
  import opened LogTheorems

  // ---- The next step ----

  ghost predicate HasBlock(s: State, k: int) {
    exists b: nat :: HoldsValid(s, s.who, b, k)
  }

  /** The committer holds the buffers that its next step copies from and to, or unpins. */
  ghost predicate HasBuffers(P: Params, s: State) {
    match s.phase
    case WriteLog(t) => t < |s.lh| ==> HasBlock(s, P.start + 1 + t) && HasBlock(s, s.lh[t])
    case Install(t) => t < |s.lh| ==> HasBlock(s, P.start + 1 + t) && HasBlock(s, s.lh[t])
    case HomeWritten(_, b) => Holds(s, s.who, b)
    case Normal => false
    case Head => HasBlock(s, P.start)
    case Clear => HasBlock(s, P.start)
    case ReadHead => HasBlock(s, P.start)
    case _ => true
  }

  /** How many steps of its own a commit or a recovery still takes in this phase: with n blocks in the log in memory,
      and h in the header on disk. */
  ghost function LeftIn(phase: Phase, n: nat, h: nat): int {
    match phase
    case Normal => 0
    case Finish => 1
    case ClearCopied(_) => 2
    case Clear => 3
    case Install(t) => 3 * (n - t) + 4
    case HomeCopied(t, _) => 3 * (n - t) + 3
    case HomeWritten(t, _) => 3 * (n - t) + 2
    case HeadCopied(_) => 3 * n + 5
    case Head => 3 * n + 6
    case WriteLog(t) => 2 * (n - t) + 3 * n + 7
    case LogCopied(t, _) => 2 * (n - t) + 3 * n + 6
    case ReadHead => 3 * h + 5
  }

  ghost function Left(P: Params, s: State): int {
    LeftIn(s.phase, |s.lh|, if P.start < |s.disk| then |Entries(s.disk[P.start])| else 0)
  }

  lemma HeaderIsDisk(P: Params, s: State, b: nat)
    requires Inv(P, s) && HoldsValid(s, s.who, b, P.start) && !Copying(s)
    ensures s.cache.bufs[b].data == s.disk[P.start] && |s.disk[P.start]| == P.words
  {
    assert CleanOk(s, b);
    if b in s.dirty { assert DirtyOk(P, s, b); }
    if b in s.loose { assert LooseOk(P, s, b); }
    LogAreaUnpinned(P, s, P.start);
  }

  /** What the steps of a commit ask for, but for the buffers. */
  lemma Bounds(P: Params, s: State)
    requires Inv(P, s)
    ensures |s.disk| == P.size && P.start + P.logBlocks < P.size && |s.lh| + 1 < P.words && |s.lh| <= P.logBlocks
    ensures forall i :: 0 <= i < |s.lh| ==> 0 <= s.lh[i] < P.size
    ensures s.phase.WriteLog? || s.phase.Install? ==> s.phase.t <= |s.lh|
    ensures s.phase.LogCopied? || s.phase.HomeCopied? ==> s.phase.t < |s.lh|
    ensures s.phase.Clear? || s.phase.ClearCopied? || s.phase.Finish? ==> s.lh == []
    ensures s.phase.HomeWritten? ==> s.phase.t < |s.lh|
    ensures s.hist != [] && (Copying(s) ==> CanWrite(s, s.phase.b)) && (s.phase != Normal ==> s.ops == map[])
  {
    hide RecoversTo, SameHome, SameElsewhere, CacheInv, PromiseInv, SpaceInv, Recovered;
  }

  lemma LogCopyGoes(P: Params, s: State) returns (e: Step, s': State)
    requires s.phase.WriteLog? && s.phase.t < |s.lh| && HasBuffers(P, s)
    ensures Next(P, s, e, s') && !e.SCrash? && s'.phase != s.phase
  {
    var to: nat :| HoldsValid(s, s.who, to, P.start + 1 + s.phase.t);
    var from: nat :| HoldsValid(s, s.who, from, s.lh[s.phase.t]);
    e, s' := SLogCopy(to, from),
      s.(cache := SetBuf(s.cache, to, s.cache.bufs[to].(data := s.cache.bufs[from].data)),
         dirty := s.dirty + {to}, phase := LogCopied(s.phase.t, to));
  }

  lemma HomeCopyGoes(P: Params, s: State) returns (e: Step, s': State)
    requires s.phase.Install? && s.phase.t < |s.lh| && HasBuffers(P, s)
    ensures Next(P, s, e, s') && !e.SCrash? && s'.phase != s.phase
  {
    var from: nat :| HoldsValid(s, s.who, from, P.start + 1 + s.phase.t);
    var to: nat :| HoldsValid(s, s.who, to, s.lh[s.phase.t]);
    e, s' := SHomeCopy(from, to),
      s.(cache := SetBuf(s.cache, to, s.cache.bufs[to].(data := s.cache.bufs[from].data)),
         dirty := s.dirty + {to}, phase := HomeCopied(s.phase.t, to));
  }

  lemma WriteGoes(P: Params, s: State) returns (e: Step, s': State)
    requires Copying(s) && CanWrite(s, s.phase.b)
    ensures Next(P, s, e, s') && !e.SCrash? && s'.phase != s.phase
  {
    var b := s.phase.b;
    var t := s.(disk := Written(s, b), dirty := s.dirty - {b});
    match s.phase
    case LogCopied(k, _) => e, s' := SLogWritten, t.(phase := WriteLog(k + 1));
    case HeadCopied(_) => e, s' := SHeadWrite, t.(phase := Install(0));
    case HomeCopied(k, _) => e, s' := SHomeWrite, t.(phase := HomeWritten(k, b));
    case ClearCopied(_) => e, s' := SHeadWrite, t.(phase := Finish);
  }

  lemma UnpinGoes(P: Params, s: State) returns (e: Step, s': State)
    requires s.phase.HomeWritten? && Holds(s, s.who, s.phase.b) && s.cache.bufs[s.phase.b].refcnt > 0
    ensures Next(P, s, e, s') && !e.SCrash? && s'.phase != s.phase
  {
    var b := s.phase.b;
    e, s' := SUnpin,
      s.(phase := Install(s.phase.t + 1),
         cache := if s.rec then s.cache
                  else SetBuf(s.cache, b, s.cache.bufs[b].(refcnt := s.cache.bufs[b].refcnt - 1)));
  }

  lemma HeadCopyGoes(P: Params, s: State, b: nat) returns (e: Step, s': State)
    requires (s.phase.Head? || s.phase.Clear?) && HoldsValid(s, s.who, b, P.start)
    requires 1 + |s.lh| <= |s.cache.bufs[b].data|
    ensures Next(P, s, e, s') && !e.SCrash? && s'.phase != s.phase
  {
    e, s' := SHeadCopy(b),
      s.(cache := SetBuf(s.cache, b, s.cache.bufs[b].(data := PutEntries(s.cache.bufs[b].data, s.lh))),
         dirty := s.dirty + {b}, phase := if s.phase.Head? then HeadCopied(b) else ClearCopied(b));
  }

  lemma HeadGoes(P: Params, s: State) returns (e: Step, s': State)
    requires Inv(P, s) && HasBuffers(P, s) && (s.phase.Head? || s.phase.Clear? || s.phase.ReadHead?)
    ensures Next(P, s, e, s') && !e.SCrash? && s'.phase != s.phase
  {
    hide Inv, Next;
    Bounds(P, s);
    var b: nat :| HoldsValid(s, s.who, b, P.start);
    HeaderIsDisk(P, s, b);
    if s.phase.ReadHead? {
      e, s' := SReadHeader(b), s.(lh := Entries(s.cache.bufs[b].data), phase := Install(0));
      HeaderGoes(P, s, b);
    } else {
      e, s' := HeadCopyGoes(P, s, b);
    }
  }

  lemma HeaderGoes(P: Params, s: State, b: nat)
    requires s.phase.ReadHead? && HoldsValid(s, s.who, b, P.start)
    ensures Next(P, s, SReadHeader(b), s.(lh := Entries(s.cache.bufs[b].data), phase := Install(0)))
  {
  }

  lemma RestGoes(P: Params, s: State) returns (e: Step, s': State)
    requires s.hist != []
    requires s.phase.Finish? || ((s.phase.WriteLog? || s.phase.Install?) && s.phase.t == |s.lh|)
    ensures Next(P, s, e, s') && !e.SCrash? && s'.phase != s.phase
  {
    match s.phase
    case Finish => e, s' := SFinish, s.(phase := Normal, rec := false, done := if s.rec then s.done else |s.hist| - 1);
    case WriteLog(_) => e, s' := SLogDone, s.(phase := Head);
    case Install(_) => e, s' := SInstallDone, s.(lh := [], phase := Clear);
  }

  lemma HeldHasRef(P: Params, s: State, b: nat)
    requires Inv(P, s) && Holds(s, s.who, b)
    ensures s.cache.bufs[b].refcnt > 0
  {
    assert Token(s.who, b, Holding) in RefSet(s.tokens, b);
  }

  // ---- The steps that are left ----

  /** Whatever else happens, what is left of a commit or a recovery goes down by one when its process takes a step,
      stays as it is when another does, and is used up when it is over. */
  lemma LeftGoesDown(P: Params, s: State, e: Step, s': State)
    requires Inv(P, s) && Next(P, s, e, s') && s.phase != Normal && !e.SCrash?
    ensures Left(P, s') == Left(P, s) - (if s'.phase == s.phase then 0 else 1) && Left(P, s') >= 0
    ensures Left(P, s') == 0 <==> s'.phase == Normal
  {
    hide Inv, Next, Entries;
    Bounds(P, s);
    if e.SReadHeader? {
      ReadMoves(P, s, e.b, s');
    } else if e.SHit? || e.SMiss? || e.SAcquire? || e.SFill? || e.SRelease? || e.SGiveBack? {
      OthersStay(P, s, e, s');
    } else {
      Moves(P, s, e, s');
    }
  }

  lemma ReadMoves(P: Params, s: State, b: nat, s': State)
    requires Inv(P, s) && Next(P, s, SReadHeader(b), s')
    ensures s.phase.ReadHead? && s'.phase == Install(0) && s'.lh == Entries(s.disk[P.start])
  {
    HeaderRead(P, s, s', b);
  }

  /** What the other steps of a commit or a recovery do to its phase. */
  lemma Moves(P: Params, s: State, e: Step, s': State)
    requires Next(P, s, e, s') && s.phase != Normal && s.ops == map[]
    requires !e.SCrash? && !e.SReadHeader?
    requires !e.SHit? && !e.SMiss? && !e.SAcquire? && !e.SFill? && !e.SRelease? && !e.SGiveBack?
    ensures s'.lh == if s.phase == Install(|s.lh|) then [] else s.lh
    ensures match s.phase
      case WriteLog(t) => if t < |s.lh| then s'.phase.LogCopied? && s'.phase.t == t else s'.phase == Head
      case LogCopied(t, _) => s'.phase == WriteLog(t + 1)
      case Head => s'.phase.HeadCopied?
      case HeadCopied(_) => s'.phase == Install(0)
      case Install(t) => if t < |s.lh| then s'.phase.HomeCopied? && s'.phase.t == t else s'.phase == Clear
      case HomeCopied(t, _) => s'.phase.HomeWritten? && s'.phase.t == t
      case HomeWritten(t, _) => s'.phase == Install(t + 1)
      case Clear => s'.phase.ClearCopied?
      case ClearCopied(_) => s'.phase == Finish
      case Finish => s'.phase == Normal
      case _ => false
  {
  }

  lemma OthersStay(P: Params, s: State, e: Step, s': State)
    requires Next(P, s, e, s')
    requires e.SHit? || e.SMiss? || e.SAcquire? || e.SFill? || e.SRelease? || e.SGiveBack?
    ensures s'.phase == s.phase && s'.lh == s.lh && s'.disk == s.disk
  {
  }

  /** In every reachable state of a commit or a recovery, a process that holds the buffers for its next step can take
      that step, and one step fewer is left. */
  lemma GoesOn(P: Params, states: seq<State>, steps: seq<Step>, i: nat) returns (e: Step, s': State)
    requires Run(P, states, steps) && i < |states| && HasBuffers(P, states[i])
    ensures Next(P, states[i], e, s') && !e.SCrash? && Left(P, s') == Left(P, states[i]) - 1
  {
    RunInv(P, states, steps, i);
    hide Next, Inv, Run, Left;
    var s := states[i];
    Bounds(P, s);
    match s.phase {
      case WriteLog(t) => if t < |s.lh| { e, s' := LogCopyGoes(P, s); } else { e, s' := RestGoes(P, s); }
      case Install(t) => if t < |s.lh| { e, s' := HomeCopyGoes(P, s); } else { e, s' := RestGoes(P, s); }
      case Finish => e, s' := RestGoes(P, s);
      case HomeWritten(_, b) =>
        HeldHasRef(P, s, b);
        e, s' := UnpinGoes(P, s);
      case Head => e, s' := HeadGoes(P, s);
      case Clear => e, s' := HeadGoes(P, s);
      case ReadHead => e, s' := HeadGoes(P, s);
      case _ => e, s' := WriteGoes(P, s);
    }
    LeftGoesDown(P, s, e, s');
  }

  /** The steps from state i to state j that are steps of the commit or the recovery. */
  ghost function Own(states: seq<State>, i: nat, j: nat): nat
    requires i <= j < |states|
  {
    if i == j then 0 else Own(states, i, j - 1) + (if states[j].phase == states[j - 1].phase then 0 else 1)
  }

  /** However it is interleaved with other processes, between two states of a commit or a recovery without a crash lie
      exactly the steps that the first has left and the second has not: from the end of the last operation to the end of
      the commit of n blocks, 5n + 7. */
  lemma {:induction false} CommitTakes(P: Params, states: seq<State>, steps: seq<Step>, i: nat, j: nat)
    requires Run(P, states, steps) && i <= j < |states|
    requires forall k :: i <= k < j ==> states[k].phase != Normal && !steps[k].SCrash?
    ensures Own(states, i, j) == Left(P, states[i]) - Left(P, states[j])
    ensures states[i].phase == WriteLog(0) && states[j].phase == Normal ==> Own(states, i, j) == 5 * |states[i].lh| + 7
  {
    hide Next, Inv, Init;
    if i < j {
      CommitTakes(P, states, steps, i, j - 1);
      RunInv(P, states, steps, j - 1);
      LeftGoesDown(P, states[j - 1], steps[j - 1], states[j]);
    }
  }
}
