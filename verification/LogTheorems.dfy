/** What the log and the buffer cache promise, over every run of the machine. */
module LogTheorems {
  import opened Std
  import opened BufferCache
  import opened LogMachine
  import opened LogInvariant
  import opened LogCacheProof
  import opened LogDiskProof
  import opened LogDataProof

  lemma InitInv(P: Params, s: State)
    requires Init(P, s)
    ensures Inv(P, s)
  {
    BootKept(P, s);
    BootData(P, s);
    SpaceEmpty(P, s);
  }

  lemma InvKept(P: Params, s: State, e: Step, s': State)
    requires Inv(P, s) && Next(P, s, e, s')
    ensures Inv(P, s')
  {
    hide Next, CacheInv, DataInv, SpaceInv, PromiseInv;
    CacheKept(P, s, e, s');
    DataKept(P, s, e, s');
    LogKept(P, s, e, s');
    PromiseKept(P, s, e, s');
    SpaceKept(P, s, e, s');
  }

  /** The invariant holds in every state of every run. */
  lemma {:induction false} RunInv(P: Params, states: seq<State>, steps: seq<Step>, i: nat)
    requires Run(P, states, steps) && i < |states|
    ensures Inv(P, states[i])
  {
    hide Inv, Next;
    if i == 0 {
      InitInv(P, states[0]);
    } else {
      RunInv(P, states, steps, i - 1);
      InvKept(P, states[i - 1], steps[i - 1], states[i]);
    }
  }

  // ---- Crash atomicity ----

  /** State `j` is a moment without operations, and not in a recovery but for the first, whose logical content is
      entry `h` of the history. */
  ghost predicate Quiet(P: Params, states: seq<State>, j: nat, i: nat, h: int) {
    && j <= i < |states| && 0 <= h < |states[i].hist|
    && states[j].ops == map[] && (j == 0 || !states[j].rec)
    && SameHome(P, states[j].logical, states[i].hist[h])
  }

  ghost predicate AfterAllCommits(steps: seq<Step>, i: nat, j: nat) {
    forall m :: 0 <= m < i && m < |steps| && steps[m].SFinish? ==> m < j
  }

  ghost predicate Committing(s: State) {
    s.phase != Normal && !s.rec
  }

  /** How one step changes the history. */
  ghost predicate HistStep(P: Params, s: State, e: Step, s': State) {
    && s.done < |s.hist| && s'.done < |s'.hist|
    && match e
       case SFinish => s'.ops == map[] && !s'.rec && SameHome(P, s'.logical, s'.hist[s'.done]) && !Committing(s')
       case SEnd(p) => s'.done == s.done && s.hist <= s'.hist
                       && (Committing(s') ==> s'.ops == map[] && SameHome(P, s'.logical, s'.hist[|s'.hist| - 1]))
       case SCrash => s'.hist == s.hist && s'.done == Durable(s) && s'.rec && (PastCommitPoint(s) ==> Committing(s))
       case _ => s'.hist == s.hist && s'.done == s.done && (Committing(s') ==> Committing(s))
  }

  lemma HistSame(P: Params, s: State, e: Step, s': State)
    requires Next(P, s, e, s') && !e.SFinish? && !e.SEnd? && !e.SCrash?
    ensures s'.hist == s.hist && s'.done == s.done && (Committing(s') ==> Committing(s))
  {
    match e
    case _ => assert s'.rec == s.rec;
  }

  lemma HistStepOk(P: Params, s: State, e: Step, s': State)
    requires LogInv(P, s) && LogInv(P, s') && Next(P, s, e, s')
    ensures HistStep(P, s, e, s')
  {
    if e.SFinish? {
      assert s'.logical == s.logical;
    } else if !e.SEnd? && !e.SCrash? {
      HistSame(P, s, e, s');
    }
  }

  ghost predicate HistRun(P: Params, states: seq<State>, steps: seq<Step>) {
    && |states| == |steps| + 1
    && states[0].ops == map[] && states[0].rec && states[0].done == 0 && states[0].hist == [states[0].logical]
    && |states[0].logical| == P.size
    && forall i :: 0 <= i < |steps| ==> HistStep(P, states[i], steps[i], states[i + 1])
  }

  lemma HistAt(P: Params, states: seq<State>, steps: seq<Step>, i: nat)
    requires Run(P, states, steps) && i < |steps|
    ensures HistStep(P, states[i], steps[i], states[i + 1])
  {
    var s, e, s' := states[i], steps[i], states[i + 1];
    RunInv(P, states, steps, i);
    InvKept(P, s, e, s');
    HistStepOk(P, s, e, s');
  }

  lemma RunHist(P: Params, states: seq<State>, steps: seq<Step>)
    requires Run(P, states, steps)
    ensures HistRun(P, states, steps)
  {
    forall i | 0 <= i < |steps| ensures HistStep(P, states[i], steps[i], states[i + 1]) {
      HistAt(P, states, steps, i);
    }
  }

  /** The moments that entry `done` and the newest entry of the history record. */
  lemma {:induction false} Witness(P: Params, states: seq<State>, steps: seq<Step>, i: nat) returns (jd: nat, jl: nat)
    requires HistRun(P, states, steps) && i < |states|
    ensures Quiet(P, states, jd, i, states[i].done) && AfterAllCommits(steps, i, jd)
    ensures Committing(states[i]) ==> Quiet(P, states, jl, i, |states[i].hist| - 1) && AfterAllCommits(steps, i, jl)
  {
    if i == 0 {
      return 0, 0;
    }
    jd, jl := Witness(P, states, steps, i - 1);
    var s, e, s' := states[i - 1], steps[i - 1], states[i];
    assert HistStep(P, s, e, s');
    match e
    case SFinish => jd := i;
    case SEnd(p) => jl := i;
    case SCrash => if PastCommitPoint(s) { jd := jl; }
    case _ =>
  }

  /** Recovery of this disk gives every home block the content that the log had for it in state s: what was last
      logged for the block, or, if the block was released changed and unlogged while in the log, what it then held. */
  ghost predicate Restores(P: Params, disk: seq<Block>, s: State) {
    && RecoversTo(P, disk, s.logical) && |s.promise.content| == P.size
    && forall k: nat {:trigger Recovered(P, disk, k)} :: P.Home(k) ==>
         Recovered(P, disk, k) == if k in s.promise.mixed then s.promise.mixed[k] else s.promise.content[k]
  }

  lemma RestoresMoment(P: Params, disk: seq<Block>, s: State)
    requires RecoversTo(P, disk, s.logical) && Agrees(P, s.logical, s.promise)
    ensures Restores(P, disk, s)
  {
    forall k: nat | P.Home(k)
      ensures Recovered(P, disk, k) == if k in s.promise.mixed then s.promise.mixed[k] else s.promise.content[k]
    {
      assert s.logical[k] == Recovered(P, disk, k);
    }
  }

  /** Crash atomicity.  Whatever the interleaving, and however many crashes came before, if power fails at
      state `i`, also during a recovery, then recovery restores the home blocks to what the log had for them at
      one moment `j` when no operation was in progress and no recovery either, unless it is the very first, and
      no commit that had finished is lost. */
  lemma CrashAtomicity(P: Params, states: seq<State>, steps: seq<Step>, i: nat)
    requires Run(P, states, steps) && i < |states|
    ensures exists j :: 0 <= j <= i && states[j].ops == map[] && (j == 0 || !states[j].rec)
                        && Restores(P, states[i].disk, states[j])
                        && AfterAllCommits(steps, i, j)
  {
    hide Inv, Next, RecoversTo;
    RunHist(P, states, steps);
    var jd, jl := Witness(P, states, steps, i);
    var s := states[i];
    RunInv(P, states, steps, i);
    InvCrash(P, s);
    var j := if PastCommitPoint(s) then jl else jd;
    RecoversTransfer(P, s.disk, s.hist[Durable(s)], states[j].logical);
    RunInv(P, states, steps, j);
    InvCrash(P, states[j]);
    RestoresMoment(P, s.disk, states[j]);
  }

  ghost function HomePart(P: Params, content: seq<Block>): map<nat, Block> {
    map k: nat | k < |content| && P.Home(k) :: content[k]
  }

  ghost function RestoredPart(P: Params, disk: seq<Block>): map<nat, Block>
    requires P.start < |disk|
  {
    map k: nat | k < |disk| && P.Home(k) :: Recovered(P, disk, k)
  }

  /** What the file layer keeps from one operation to the next, a crash keeps: a property of the home blocks that
      holds whenever no operation is in progress holds of what recovery restores, wherever power fails. */
  lemma SurvivesCrash(P: Params, states: seq<State>, steps: seq<Step>, i: nat, good: map<nat, Block> -> bool)
    requires Run(P, states, steps) && i < |states|
    requires forall j :: 0 <= j <= i && states[j].ops == map[] && (j == 0 || !states[j].rec) ==>
               good(HomePart(P, states[j].logical))
    ensures P.start < |states[i].disk| == P.size && good(RestoredPart(P, states[i].disk))
  {
    hide Inv, Next, Restores;
    CrashAtomicity(P, states, steps, i);
    var j :| 0 <= j <= i && states[j].ops == map[] && (j == 0 || !states[j].rec)
        && Restores(P, states[i].disk, states[j]);
    SameParts(P, states[i].disk, states[j]);
  }

  lemma SameParts(P: Params, disk: seq<Block>, s: State)
    requires Restores(P, disk, s)
    ensures P.start < |disk| == P.size && RestoredPart(P, disk) == HomePart(P, s.logical)
  {
    assert RestoredPart(P, disk).Keys == HomePart(P, s.logical).Keys;
  }

  lemma InvCrash(P: Params, s: State)
    requires Inv(P, s)
    ensures 0 <= Durable(s) < |s.hist| && RecoversTo(P, s.disk, s.hist[Durable(s)]) && Agrees(P, s.logical, s.promise)
  {
    hide CacheInv, DataInv, SpaceInv;
    CrashRecovers(P, s);
  }

  /** Once recovery is over, the disk itself holds that content and the log is empty. */
  lemma RecoveryCompletes(P: Params, states: seq<State>, steps: seq<Step>, i: nat)
    requires Run(P, states, steps) && i < |steps| && steps[i].SFinish?
    ensures SameHome(P, states[i + 1].disk, states[i + 1].logical)
    ensures states[i + 1].lh == [] && Entries(states[i + 1].disk[P.start]) == []
    ensures var s := states[i + 1]; s.done < |s.hist| && SameHome(P, s.disk, s.hist[s.done])
  {
    hide Inv, Next;
    RunInv(P, states, steps, i);
    RunInv(P, states, steps, i + 1);
    FinishClean(P, states[i], states[i + 1]);
  }

  lemma FinishClean(P: Params, s: State, s': State)
    requires Inv(P, s) && Inv(P, s') && Next(P, s, SFinish, s')
    ensures SameHome(P, s'.disk, s'.logical) && s'.lh == [] && Entries(s'.disk[P.start]) == []
    ensures s'.done < |s'.hist| && SameHome(P, s'.disk, s'.hist[s'.done])
  {
  }

  // ---- The cache is a block store ----

  /** What a read shows: a locked, filled buffer of a home block that its holder has not changed.  If it was not
      released changed and unlogged, it holds the content that commits install: what was last logged for the block,
      or the unlogged content that the log took along.  If it was, then its block is not in the log, and what
      commits install is on disk, for the next buffer of the block.  No other buffer holds the block. */
  lemma ReadShows(P: Params, states: seq<State>, steps: seq<Step>, i: nat, p: Pid, b: nat, k: nat)
    requires Run(P, states, steps) && i < |states|
    requires P.Home(k) && !states[i].rec && b !in states[i].dirty && HoldsValid(states[i], p, b, k)
    ensures var s, c := states[i], states[i].cache.bufs[b].data;
      && k < |s.logical| == |s.disk| == |s.promise.content|
      && s.logical[k] == (if k in s.promise.mixed then s.promise.mixed[k] else s.promise.content[k])
      && (b !in s.loose ==> c == s.logical[k])
      && (b in s.loose ==> k !in Pins(s) && s.disk[k] == s.logical[k])
    ensures forall a :: a != b ==> !Caches(states[i].cache.bufs, a, k)
  {
    hide Inv, Next, Pins;
    RunInv(P, states, steps, i);
    InvRead(P, states[i], p, b, k);
  }

  lemma InvRead(P: Params, s: State, p: Pid, b: nat, k: nat)
    requires Inv(P, s) && P.Home(k) && !s.rec && b !in s.dirty && HoldsValid(s, p, b, k)
    ensures k < |s.logical| == |s.disk| == |s.promise.content|
    ensures s.logical[k] == (if k in s.promise.mixed then s.promise.mixed[k] else s.promise.content[k])
    ensures b !in s.loose ==> s.cache.bufs[b].data == s.logical[k]
    ensures b in s.loose ==> k !in Pins(s) && s.disk[k] == s.logical[k]
    ensures forall a :: a != b ==> !Caches(s.cache.bufs, a, k)
  {
    hide SpaceInv, Pins, PhaseOk;
    assert CleanOk(s, b);
    if b in s.loose {
      assert LooseOk(P, s, b);
    }
    if k !in Pins(s) {
      UnpinnedOnDisk(P, s, k);
    }
  }

  /** The cache is a block store for blocks that nobody has released changed and unlogged: a read gives what was last
      logged. */
  lemma ReadsLastLogged(P: Params, states: seq<State>, steps: seq<Step>, i: nat, p: Pid, b: nat, k: nat)
    requires Run(P, states, steps) && i < |states|
    requires P.Home(k) && !states[i].rec && b !in states[i].dirty && HoldsValid(states[i], p, b, k)
    requires b !in states[i].loose && k !in states[i].promise.mixed
    ensures k < |states[i].promise.content| && states[i].cache.bufs[b].data == states[i].promise.content[k]
    ensures forall a :: a != b ==> !Caches(states[i].cache.bufs, a, k)
  {
    ReadShows(P, states, steps, i, p, b, k);
  }

  /** A buffer released changed and unlogged keeps that content, for that block, until it is recycled, changed again or
      logged, or power fails. */
  lemma LooseStays(P: Params, s: State, e: Step, s': State, b: nat)
    requires Inv(P, s) && Next(P, s, e, s') && b in s.loose
    ensures b in s'.loose ==>
      b < |s.cache.bufs| == |s'.cache.bufs| && s'.cache.bufs[b].block == s.cache.bufs[b].block
      && s'.cache.bufs[b].data == s.cache.bufs[b].data && s'.cache.bufs[b].valid
    ensures b !in s'.loose ==> e.SCrash? || ((e.SMiss? || e.SModify? || e.SAppend?) && e.b == b)
  {
    hide CacheInv, LogInv, SpaceInv, PromiseInv, Pins;
    assert LooseOk(P, s, b);
    if e.SLogCopy? || e.SHeadCopy? || e.SHomeCopy? {
      LooseNotCopied(P, s, e, s', b);
    }
  }

  lemma LooseNotCopied(P: Params, s: State, e: Step, s': State, b: nat)
    requires Inv(P, s) && Next(P, s, e, s') && LooseOk(P, s, b) && (e.SLogCopy? || e.SHeadCopy? || e.SHomeCopy?)
    ensures e.b != b
  {
    if e.SHomeCopy? {
      assert s.lh[s.phase.t] in Pins(s);
    }
  }

  lemma UnpinnedOnDisk(P: Params, s: State, k: nat)
    requires LogInv(P, s) && !s.rec && P.Home(k) && k !in Pins(s)
    ensures s.disk[k] == s.logical[k]
  {
    if (s.phase.Install? || s.phase.HomeCopied? || s.phase.HomeWritten?) && k in s.lh {
      var i :| 0 <= i < |s.lh| && s.lh[i] == k;
      assert forall j :: s.phase.t <= j < |s.lh| ==> s.lh[j] in Pins(s);
    }
  }

  /** A logged block that is not yet installed stays in a referenced buffer: no step recycles it. */
  lemma LoggedStaysCached(P: Params, states: seq<State>, steps: seq<Step>, i: nat, k: nat)
    requires Run(P, states, steps) && i < |states| && k in Pins(states[i])
    ensures exists b: nat :: Caches(states[i].cache.bufs, b, k) && states[i].cache.bufs[b].valid
                        && states[i].cache.bufs[b].refcnt > 0
  {
    RunInv(P, states, steps, i);
    var s := states[i];
    var b :| Caches(s.cache.bufs, b, k);
    assert CleanOk(s, b);
  }

  /** bget recycles the unused buffer that was released longest ago. */
  lemma RecyclesOldest(P: Params, states: seq<State>, steps: seq<Step>, i: nat)
    requires Run(P, states, steps) && i < |steps| && steps[i].SMiss?
    ensures var c, b := states[i].cache, steps[i].b;
      && b < |c.bufs| && |c.stamps| == |c.bufs| && c.bufs[b].refcnt == 0
      && forall a :: 0 <= a < |c.bufs| && c.bufs[a].refcnt == 0 ==> c.stamps[b] <= c.stamps[a]
  {
    RunInv(P, states, steps, i);
    var c, b := states[i].cache, steps[i].b;
    assert BgetMiss(P, states[i], states[i + 1], steps[i].p, steps[i].k, b);
    VictimIsOldest(c.bufs, c.lru, c.stamps);
    forall a | 0 <= a < |c.bufs| && c.bufs[a].refcnt == 0 ensures c.stamps[b] <= c.stamps[a] {
      assert a in c.lru;
    }
  }

  /** At most one process holds a buffer. */
  lemma OneHolder(P: Params, states: seq<State>, steps: seq<Step>, i: nat, p: Pid, q: Pid, b: nat)
    requires Run(P, states, steps) && i < |states|
    requires Token(p, b, Holding) in states[i].tokens && Token(q, b, Holding) in states[i].tokens
    ensures p == q
  {
    RunInv(P, states, steps, i);
  }

  // ---- Log space ----

  /** An operation that has used fewer than MAXOPBLOCKS slots finds one free; the panic of log_write for a
      new block is unreachable.  With nothing outstanding and no commit running, begin_op goes through. */
  lemma LogSpace(P: Params, states: seq<State>, steps: seq<Step>, i: nat)
    requires Run(P, states, steps) && i < |states|
    ensures forall p :: p in states[i].ops && states[i].ops[p] < P.maxOp ==> |states[i].lh| < P.logBlocks
    ensures states[i].ops == map[] && states[i].phase == Normal ==>
              states[i].lh == [] && |states[i].lh| + (|states[i].ops| + 1) * P.maxOp <= P.logBlocks
  {
    RunInv(P, states, steps, i);
    var s := states[i];
    forall p | p in s.ops && s.ops[p] < P.maxOp ensures |s.lh| < P.logBlocks {
      SumRemove(Unused(P, s.ops), p);
    }
  }

  /** log_write panics at a full log even for a block that is in the log.  The log is full only when every outstanding
      operation has used its whole reservation. */
  lemma FullLogUsedUp(P: Params, states: seq<State>, steps: seq<Step>, i: nat)
    requires Run(P, states, steps) && i < |states|
    ensures |states[i].lh| <= P.logBlocks
    ensures |states[i].lh| == P.logBlocks ==> forall p :: p in states[i].ops ==> states[i].ops[p] == P.maxOp
  {
    hide Next;
    RunInv(P, states, steps, i);
    var s := states[i];
    forall p | p in s.ops ensures |s.lh| == P.logBlocks ==> s.ops[p] == P.maxOp {
      SumRemove(Unused(P, s.ops), p);
    }
  }
}
