/** Every step keeps what the log invariant says of the disk, and recovery restores a quiescent state. */
module LogDiskProof {
  import opened Std
  import opened BufferCache
  import opened LogMachine
  import opened LogInvariant

  lemma IndexOfNoDup(h: seq<int>, i: nat)
    requires NoDup(h) && i < |h|
    ensures IndexOf(h, h[i]) == i
  {
    assert h[i] in h;
  }

  lemma LoggedRecovers(P: Params, s: State)
    requires Shape(P, s) && AfterCommit(P, s, 0)
    ensures RecoversTo(P, s.disk, s.logical)
  {
    forall k | P.Home(k) ensures Recovered(P, s.disk, k) == s.logical[k] {
      var i := IndexOf(s.lh, k);
      if i < |s.lh| {
        assert s.lh[i] == k;
      }
    }
  }

  lemma RecoversTransfer(P: Params, disk: seq<Block>, a: seq<Block>, b: seq<Block>)
    requires RecoversTo(P, disk, a) && (SameHome(P, a, b) || SameHome(P, b, a))
    ensures RecoversTo(P, disk, b)
  {
    forall k | P.Home(k) ensures Recovered(P, disk, k) == b[k] {
      assert a[k] == b[k];
    }
  }

  /** Whatever block write the crash follows, the disk recovers to the entry of the history
      that is durable at that point. */
  lemma CrashRecovers(P: Params, s: State)
    requires LogInv(P, s)
    ensures 0 <= s.done <= Durable(s) < |s.hist|
    ensures RecoversTo(P, s.disk, s.hist[Durable(s)])
  {
    if PastCommitPoint(s) || s.rec {
      LogicalRecovers(P, s);
      RecoversTransfer(P, s.disk, s.logical, s.hist[Durable(s)]);
    } else {
      EmptyLogRecovers(P, s.disk, s.hist[s.done]);
    }
  }

  lemma LogicalRecovers(P: Params, s: State)
    requires Shape(P, s) && PhaseOk(P, s) && (PastCommitPoint(s) || (s.rec && s.phase != Normal))
    ensures RecoversTo(P, s.disk, s.logical)
  {
    match s.phase
    case Install(t) => LoggedRecovers(P, s);
    case HomeCopied(t, b) => LoggedRecovers(P, s);
    case HomeWritten(t, b) => LoggedRecovers(P, s);
    case Finish => EmptyLogRecovers(P, s.disk, s.logical);
    case _ =>
  }

  ghost predicate SameLogFields(s: State, s': State) {
    && s'.disk == s.disk && s'.lh == s.lh && s'.ops == s.ops && s'.phase == s.phase && s'.rec == s.rec
    && s'.logical == s.logical && s'.hist == s.hist && s'.done == s.done
  }

  lemma SameLogKept(P: Params, s: State, s': State)
    requires LogInv(P, s) && SameLogFields(s, s')
    ensures LogInv(P, s')
  {
  }

  lemma AbsorbKept(P: Params, s: State, s': State, p: Pid, b: nat)
    requires LogInv(P, s) && DataInv(P, s) && LogAbsorb(P, s, s', p, b)
    ensures LogInv(P, s')
  {
    assert |s.cache.bufs[b].data| == P.words by { BufWords(P, s, b); }
  }

  lemma BufWords(P: Params, s: State, b: nat)
    requires LogInv(P, s) && DataInv(P, s) && b < |s.cache.bufs| && s.cache.bufs[b].valid
    ensures |s.cache.bufs[b].data| == P.words
  {
    assert CleanOk(s, b);
    if b in s.dirty { assert DirtyOk(P, s, b); }
    if b in s.loose { assert LooseOk(P, s, b); }
  }

  lemma AppendKept(P: Params, s: State, s': State, p: Pid, b: nat)
    requires LogInv(P, s) && DataInv(P, s) && LogAppend(P, s, s', p, b)
    ensures LogInv(P, s')
  {
    BufWords(P, s, b);
    assert forall k :: k in s'.lh <==> k in s.lh || k == s.cache.bufs[b].block.value;
  }

  lemma DropLogKept(P: Params, s: State, s': State, p: Pid, b: nat)
    requires LogInv(P, s) && DataInv(P, s) && Drop(P, s, s', p, b)
    ensures LogInv(P, s')
  {
    BufWords(P, s, b);
    if s.cache.bufs[b].block.value !in s.lh {
      SameLogKept(P, s, s');
    }
  }

  lemma EndKept(P: Params, s: State, s': State, p: Pid)
    requires LogInv(P, s) && EndOp(P, s, s', p)
    ensures LogInv(P, s')
  {
  }

  lemma LogWrittenKept(P: Params, s: State, s': State)
    requires LogInv(P, s) && DataInv(P, s) && LogWritten(P, s, s')
    ensures LogInv(P, s')
  {
    var t := s.phase.t;
    assert |s.logical[s.lh[t]]| == P.words;
    assert s'.disk == s.disk[P.start + 1 + t := s.logical[s.lh[t]]];
  }

  lemma HeadWriteKept(P: Params, s: State, s': State)
    requires LogInv(P, s) && DataInv(P, s) && HeadWrite(P, s, s')
    ensures LogInv(P, s')
  {
    EntriesOfPut(s.disk[P.start], s.lh);
    assert s'.disk == s.disk[P.start := PutEntries(s.disk[P.start], s.lh)];
  }

  lemma InstallOne(P: Params, s: State, s': State, t: nat)
    requires Shape(P, s) && AfterCommit(P, s, t) && t < |s.lh|
    requires s'.disk == s.disk[s.lh[t] := s.logical[s.lh[t]]]
    requires s'.lh == s.lh && s'.logical == s.logical && s'.hist == s.hist && s'.done == s.done
    ensures Shape(P, s') && AfterCommit(P, s', t + 1)
  {
    assert P.Home(s.lh[t]);
    assert s'.disk[P.start] == s.disk[P.start];
  }

  lemma HomeWriteKept(P: Params, s: State, s': State)
    requires LogInv(P, s) && DataInv(P, s) && HomeWrite(P, s, s')
    ensures LogInv(P, s')
  {
    InstallOne(P, s, s', s.phase.t);
  }

  lemma AllInstalled(P: Params, s: State)
    requires Shape(P, s) && AfterCommit(P, s, |s.lh|)
    ensures SameHome(P, s.disk, s.logical)
  {
    forall k | P.Home(k) ensures s.disk[k] == s.logical[k] {
      if k in s.lh {
        var i :| 0 <= i < |s.lh| && s.lh[i] == k;
      }
    }
  }

  lemma ClearOk(P: Params, s: State, s': State)
    requires Shape(P, s) && AfterCommit(P, s, |s.lh|) && s'.lh == [] && s'.disk == s.disk && s'.logical == s.logical
    requires s'.hist == s.hist && s'.done == s.done
    ensures Shape(P, s') && SameHome(P, s'.disk, s'.logical) && RecoversTo(P, s'.disk, s'.logical)
  {
    LoggedRecovers(P, s);
    AllInstalled(P, s);
  }

  lemma InstallDoneKept(P: Params, s: State, s': State)
    requires Shape(P, s) && AfterCommit(P, s, |s.lh|) && InstallDone(P, s, s')
    requires s.ops == map[] && SameHome(P, s.logical, s.hist[if s.rec then s.done else |s.hist| - 1])
    ensures LogInv(P, s')
  {
    ClearOk(P, s, s');
  }

  lemma RecoversLogged(P: Params, s: State)
    requires Shape(P, s) && s.lh == Entries(s.disk[P.start]) && RecoversTo(P, s.disk, s.logical)
    ensures AfterCommit(P, s, 0)
  {
    var h := s.lh;
    forall k | P.Home(k) && k !in h ensures s.disk[k] == s.logical[k] {
      assert Recovered(P, s.disk, k) == s.logical[k];
    }
    forall i | 0 <= i < |h| ensures s.disk[P.start + 1 + i] == s.logical[h[i]] {
      IndexOfNoDup(h, i);
      assert Recovered(P, s.disk, h[i]) == s.logical[h[i]];
    }
  }

  lemma HeaderRead(P: Params, s: State, s': State, b: nat)
    requires LogInv(P, s) && DataInv(P, s) && ReadHeader(P, s, s', b)
    ensures s'.lh == Entries(s.disk[P.start])
  {
    assert !DirtyOk(P, s, b) && !LooseOk(P, s, b);
    assert CleanOk(s, b);
  }

  lemma ReadHeaderKept(P: Params, s: State, s': State, b: nat)
    requires LogInv(P, s) && ReadHeader(P, s, s', b) && s'.lh == Entries(s.disk[P.start])
    ensures LogInv(P, s')
  {
    RecoversLogged(P, s');
  }

  lemma CrashKept(P: Params, s: State, s': State)
    requires LogInv(P, s) && Crash(P, s, s')
    ensures LogInv(P, s')
  {
    CrashRecovers(P, s);
    forall k | P.Home(k) ensures s'.logical[k] == s.hist[Durable(s)][k] {
      assert Recovered(P, s.disk, k) == s'.logical[k];
    }
  }

  /** The committer moves on without writing. */
  lemma PhaseMoved(P: Params, s: State, s': State)
    requires LogInv(P, s) && s'.disk == s.disk && s'.lh == s.lh && s'.logical == s.logical && s'.hist == s.hist
    requires s'.done == s.done && s'.rec == s.rec && s'.ops == s.ops && s.phase != Normal && s'.phase != Normal
    requires Shape(P, s') ==> PhaseOk(P, s')
    ensures LogInv(P, s')
  {
  }

  lemma CopyMoves(P: Params, s: State, e: Step, s': State)
    requires LogInv(P, s) && Next(P, s, e, s') && (e.SLogCopy? || e.SLogDone? || e.SHomeCopy?)
    ensures LogInv(P, s')
  {
    if Shape(P, s') {
      match e
      case SLogCopy(b, from) => assert BeforeCommit(P, s') && Logged(P, s', s'.phase.t);
      case SLogDone => assert BeforeCommit(P, s') && Logged(P, s', |s'.lh|);
      case SHomeCopy(from, b) => assert AfterCommit(P, s', s'.phase.t);
    }
    PhaseMoved(P, s, s');
  }

  lemma HeadMoves(P: Params, s: State, e: Step, s': State)
    requires LogInv(P, s) && Next(P, s, e, s') && (e.SHeadCopy? || e.SUnpin?)
    ensures LogInv(P, s')
  {
    if Shape(P, s') && e.SUnpin? {
      assert AfterCommit(P, s', s'.phase.t);
    }
    PhaseMoved(P, s, s');
  }

  predicate TouchesLog(e: Step) {
    !(e.SHit? || e.SMiss? || e.SAcquire? || e.SFill? || e.SRelease? || e.SGiveBack? || e.SModify?)
  }

  lemma CacheStepKept(P: Params, s: State, e: Step, s': State)
    requires LogInv(P, s) && Next(P, s, e, s') && !TouchesLog(e)
    ensures LogInv(P, s')
  {
    assert SameLogFields(s, s');
    SameLogKept(P, s, s');
  }

  lemma BeginFinishKept(P: Params, s: State, e: Step, s': State)
    requires LogInv(P, s) && Next(P, s, e, s') && (e.SBegin? || e.SFinish?)
    ensures LogInv(P, s')
  {
  }

  lemma OperationKept(P: Params, s: State, e: Step, s': State)
    requires LogInv(P, s) && DataInv(P, s) && Next(P, s, e, s')
    requires e.SAbsorb? || e.SAppend? || e.SEnd? || e.SDrop?
    ensures LogInv(P, s')
  {
    match e
    case SDrop(p, b) => DropLogKept(P, s, s', p, b);
    case SAbsorb(p, b) => AbsorbKept(P, s, s', p, b);
    case SAppend(p, b) => AppendKept(P, s, s', p, b);
    case SEnd(p) => EndKept(P, s, s', p);
  }

  lemma DiskWriteKept(P: Params, s: State, e: Step, s': State)
    requires LogInv(P, s) && DataInv(P, s) && Next(P, s, e, s')
    requires e.SLogWritten? || e.SHeadWrite? || e.SHomeWrite? || e.SReadHeader? || e.SInstallDone? || e.SCrash?
    ensures LogInv(P, s')
  {
    match e
    case SLogWritten => LogWrittenKept(P, s, s');
    case SHeadWrite => HeadWriteKept(P, s, s');
    case SHomeWrite => HomeWriteKept(P, s, s');
    case SInstallDone => InstallDoneKept(P, s, s');
    case SCrash => CrashKept(P, s, s');
    case SReadHeader(b) =>
      HeaderRead(P, s, s', b);
      ReadHeaderKept(P, s, s', b);
  }

  lemma LogKept(P: Params, s: State, e: Step, s': State)
    requires LogInv(P, s) && DataInv(P, s) && Next(P, s, e, s')
    ensures LogInv(P, s')
  {
    if !TouchesLog(e) {
      CacheStepKept(P, s, e, s');
    } else if e.SBegin? || e.SFinish? {
      BeginFinishKept(P, s, e, s');
    } else if e.SAbsorb? || e.SAppend? || e.SEnd? || e.SDrop? {
      OperationKept(P, s, e, s');
    } else if e.SLogCopy? || e.SLogDone? || e.SHomeCopy? {
      CopyMoves(P, s, e, s');
    } else if e.SHeadCopy? || e.SUnpin? {
      HeadMoves(P, s, e, s');
    } else {
      DiskWriteKept(P, s, e, s');
    }
  }
}
