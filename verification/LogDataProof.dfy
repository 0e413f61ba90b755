/** Every step keeps the buffers' content: a clean buffer holds the last logged content of its block. */
module LogDataProof {
  import opened Std
  import opened BufferCache
  import opened LogMachine
  import opened LogInvariant
  import opened LogCacheProof

  /** Only reference counts, the ring and the tokens change. */
  lemma SameContentKept(P: Params, s: State, s': State)
    requires DataInv(P, s) && |s'.cache.bufs| == |s.cache.bufs|
    requires forall b :: 0 <= b < |s.cache.bufs| ==>
                           s'.cache.bufs[b] == s.cache.bufs[b].(refcnt := s'.cache.bufs[b].refcnt)
    requires s' == s.(cache := s'.cache, tokens := s'.tokens)
    ensures DataInv(P, s')
  {
    forall b | 0 <= b < |s'.cache.bufs| ensures CleanOk(s', b) {
      assert CleanOk(s, b);
    }
    forall b | b in s'.dirty ensures DirtyOk(P, s', b) {
      assert DirtyOk(P, s, b);
    }
    forall a | a in s'.loose ensures LooseOk(P, s', a) {
      assert LooseOk(P, s, a);
    }
  }

  lemma MissData(P: Params, s: State, s': State, p: Pid, k: nat, b: nat)
    requires CacheInv(P, s) && DataInv(P, s) && BgetMiss(P, s, s', p, k, b)
    ensures DataInv(P, s')
  {
    assert s.cache.bufs[b].refcnt == 0;
    assert RefSet(s.tokens, b) == {};
    assert s.cache.bufs[b].lock.None? by {
      forall t | t in s.tokens ensures t.buf != b { assert t !in RefSet(s.tokens, b); }
    }
    assert k !in Pins(s);
    forall a | 0 <= a < |s'.cache.bufs| ensures CleanOk(s', a) {
      assert CleanOk(s, a);
    }
    forall a | a in s'.dirty ensures a != b && DirtyOk(P, s', a) {
      assert DirtyOk(P, s, a);
    }
    forall a | a in s'.loose ensures LooseOk(P, s', a) {
      assert LooseOk(P, s, a);
    }
    if s.phase.HomeWritten? && !s.rec {
      assert s.phase.b != b;
    }
  }

  lemma LockData(P: Params, s: State, s': State, b: nat, l: Option<Pid>)
    requires DataInv(P, s) && b < |s.cache.bufs| && b !in s.dirty
    requires s' == s.(cache := SetBuf(s.cache, b, s.cache.bufs[b].(lock := l)), tokens := s'.tokens)
    ensures DataInv(P, s')
  {
    forall a | 0 <= a < |s'.cache.bufs| ensures CleanOk(s', a) {
      assert CleanOk(s, a);
    }
    forall a | a in s'.dirty ensures DirtyOk(P, s', a) {
      assert DirtyOk(P, s, a);
    }
    forall a | a in s'.loose ensures LooseOk(P, s', a) {
      assert LooseOk(P, s, a);
    }
  }

  lemma FillData(P: Params, s: State, s': State, p: Pid, b: nat)
    requires CacheInv(P, s) && DataInv(P, s) && Shape(P, s) && Fill(P, s, s', p, b)
    ensures DataInv(P, s')
  {
    assert CleanOk(s, b);
    assert !DirtyOk(P, s, b);
    forall a | 0 <= a < |s'.cache.bufs| ensures CleanOk(s', a) {
      assert CleanOk(s, a);
    }
    forall a | a in s'.dirty ensures DirtyOk(P, s', a) {
      assert DirtyOk(P, s, a);
    }
    forall a | a in s'.loose ensures LooseOk(P, s', a) {
      assert LooseOk(P, s, a);
    }
  }

  lemma ModifyData(P: Params, s: State, s': State, p: Pid, b: nat, c: Block)
    requires DataInv(P, s) && s.phase == Normal && Modify(P, s, s', p, b, c)
    ensures DataInv(P, s')
  {
    forall a | 0 <= a < |s'.cache.bufs| ensures CleanOk(s', a) {
      assert CleanOk(s, a);
    }
    forall a | a in s'.dirty && a != b ensures DirtyOk(P, s', a) {
      assert DirtyOk(P, s, a);
    }
    forall a | a in s'.loose ensures LooseOk(P, s', a) {
      assert LooseOk(P, s, a);
    }
  }

  /** log_write makes the buffer's content the logical content of its block. */
  lemma LogWriteData(P: Params, s: State, s': State, b: nat)
    requires CacheInv(P, s) && DataInv(P, s) && s.phase == Normal && s'.phase == Normal && s'.who == s.who
             && s'.rec == s.rec
    requires b < |s.cache.bufs| && s.cache.bufs[b].valid && s.cache.bufs[b].block.Some?
    requires |s'.cache.bufs| == |s.cache.bufs|
    requires forall a :: 0 <= a < |s.cache.bufs| ==>
                           s'.cache.bufs[a] == s.cache.bufs[a].(refcnt := s'.cache.bufs[a].refcnt)
    requires s'.disk == s.disk && s'.ops.Keys == s.ops.Keys && s'.dirty == s.dirty - {b} && s'.loose == s.loose - {b}
    requires var k := s.cache.bufs[b].block.value;
             && k < |s.logical| && s'.logical == s.logical[k := s.cache.bufs[b].data]
             && (forall j :: j in Pins(s') <==> j in Pins(s) || j == k)
    ensures DataInv(P, s')
  {
    forall a | 0 <= a < |s'.cache.bufs| ensures CleanOk(s', a) {
      assert CleanOk(s, a);
    }
    forall a | a in s'.dirty ensures DirtyOk(P, s', a) {
      assert DirtyOk(P, s, a);
    }
    forall a | a in s'.loose ensures LooseOk(P, s', a) {
      assert LooseOk(P, s, a);
    }
  }

  /** While commit or recovery copies nothing, no buffer is dirty. */
  lemma NoDirty(P: Params, s: State)
    requires DataInv(P, s) && s.ops == map[] && !Copying(s)
    ensures s.dirty == {}
  {
    forall b: nat ensures b !in s.dirty {
      assert !DirtyOk(P, s, b);
    }
  }

  lemma EndData(P: Params, s: State, s': State, p: Pid)
    requires DataInv(P, s) && s.phase == Normal && !s.rec && EndOp(P, s, s', p)
    ensures DataInv(P, s')
  {
    forall b | b in s.dirty ensures DirtyOk(P, s, b) && s.cache.bufs[b].lock.value in s'.ops {
      assert DirtyOk(P, s, b) && !Holds(s, p, b);
    }
    forall b | 0 <= b < |s'.cache.bufs| ensures CleanOk(s', b) {
      assert CleanOk(s, b);
    }
    forall b | b in s'.dirty ensures DirtyOk(P, s', b) {
      assert DirtyOk(P, s, b);
    }
    forall a | a in s'.loose ensures LooseOk(P, s', a) {
      assert LooseOk(P, s, a);
    }
  }

  /** A buffer is filled for writing; it was clean, and nothing else is dirty. */
  lemma CopyData(P: Params, s: State, s': State, b: nat, c: Block)
    requires DataInv(P, s) && s.dirty == {} && b < |s.cache.bufs| && s.cache.bufs[b].valid && b !in s.loose
    requires s.cache.bufs[b].lock == Some(s.who) && |c| == P.words
    requires s' == s.(cache := SetBuf(s.cache, b, s.cache.bufs[b].(data := c)), dirty := {b}, phase := s'.phase)
    requires CopyOf(s', b) && CopyOk(P, s') && Pins(s') == Pins(s)
    ensures DataInv(P, s')
  {
    forall a | 0 <= a < |s'.cache.bufs| ensures CleanOk(s', a) {
      assert CleanOk(s, a);
    }
    forall a | a in s'.loose ensures LooseOk(P, s', a) {
      assert LooseOk(P, s, a);
    }
  }

  /** The filled buffer is written to its block. */
  lemma WriteData(P: Params, s: State, s': State)
    requires CacheInv(P, s) && DataInv(P, s) && Copying(s) && s.ops == map[]
    requires CanWrite(s, s.phase.b) && s.phase.b !in s.loose
    requires s' == s.(disk := Written(s, s.phase.b), dirty := s.dirty - {s.phase.b}, phase := s'.phase)
    requires !Copying(s')
    requires s'.phase.HomeWritten? ==> CopyOk(P, s')
    requires var k := s.cache.bufs[s.phase.b].block.value; k in Pins(s) ==>
               k < |s.logical| && s.cache.bufs[s.phase.b].data == s.logical[k]
    requires Pins(s') == Pins(s)
    ensures DataInv(P, s')
  {
    var b := s.phase.b;
    forall a | a in s.dirty ensures a == b {
      assert DirtyOk(P, s, a);
    }
    forall a | 0 <= a < |s'.cache.bufs| ensures CleanOk(s', a) {
      assert CleanOk(s, a);
    }
    forall a | a in s'.loose ensures LooseOk(P, s', a) {
      assert LooseOk(P, s, a);
    }
  }

  lemma UnpinData(P: Params, s: State, s': State)
    requires CacheInv(P, s) && DataInv(P, s) && s.dirty == {} && Unpin(P, s, s')
    requires !s.rec ==> s.phase.t < |s.lh| && NoDup(s.lh) && 0 <= s.lh[s.phase.t] < |s.logical|
                        && s.lh[s.phase.t] < |s.disk|
    requires !s.rec ==> s.disk[s.lh[s.phase.t]] == s.logical[s.lh[s.phase.t]]
    ensures DataInv(P, s')
  {
    if !s.rec { UnpinPins(P, s, s'); }
    forall a | 0 <= a < |s'.cache.bufs| ensures CleanOk(s', a) {
      assert CleanOk(s, a);
    }
    forall a | a in s'.loose ensures LooseOk(P, s', a) {
      assert LooseOk(P, s, a);
    }
  }

  /** No buffer, block or pin changes. */
  lemma StillData(P: Params, s: State, s': State)
    requires DataInv(P, s) && s.dirty == {} && Pins(s') == Pins(s) && !Copying(s') && !s'.phase.HomeWritten?
    requires s'.disk == s.disk && s'.cache == s.cache && s'.dirty == s.dirty && s'.logical == s.logical
    requires s'.loose == s.loose && (s'.rec ==> s.rec)
    ensures DataInv(P, s')
  {
    forall a | 0 <= a < |s'.cache.bufs| ensures CleanOk(s', a) {
      assert CleanOk(s, a);
    }
    forall a | a in s'.loose ensures LooseOk(P, s', a) {
      assert LooseOk(P, s, a);
    }
  }

  lemma BootData(P: Params, s: State)
    requires Booted(P, s) && P.start < |s.disk|
    ensures DataInv(P, s)
  {
    forall a | 0 <= a < |s.cache.bufs| ensures CleanOk(s, a) {
    }
  }

  // ---- The steps of commit and recovery ----

  lemma LogCopyData(P: Params, s: State, s': State, to: nat, from: nat)
    requires CacheInv(P, s) && DataInv(P, s) && LogInv(P, s) && LogCopy(P, s, s', to, from)
    ensures DataInv(P, s')
  {
    NoDirty(P, s);
    assert CleanOk(s, from) && P.Home(s.lh[s.phase.t]);
    assert !LooseOk(P, s, from) && !LooseOk(P, s, to);
    CopyData(P, s, s', to, s.cache.bufs[from].data);
  }

  lemma HomeCopyPins(P: Params, s: State, s': State, from: nat, to: nat)
    requires HomeCopy(P, s, s', from, to)
    ensures Pins(s') == Pins(s) && (!s.rec ==> s.lh[s.phase.t] in Pins(s))
  {
  }

  lemma HomeCopyData(P: Params, s: State, s': State, from: nat, to: nat)
    requires CacheInv(P, s) && DataInv(P, s) && LogInv(P, s) && HomeCopy(P, s, s', from, to)
    ensures DataInv(P, s')
  {
    hide Pins;
    NoDirty(P, s);
    assert CleanOk(s, from) && P.Home(s.lh[s.phase.t]);
    HomeCopyPins(P, s, s', from, to);
    LogAreaUnpinned(P, s, P.start + 1 + s.phase.t);
    assert !LooseOk(P, s, from) && !LooseOk(P, s, to);
    CopyData(P, s, s', to, s.cache.bufs[from].data);
  }

  lemma HeadCopyData(P: Params, s: State, s': State, b: nat)
    requires CacheInv(P, s) && DataInv(P, s) && LogInv(P, s) && HeadCopy(P, s, s', b)
    ensures DataInv(P, s')
  {
    NoDirty(P, s);
    assert CleanOk(s, b);
    assert P.start !in Pins(s);
    assert !LooseOk(P, s, b);
    CopyData(P, s, s', b, PutEntries(s.cache.bufs[b].data, s.lh));
  }

  lemma LogAreaUnpinned(P: Params, s: State, k: nat)
    requires LogInv(P, s) && !P.Home(k)
    ensures k !in Pins(s)
  {
  }

  lemma LogAreaWriteData(P: Params, s: State, e: Step, s': State)
    requires CacheInv(P, s) && DataInv(P, s) && LogInv(P, s) && Next(P, s, e, s') && (e.SLogWritten? || e.SHeadWrite?)
    ensures DataInv(P, s')
  {
    hide Pins;
    PinsSameWrites(P, s, e, s');
    var k := s.cache.bufs[s.phase.b].block.value;
    assert !P.Home(k);
    LogAreaUnpinned(P, s, k);
    assert !LooseOk(P, s, s.phase.b);
    WriteData(P, s, s');
  }

  lemma HomeWriteData(P: Params, s: State, s': State)
    requires CacheInv(P, s) && DataInv(P, s) && LogInv(P, s) && HomeWrite(P, s, s')
    ensures DataInv(P, s')
  {
    PinsSameWrites(P, s, SHomeWrite, s');
    assert !LooseOk(P, s, s.phase.b);
    WriteData(P, s, s');
  }

  lemma CommitData(P: Params, s: State, e: Step, s': State)
    requires CacheInv(P, s) && DataInv(P, s) && LogInv(P, s) && Next(P, s, e, s')
    requires e.SLogDone? || e.SUnpin? || e.SInstallDone? || e.SFinish? || e.SReadHeader?
    ensures DataInv(P, s')
  {
    hide Pins;
    NoDirty(P, s);
    if e.SUnpin? {
      UnpinData(P, s, s');
    } else {
      if e.SFinish? || e.SReadHeader? { PinsSameEnds(P, s, e, s'); } else { PinsSameWrites(P, s, e, s'); }
      StillData(P, s, s');
    }
  }

  lemma LogWritesData(P: Params, s: State, e: Step, s': State)
    requires CacheInv(P, s) && DataInv(P, s) && LogInv(P, s) && Next(P, s, e, s') && (e.SAbsorb? || e.SAppend?)
    ensures DataInv(P, s')
  {
    LogWriteData(P, s, s', e.b);
  }

  lemma DropData(P: Params, s: State, s': State, p: Pid, b: nat)
    requires CacheInv(P, s) && DataInv(P, s) && s.phase == Normal && !s.rec && Drop(P, s, s', p, b)
    ensures DataInv(P, s')
  {
    assert DirtyOk(P, s, b);
    forall a | 0 <= a < |s'.cache.bufs| ensures CleanOk(s', a) {
      assert CleanOk(s, a);
    }
    forall a | a in s'.dirty ensures DirtyOk(P, s', a) {
      assert DirtyOk(P, s, a);
    }
    forall a | a in s'.loose ensures LooseOk(P, s', a) {
      assert a != b ==> LooseOk(P, s, a);
    }
  }

  lemma CacheStepsData(P: Params, s: State, e: Step, s': State)
    requires CacheInv(P, s) && DataInv(P, s) && Next(P, s, e, s')
             && (e.SHit? || e.SMiss? || e.SAcquire? || e.SRelease? || e.SGiveBack?)
    ensures DataInv(P, s')
  {
    match e
    case SMiss(p, k, b) => MissData(P, s, s', p, k, b);
    case SAcquire(p, b) =>
      assert !DirtyOk(P, s, b);
      LockData(P, s, s', b, Some(p));
    case SRelease(p, b) => LockData(P, s, s', b, None);
    case _ => SameContentKept(P, s, s');
  }

  lemma OpStepsData(P: Params, s: State, e: Step, s': State)
    requires CacheInv(P, s) && DataInv(P, s) && LogInv(P, s) && Next(P, s, e, s')
    requires e.SFill? || e.SBegin? || e.SModify? || e.SEnd?
    ensures DataInv(P, s')
  {
    match e
    case SFill(p, b) => FillData(P, s, s', p, b);
    case SModify(p, b, c) => ModifyData(P, s, s', p, b, c);
    case SEnd(p) => EndData(P, s, s', p);
    case SBegin(p) =>
      forall a | 0 <= a < |s'.cache.bufs| ensures CleanOk(s', a) { assert CleanOk(s, a); }
      forall a | a in s'.dirty ensures DirtyOk(P, s', a) { assert DirtyOk(P, s, a); }
      forall a | a in s'.loose ensures LooseOk(P, s', a) { assert LooseOk(P, s, a); }
  }

  lemma CopyStepsData(P: Params, s: State, e: Step, s': State)
    requires CacheInv(P, s) && DataInv(P, s) && LogInv(P, s) && Next(P, s, e, s')
    requires e.SLogCopy? || e.SHomeCopy? || e.SHeadCopy? || e.SHomeWrite? || e.SDrop? || e.SCrash?
    ensures DataInv(P, s')
  {
    match e
    case SLogCopy(b, from) => LogCopyData(P, s, s', b, from);
    case SHomeCopy(from, b) => HomeCopyData(P, s, s', from, b);
    case SHeadCopy(b) => HeadCopyData(P, s, s', b);
    case SHomeWrite => HomeWriteData(P, s, s');
    case SDrop(p, b) => DropData(P, s, s', p, b);
    case SCrash => BootData(P, s');
  }

  lemma DataKept(P: Params, s: State, e: Step, s': State)
    requires CacheInv(P, s) && DataInv(P, s) && LogInv(P, s) && Next(P, s, e, s')
    ensures DataInv(P, s')
  {
    hide Next, CacheInv, DataInv, LogInv;
    if e.SHit? || e.SMiss? || e.SAcquire? || e.SRelease? || e.SGiveBack? {
      CacheStepsData(P, s, e, s');
    } else if e.SFill? || e.SBegin? || e.SModify? || e.SEnd? {
      OpStepsData(P, s, e, s');
    } else if e.SAbsorb? || e.SAppend? {
      LogWritesData(P, s, e, s');
    } else if e.SLogWritten? || e.SHeadWrite? {
      LogAreaWriteData(P, s, e, s');
    } else if e.SLogDone? || e.SUnpin? || e.SInstallDone? || e.SFinish? || e.SReadHeader? {
      CommitData(P, s, e, s');
    } else {
      CopyStepsData(P, s, e, s');
    }
  }
}
