/** What every reachable state of the log machine satisfies. */
module LogInvariant {
  import opened Std
  import opened BufferCache
  import opened LogMachine

  // ---- The buffer cache ----

  ghost function RefSet(tokens: set<Token>, b: nat): set<Token> {
    set t | t in tokens && t.buf == b
  }

  /** The logged blocks whose buffers still carry a pin. */
  ghost function Pins(s: State): seq<int> {
    if s.rec then []
    else if (s.phase.Install? || s.phase.HomeCopied? || s.phase.HomeWritten?) && s.phase.t <= |s.lh|
    then s.lh[s.phase.t..] else s.lh
  }

  ghost function PinCount(s: State, x: Buf): nat {
    if x.block.Some? && x.block.value in Pins(s) then 1 else 0
  }

  ghost predicate DistinctBlocks(bufs: seq<Buf>) {
    forall a, b :: 0 <= a < b < |bufs| && bufs[a].block.Some? ==> bufs[a].block != bufs[b].block
  }

  ghost predicate TokensOk(s: State) {
    && (forall t :: t in s.tokens ==> t.buf < |s.cache.bufs| && s.cache.bufs[t.buf].block.Some?)
    && (forall t :: t in s.tokens && t.kind == Holding ==> s.cache.bufs[t.buf].lock == Some(t.pid))
    && (forall b :: 0 <= b < |s.cache.bufs| && s.cache.bufs[b].lock.Some?
          ==> Token(s.cache.bufs[b].lock.value, b, Holding) in s.tokens)
  }

  /** refcnt is holders plus waiters plus pins. */
  ghost predicate RefsOk(s: State) {
    && (forall b :: 0 <= b < |s.cache.bufs|
          ==> s.cache.bufs[b].refcnt == |RefSet(s.tokens, b)| + PinCount(s, s.cache.bufs[b]))
    && (forall k: int :: k in Pins(s) ==> k >= 0 && Cached(s.cache.bufs, k))
  }

  ghost predicate CacheInv(P: Params, s: State) {
    && |s.cache.bufs| == P.nbuf && RingOk(s.cache)
    && DistinctBlocks(s.cache.bufs)
    && (forall b :: 0 <= b < |s.cache.bufs| && s.cache.bufs[b].block.Some? ==> s.cache.bufs[b].block.value < P.size)
    && TokensOk(s) && RefsOk(s)
  }

  // ---- The content of the buffers ----

  /** What a clean buffer of block k holds. */
  ghost function Current(s: State, k: nat): Block
    requires k < |s.disk| && k < |s.logical|
  {
    if k in Pins(s) then s.logical[k] else s.disk[k]
  }

  ghost predicate Copying(s: State) {
    s.phase.LogCopied? || s.phase.HeadCopied? || s.phase.HomeCopied? || s.phase.ClearCopied?
  }

  ghost predicate CopyOf(s: State, b: nat) {
    Copying(s) && s.phase.b == b
  }

  ghost predicate CleanOk(s: State, b: nat)
    requires b < |s.cache.bufs|
  {
    var x := s.cache.bufs[b];
    && (x.valid ==>
          && x.block.Some? && x.block.value < |s.disk| && x.block.value < |s.logical|
          && (b !in s.dirty && b !in s.loose ==> x.data == Current(s, x.block.value)))
    && (x.block.Some? && x.block.value in Pins(s) ==> x.valid)
  }

  ghost predicate DirtyOk(P: Params, s: State, b: nat) {
    && b < |s.cache.bufs| && s.cache.bufs[b].valid && s.cache.bufs[b].block.Some?
    && |s.cache.bufs[b].data| == P.words
    && s.cache.bufs[b].lock.Some?
    && (CopyOf(s, b) || (s.cache.bufs[b].lock.value in s.ops && P.Home(s.cache.bufs[b].block.value)))
  }

  /** A buffer released changed and unlogged: its block is not in the log. */
  ghost predicate LooseOk(P: Params, s: State, b: nat) {
    && b < |s.cache.bufs| && b !in s.dirty && s.cache.bufs[b].valid && s.cache.bufs[b].block.Some?
    && |s.cache.bufs[b].data| == P.words && P.Home(s.cache.bufs[b].block.value)
    && s.cache.bufs[b].block.value !in Pins(s) && !s.rec
  }

  /** The buffer that commit or recovery has filled and is about to write. */
  ghost predicate CopyOk(P: Params, s: State)
    requires P.start < |s.disk|
  {
    match s.phase
    case LogCopied(t, b) =>
      && b in s.dirty && t < |s.lh| && 0 <= s.lh[t] < |s.logical|
      && HoldsValid(s, s.who, b, P.start + 1 + t) && s.cache.bufs[b].data == s.logical[s.lh[t]]
    case HeadCopied(b) =>
      && b in s.dirty && 1 + |s.lh| <= |s.disk[P.start]|
      && HoldsValid(s, s.who, b, P.start) && s.cache.bufs[b].data == PutEntries(s.disk[P.start], s.lh)
    case ClearCopied(b) =>
      && b in s.dirty && 1 + |s.lh| <= |s.disk[P.start]|
      && HoldsValid(s, s.who, b, P.start) && s.cache.bufs[b].data == PutEntries(s.disk[P.start], s.lh)
    case HomeCopied(t, b) =>
      && b in s.dirty && t < |s.lh| && 0 <= s.lh[t] < |s.logical|
      && HoldsValid(s, s.who, b, s.lh[t]) && s.cache.bufs[b].data == s.logical[s.lh[t]]
    case HomeWritten(t, b) =>
      !s.rec ==> t < |s.lh| && s.lh[t] >= 0 && Caches(s.cache.bufs, b, s.lh[t])
    case _ => true
  }

  ghost predicate DataInv(P: Params, s: State) {
    && (forall b :: 0 <= b < |s.cache.bufs| ==> CleanOk(s, b))
    && (forall b :: b in s.dirty ==> DirtyOk(P, s, b))
    && (forall b :: b in s.loose ==> LooseOk(P, s, b))
    && P.start < |s.disk| && CopyOk(P, s)
  }

  // ---- The log and the disk ----

  ghost predicate Shape(P: Params, s: State) {
    && GoodDisk(P, s.disk) && Blocks(P, s.logical)
    && (forall i :: 0 <= i < |s.hist| ==> Blocks(P, s.hist[i]))
    && s.done < |s.hist|
    && GoodEntries(P, s.lh)
  }

  ghost predicate Logged(P: Params, s: State, n: nat)
    requires Shape(P, s)
  {
    && n <= |s.lh|
    && forall i :: 0 <= i < n ==> s.disk[P.start + 1 + i] == s.logical[s.lh[i]]
  }

  ghost predicate Installed(P: Params, s: State, n: nat)
    requires Shape(P, s)
  {
    && n <= |s.lh|
    && forall i :: 0 <= i < n ==> s.disk[s.lh[i]] == s.logical[s.lh[i]]
  }

  ghost predicate SameElsewhere(P: Params, s: State)
    requires Shape(P, s)
  {
    forall k :: P.Home(k) && k !in s.lh ==> s.disk[k] == s.logical[k]
  }

  ghost predicate BeforeCommit(P: Params, s: State)
    requires Shape(P, s)
  {
    && !s.rec && Entries(s.disk[P.start]) == [] && SameElsewhere(P, s) && SameHome(P, s.disk, s.hist[s.done])
  }

  ghost predicate AfterCommit(P: Params, s: State, n: nat)
    requires Shape(P, s)
  {
    Entries(s.disk[P.start]) == s.lh && SameElsewhere(P, s) && Logged(P, s, |s.lh|) && Installed(P, s, n)
  }

  ghost predicate PhaseOk(P: Params, s: State)
    requires Shape(P, s)
  {
    match s.phase
    case Normal => BeforeCommit(P, s)
    case WriteLog(t) => BeforeCommit(P, s) && Logged(P, s, t)
    case LogCopied(t, b) => BeforeCommit(P, s) && Logged(P, s, t)
    case Head => BeforeCommit(P, s) && Logged(P, s, |s.lh|)
    case HeadCopied(b) => BeforeCommit(P, s) && Logged(P, s, |s.lh|)
    case Install(t) => AfterCommit(P, s, t)
    case HomeCopied(t, b) => t < |s.lh| && AfterCommit(P, s, t)
    case HomeWritten(t, b) => AfterCommit(P, s, t + 1)
    case Clear => s.lh == [] && SameHome(P, s.disk, s.logical) && RecoversTo(P, s.disk, s.logical)
    case ClearCopied(b) => s.lh == [] && SameHome(P, s.disk, s.logical) && RecoversTo(P, s.disk, s.logical)
    case Finish => s.lh == [] && SameHome(P, s.disk, s.logical) && Entries(s.disk[P.start]) == []
    case ReadHead => s.rec && s.lh == [] && RecoversTo(P, s.disk, s.logical)
  }

  ghost predicate LogInv(P: Params, s: State) {
    && Shape(P, s) && PhaseOk(P, s)
    && (s.phase != Normal ==>
          && s.ops == map[]
          && SameHome(P, s.logical, s.hist[if s.rec then s.done else |s.hist| - 1]))
    && (s.rec ==> s.phase != Normal)
  }

  // ---- Log space ----

  ghost function Unused(P: Params, ops: map<Pid, nat>): map<Pid, nat> {
    map p | p in ops :: if ops[p] <= P.maxOp then P.maxOp - ops[p] else 0
  }

  /** The slots in use and those still promised to outstanding operations fit in the log. */
  ghost predicate SpaceInv(P: Params, s: State) {
    && (forall p :: p in s.ops ==> s.ops[p] <= P.maxOp)
    && |s.lh| + Sum(Unused(P, s.ops)) <= P.logBlocks
    && (s.ops == map[] && s.phase == Normal ==> s.lh == [])
  }

  // ---- What log_write was told ----

  /** Block by block: a mixed block has the content it was released with, every other the one last logged. */
  ghost predicate Agrees(P: Params, a: seq<Block>, pr: Promise) {
    && |a| == |pr.content| == P.size
    && forall k: nat {:trigger a[k]} :: P.Home(k) ==> a[k] == if k in pr.mixed then pr.mixed[k] else pr.content[k]
  }

  ghost predicate PromiseInv(P: Params, s: State) {
    && Agrees(P, s.logical, s.promise) && |s.promises| == |s.hist|
    && forall h :: 0 <= h < |s.hist| ==> Agrees(P, s.hist[h], s.promises[h])
  }

  ghost predicate Inv(P: Params, s: State) {
    CacheInv(P, s) && DataInv(P, s) && LogInv(P, s) && SpaceInv(P, s) && PromiseInv(P, s)
  }

  // ---- Log space is kept ----

  lemma PromiseSame(P: Params, s: State, e: Step, s': State)
    requires Next(P, s, e, s') && !e.SCrash? && !e.SEnd? && !e.SAbsorb? && !e.SAppend? && !e.SDrop?
    ensures s'.logical == s.logical && s'.promise == s.promise && s'.hist == s.hist && s'.promises == s.promises
  {
  }

  lemma PromiseKept(P: Params, s: State, e: Step, s': State)
    requires PromiseInv(P, s) && Next(P, s, e, s')
    ensures PromiseInv(P, s')
  {
    hide Next, Agrees;
    if e.SCrash? || e.SEnd? || e.SAbsorb? || e.SAppend? || e.SDrop? {
      PromiseChanged(P, s, e, s');
    } else {
      PromiseSame(P, s, e, s');
    }
  }

  lemma PromiseChanged(P: Params, s: State, e: Step, s': State)
    requires PromiseInv(P, s) && Next(P, s, e, s') && (e.SCrash? || e.SEnd? || e.SAbsorb? || e.SAppend? || e.SDrop?)
    ensures PromiseInv(P, s')
  {
  }

  lemma RoomForOne(n: nat, k: nat, m: nat, cap: nat, sum: nat)
    requires n + (k + 1) * m <= cap && sum <= k * m
    ensures n + sum + m <= cap
  {
    MulStep(k, m);
  }

  lemma UnusedBegin(P: Params, ops: map<Pid, nat>, p: Pid)
    requires p !in ops
    ensures Sum(Unused(P, ops[p := 0])) == P.maxOp + Sum(Unused(P, ops))
  {
    var u := Unused(P, ops);
    assert Unused(P, ops[p := 0]) == u[p := P.maxOp];
    SumUpdate(u, p, P.maxOp);
    assert u - {p} == u;
  }

  lemma UnusedBound(P: Params, ops: map<Pid, nat>, bound: int)
    requires bound == |ops| * P.maxOp
    ensures Sum(Unused(P, ops)) <= bound
  {
    assert Unused(P, ops).Keys == ops.Keys;
    SumBound(Unused(P, ops), P.maxOp, bound);
  }

  lemma SpaceBegin(P: Params, s: State, s': State, p: Pid)
    requires SpaceInv(P, s) && BeginOp(P, s, s', p)
    ensures SpaceInv(P, s')
  {
    UnusedBegin(P, s.ops, p);
    UnusedBound(P, s.ops, |s.ops| * P.maxOp);
    RoomForOne(|s.lh|, |s.ops|, P.maxOp, P.logBlocks, Sum(Unused(P, s.ops)));
    assert p in s'.ops;
  }

  lemma SpaceAppend(P: Params, s: State, s': State, p: Pid, b: nat)
    requires SpaceInv(P, s) && LogAppend(P, s, s', p, b)
    ensures SpaceInv(P, s')
  {
    var u := Unused(P, s.ops);
    SumRemove(u, p);
    SumUpdate(u, p, u[p] - 1);
    assert Unused(P, s'.ops) == u[p := u[p] - 1];
    assert p in s'.ops;
  }

  lemma SpaceEnd(P: Params, s: State, s': State, p: Pid)
    requires SpaceInv(P, s) && EndOp(P, s, s', p)
    ensures SpaceInv(P, s')
  {
    var u := Unused(P, s.ops);
    SumRemove(u, p);
    if s.ops.Keys != {p} {
      assert Unused(P, s'.ops) == u - {p};
      var q :| q in s.ops && q != p;
      assert q in s'.ops;
    } else {
      assert Unused(P, s'.ops) == map[];
    }
  }

  lemma SpaceEmpty(P: Params, s: State)
    requires s.ops == map[] && |s.lh| <= P.logBlocks && (s.phase == Normal ==> s.lh == [])
    ensures SpaceInv(P, s)
  {
    assert Unused(P, s.ops) == map[];
  }

  lemma NoOps(P: Params, s: State, e: Step, s': State)
    requires SpaceInv(P, s) && Next(P, s, e, s') && s.ops == map[]
    requires !e.SBegin? && !e.SAppend? && !e.SEnd? && !e.SCrash?
    requires s.phase == Finish ==> s.lh == []
    ensures s'.ops == map[] && (s'.phase == Normal ==> s'.lh == [])
  {
  }

  lemma SpaceSame(P: Params, s: State, e: Step, s': State)
    requires SpaceInv(P, s) && Next(P, s, e, s') && s.ops != map[] && !e.SBegin? && !e.SAppend? && !e.SEnd?
             && !e.SCrash?
    requires s.phase == Normal
    ensures SpaceInv(P, s')
  {
    assert s'.ops == s.ops && s'.lh == s.lh && s'.phase == s.phase;
  }

  lemma SpaceKept(P: Params, s: State, e: Step, s': State)
    requires SpaceInv(P, s) && Next(P, s, e, s')
    requires s.ops != map[] ==> s.phase == Normal
    requires s.phase == Finish ==> s.lh == []
    requires |s'.lh| <= P.logBlocks
    ensures SpaceInv(P, s')
  {
    hide SpaceInv;
    if e.SBegin? {
      SpaceBegin(P, s, s', e.p);
    } else if e.SAppend? {
      SpaceAppend(P, s, s', e.p, e.b);
    } else if e.SEnd? {
      SpaceEnd(P, s, s', e.p);
    } else if e.SCrash? {
      SpaceEmpty(P, s');
    } else if s.ops == map[] {
      NoOps(P, s, e, s');
      SpaceEmpty(P, s');
    } else {
      SpaceSame(P, s, e, s');
    }
  }
}
