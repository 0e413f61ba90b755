/** The redo log of kernel/log.c over the buffer cache of kernel/bio.c, as a state machine.

    A step is what one process does while it holds one spinlock, or one block transfer.
    Any process may step at any time, and a crash may come between any two steps. */
module LogMachine {
  import opened Std
  import opened BufferCache

  /** The constants of kernel/param.h and the superblock: blocks on disk, first log block, LOGBLOCKS,
      MAXOPBLOCKS, words in a block and NBUF. */
  datatype Params = Params(size: nat, start: nat, logBlocks: nat, maxOp: nat, words: nat, nbuf: nat) {
    ghost predicate Ok() {
      start + logBlocks < size && logBlocks + 1 < words && maxOp <= logBlocks
    }

    /** A block outside the on-disk log. */
    ghost predicate Home(k: int) {
      0 <= k < size && !(start <= k <= start + logBlocks)
    }
  }

  /** A reference to a buffer: the process waits for the sleep lock, holds it, or has released it
      but not yet given its reference back. */
  datatype Kind = Waiting | Holding | Leaving
  datatype Token = Token(pid: Pid, buf: nat, kind: Kind)

  /** Where commit() or recover_from_log() stands. */
  datatype Phase =
    | ReadHead
    | Normal
    | WriteLog(t: nat)
    | LogCopied(t: nat, b: nat)
    | Head
    | HeadCopied(b: nat)
    | Install(t: nat)
    | HomeCopied(t: nat, b: nat)
    | HomeWritten(t: nat, b: nat)
    | Clear
    | ClearCopied(b: nat)
    | Finish

  /** `lh` is the in-memory log header.  `ops` maps each process between begin_op and end_op to the
      number of slots it added; `outstanding` is its size.  `dirty` holds the buffers changed by the
      process that has them locked.
      History: `logical` is the content of every block that commits have installed or will install,
      `hist` its value at every moment when the last outstanding operation ended, and `done` the newest
      entry of `hist` whose commit finished.  `loose` holds the buffers that were released changed and
      not logged.  `promise` is what log_write was told, `promises` its value at the moments of `hist`. */
  datatype State = State(
    disk: seq<Block>, cache: Cache, tokens: set<Token>, dirty: set<nat>,
    lh: seq<int>, ops: map<Pid, nat>, phase: Phase, rec: bool, who: Pid,
    logical: seq<Block>, hist: seq<seq<Block>>, done: nat,
    loose: set<nat>, promise: Promise, promises: seq<Promise>)

  /** `content` is every block as last logged.  `mixed` are the blocks that were changed after that and
      released without log_write while they were in the log, and their content then. */
  datatype Promise = Promise(content: seq<Block>, mixed: map<nat, Block>)

  function Promised(pr: Promise, k: nat, c: Block): Promise
    requires k < |pr.content|
  {
    Promise(pr.content[k := c], pr.mixed - {k})
  }

  // ---- The on-disk header ----

  /** The block numbers a header block lists (struct logheader). */
  function Entries(c: Block): seq<int> {
    if c != [] && 0 <= c[0] < |c| then c[1..1 + c[0]] else []
  }

  /** write_head overwrites the count and that many entries; the rest of the block stays. */
  function PutEntries(c: Block, lh: seq<int>): (r: Block)
    requires 1 + |lh| <= |c|
    ensures |r| == |c|
  {
    [|lh|] + lh + c[1 + |lh|..]
  }

  lemma EntriesOfPut(c: Block, lh: seq<int>)
    requires 1 + |lh| < |c|
    ensures Entries(PutEntries(c, lh)) == lh
  {
  }

  /** The content block `k` has once the committed transaction in the log is installed. */
  function Recovered(P: Params, disk: seq<Block>, k: nat): Block
    requires k < |disk| && P.start < |disk|
  {
    var h := Entries(disk[P.start]);
    var i := IndexOf(h, k);
    if i < |h| && P.start + 1 + i < |disk| then disk[P.start + 1 + i] else disk[k]
  }

  ghost predicate SameHome(P: Params, a: seq<Block>, b: seq<Block>) {
    && |a| == |b| == P.size
    && forall k {:trigger a[k]} {:trigger b[k]} :: P.Home(k) ==> a[k] == b[k]
  }

  ghost predicate RecoversTo(P: Params, disk: seq<Block>, a: seq<Block>) {
    && |a| == |disk| == P.size && P.start < P.size
    && forall k {:trigger a[k]} {:trigger Recovered(P, disk, k)} :: P.Home(k) ==> Recovered(P, disk, k) == a[k]
  }

  /** With nothing in the log, recovery restores what is at home. */
  lemma EmptyLogRecovers(P: Params, disk: seq<Block>, a: seq<Block>)
    requires P.Ok() && SameHome(P, disk, a) && Entries(disk[P.start]) == []
    ensures RecoversTo(P, disk, a)
  {
  }

  /** A header whose entries are distinct home blocks and fit in the log. */
  ghost predicate GoodEntries(P: Params, h: seq<int>) {
    && |h| <= P.logBlocks
    && NoDup(h)
    && forall i :: 0 <= i < |h| ==> P.Home(h[i])
  }

  ghost predicate Blocks(P: Params, a: seq<Block>) {
    |a| == P.size && forall k :: 0 <= k < |a| ==> |a[k]| == P.words
  }

  /** A disk that mkfs or a crashed kernel can leave behind. */
  ghost predicate GoodDisk(P: Params, disk: seq<Block>) {
    P.Ok() && Blocks(P, disk) && GoodEntries(P, Entries(disk[P.start]))
  }

  // ---- Cache steps ----

  ghost predicate Holds(s: State, p: Pid, b: nat) {
    b < |s.cache.bufs| && s.cache.bufs[b].lock == Some(p) && s.cache.bufs[b].block.Some?
  }

  ghost predicate HoldsValid(s: State, p: Pid, b: nat, k: int) {
    Holds(s, p, b) && s.cache.bufs[b].valid && s.cache.bufs[b].block.value == k
  }

  function SetBuf(c: Cache, b: nat, x: Buf): Cache
    requires b < |c.bufs|
  {
    c.(bufs := c.bufs[b := x])
  }

  /** Until recovery is over only the first process runs. */
  ghost predicate CanRun(s: State, p: Pid) {
    s.rec ==> p == s.who
  }

  /** bget finds the block: take a reference, then wait for the sleep lock. */
  ghost predicate BgetHit(P: Params, s: State, s': State, p: Pid, k: nat, b: nat) {
    && CanRun(s, p)
    && Caches(s.cache.bufs, b, k)
    && Token(p, b, Waiting) !in s.tokens
    && s' == s.(cache := SetBuf(s.cache, b, s.cache.bufs[b].(refcnt := s.cache.bufs[b].refcnt + 1)),
                tokens := s.tokens + {Token(p, b, Waiting)})
  }

  /** bget recycles the victim. */
  ghost predicate BgetMiss(P: Params, s: State, s': State, p: Pid, k: nat, b: nat) {
    && CanRun(s, p)
    && k < P.size
    && !Cached(s.cache.bufs, k)
    && SortedByStamp(s.cache.lru, s.cache.stamps) && |s.cache.stamps| == |s.cache.bufs|
    && Victim(s.cache.bufs, s.cache.lru) == Some(b)
    && b < |s.cache.bufs|
    && s' == s.(cache := SetBuf(s.cache, b, s.cache.bufs[b].(block := Some(k), valid := false, refcnt := 1)),
                tokens := s.tokens + {Token(p, b, Waiting)}, loose := s.loose - {b})
  }

  ghost predicate Acquire(P: Params, s: State, s': State, p: Pid, b: nat) {
    && CanRun(s, p)
    && Token(p, b, Waiting) in s.tokens
    && b < |s.cache.bufs| && s.cache.bufs[b].lock == None
    && s' == s.(cache := SetBuf(s.cache, b, s.cache.bufs[b].(lock := Some(p))),
                tokens := s.tokens - {Token(p, b, Waiting)} + {Token(p, b, Holding)})
  }

  /** bread fills a buffer that is not valid. */
  ghost predicate Fill(P: Params, s: State, s': State, p: Pid, b: nat) {
    && CanRun(s, p)
    && Holds(s, p, b) && !s.cache.bufs[b].valid && s.cache.bufs[b].block.value < |s.disk|
    && s' == s.(cache := SetBuf(s.cache, b,
                  s.cache.bufs[b].(valid := true, data := s.disk[s.cache.bufs[b].block.value])))
  }

  /** The state with buffer b's lock released. */
  function Unlocked(s: State, p: Pid, b: nat): State
    requires b < |s.cache.bufs|
  {
    s.(cache := SetBuf(s.cache, b, s.cache.bufs[b].(lock := None)),
       tokens := s.tokens - {Token(p, b, Holding)} + {Token(p, b, Leaving)})
  }

  /** brelse, first half, of a buffer that is unchanged, or was logged or written since. */
  ghost predicate ReleaseLock(P: Params, s: State, s': State, p: Pid, b: nat) {
    && CanRun(s, p)
    && Holds(s, p, b) && b !in s.dirty && Token(p, b, Leaving) !in s.tokens
    && s' == Unlocked(s, p, b)
  }

  /** brelse, first half, of a changed buffer that was not logged, as in writei when the source cannot be
      read.  If its block is in the log, the next commit takes the change along. */
  ghost predicate Drop(P: Params, s: State, s': State, p: Pid, b: nat) {
    && p in s.ops
    && Holds(s, p, b) && b in s.dirty && Token(p, b, Leaving) !in s.tokens
    && var k, c := s.cache.bufs[b].block.value, s.cache.bufs[b].data;
    && k < |s.logical|
    && var u := Unlocked(s, p, b).(dirty := s.dirty - {b});
       s' == if k in s.lh
             then u.(logical := s.logical[k := c], promise := s.promise.(mixed := s.promise.mixed[k := c]))
             else u.(loose := s.loose + {b})
  }

  /** brelse, second half. */
  ghost predicate GiveBack(P: Params, s: State, s': State, p: Pid, b: nat) {
    && CanRun(s, p)
    && Token(p, b, Leaving) in s.tokens
    && b < |s.cache.bufs| && b < |s.cache.stamps| && s.cache.bufs[b].refcnt > 0
    && s' == s.(cache := Unref(s.cache, b), tokens := s.tokens - {Token(p, b, Leaving)})
  }

  // ---- Operations ----

  ghost predicate BeginOp(P: Params, s: State, s': State, p: Pid) {
    && s.phase == Normal && p !in s.ops
    && |s.lh| + (|s.ops| + 1) * P.maxOp <= P.logBlocks
    && s' == s.(ops := s.ops[p := 0])
  }

  /** An operation changes a block it holds. */
  ghost predicate Modify(P: Params, s: State, s': State, p: Pid, b: nat, c: Block) {
    && p in s.ops && |c| == P.words
    && Holds(s, p, b) && s.cache.bufs[b].valid && P.Home(s.cache.bufs[b].block.value)
    && s' == s.(cache := SetBuf(s.cache, b, s.cache.bufs[b].(data := c)), dirty := s.dirty + {b},
                loose := s.loose - {b})
  }

  /** log_write of a block that is already in the log. */
  ghost predicate LogAbsorb(P: Params, s: State, s': State, p: Pid, b: nat) {
    && p in s.ops
    && Holds(s, p, b) && s.cache.bufs[b].valid
    && var k := s.cache.bufs[b].block.value;
    && P.Home(k) && k < |s.logical| && k < |s.promise.content|
    && |s.lh| < P.logBlocks
    && k in s.lh
    && s' == s.(dirty := s.dirty - {b}, logical := s.logical[k := s.cache.bufs[b].data],
                promise := Promised(s.promise, k, s.cache.bufs[b].data))
  }

  /** log_write of a new block: it takes a slot and pins the buffer. */
  ghost predicate LogAppend(P: Params, s: State, s': State, p: Pid, b: nat) {
    && p in s.ops && s.ops[p] < P.maxOp
    && Holds(s, p, b) && s.cache.bufs[b].valid
    && var k := s.cache.bufs[b].block.value;
    && P.Home(k) && k < |s.logical| && k < |s.promise.content|
    && |s.lh| < P.logBlocks
    && k !in s.lh
    && s' == s.(cache := SetBuf(s.cache, b, s.cache.bufs[b].(refcnt := s.cache.bufs[b].refcnt + 1)),
                dirty := s.dirty - {b}, logical := s.logical[k := s.cache.bufs[b].data],
                lh := s.lh + [k], ops := s.ops[p := s.ops[p] + 1],
                loose := s.loose - {b}, promise := Promised(s.promise, k, s.cache.bufs[b].data))
  }

  ghost predicate EndOp(P: Params, s: State, s': State, p: Pid) {
    && p in s.ops
    && (forall b :: b in s.dirty ==> !Holds(s, p, b))
    && s' == if s.ops.Keys == {p}
             then s.(ops := map[], who := p, phase := if s.lh == [] then Finish else WriteLog(0),
                     hist := s.hist + [s.logical], promises := s.promises + [s.promise])
             else s.(ops := s.ops - {p})
  }

  // ---- commit() and recover_from_log() ----

  ghost predicate LogCopy(P: Params, s: State, s': State, to: nat, from: nat) {
    && s.phase.WriteLog? && s.phase.t < |s.lh|
    && HoldsValid(s, s.who, to, P.start + 1 + s.phase.t)
    && HoldsValid(s, s.who, from, s.lh[s.phase.t])
    && s' == s.(cache := SetBuf(s.cache, to, s.cache.bufs[to].(data := s.cache.bufs[from].data)),
                dirty := s.dirty + {to}, phase := LogCopied(s.phase.t, to))
  }

  /** bwrite of the block a buffer holds. */
  function Written(s: State, b: nat): seq<Block>
    requires b < |s.cache.bufs| && s.cache.bufs[b].block.Some? && s.cache.bufs[b].block.value < |s.disk|
  {
    s.disk[s.cache.bufs[b].block.value := s.cache.bufs[b].data]
  }

  ghost predicate CanWrite(s: State, b: nat) {
    Holds(s, s.who, b) && s.cache.bufs[b].block.value < |s.disk|
  }

  ghost predicate LogWritten(P: Params, s: State, s': State) {
    && s.phase.LogCopied? && CanWrite(s, s.phase.b)
    && s' == s.(disk := Written(s, s.phase.b), dirty := s.dirty - {s.phase.b}, phase := WriteLog(s.phase.t + 1))
  }

  ghost predicate LogDone(P: Params, s: State, s': State) {
    && s.phase.WriteLog? && s.phase.t == |s.lh|
    && s' == s.(phase := Head)
  }

  ghost predicate HeadCopy(P: Params, s: State, s': State, b: nat) {
    && (s.phase.Head? || s.phase.Clear?)
    && HoldsValid(s, s.who, b, P.start)
    && 1 + |s.lh| <= |s.cache.bufs[b].data|
    && s' == s.(cache := SetBuf(s.cache, b, s.cache.bufs[b].(data := PutEntries(s.cache.bufs[b].data, s.lh))),
                dirty := s.dirty + {b}, phase := if s.phase.Head? then HeadCopied(b) else ClearCopied(b))
  }

  /** The true commit point, or the erasure of the transaction. */
  ghost predicate HeadWrite(P: Params, s: State, s': State) {
    && (s.phase.HeadCopied? || s.phase.ClearCopied?) && CanWrite(s, s.phase.b)
    && s' == s.(disk := Written(s, s.phase.b), dirty := s.dirty - {s.phase.b},
                phase := if s.phase.HeadCopied? then Install(0) else Finish)
  }

  ghost predicate HomeCopy(P: Params, s: State, s': State, from: nat, to: nat) {
    && s.phase.Install? && s.phase.t < |s.lh|
    && HoldsValid(s, s.who, from, P.start + 1 + s.phase.t)
    && HoldsValid(s, s.who, to, s.lh[s.phase.t])
    && s' == s.(cache := SetBuf(s.cache, to, s.cache.bufs[to].(data := s.cache.bufs[from].data)),
                dirty := s.dirty + {to}, phase := HomeCopied(s.phase.t, to))
  }

  ghost predicate HomeWrite(P: Params, s: State, s': State) {
    && s.phase.HomeCopied? && CanWrite(s, s.phase.b)
    && s' == s.(disk := Written(s, s.phase.b), dirty := s.dirty - {s.phase.b},
                phase := HomeWritten(s.phase.t, s.phase.b))
  }

  /** bunpin, unless recovering. */
  ghost predicate Unpin(P: Params, s: State, s': State) {
    && s.phase.HomeWritten? && Holds(s, s.who, s.phase.b) && s.cache.bufs[s.phase.b].refcnt > 0
    && s' == s.(phase := Install(s.phase.t + 1),
                cache := if s.rec then s.cache
                         else SetBuf(s.cache, s.phase.b,
                                s.cache.bufs[s.phase.b].(refcnt := s.cache.bufs[s.phase.b].refcnt - 1)))
  }

  ghost predicate InstallDone(P: Params, s: State, s': State) {
    && s.phase.Install? && s.phase.t == |s.lh|
    && s' == s.(lh := [], phase := Clear)
  }

  ghost predicate FinishStep(P: Params, s: State, s': State) {
    && s.phase.Finish? && s.hist != []
    && s' == s.(phase := Normal, rec := false, done := if s.rec then s.done else |s.hist| - 1)
  }

  ghost predicate ReadHeader(P: Params, s: State, s': State, b: nat) {
    && s.phase.ReadHead?
    && HoldsValid(s, s.who, b, P.start)
    && s' == s.(lh := Entries(s.cache.bufs[b].data), phase := Install(0))
  }

  // ---- Crashes and runs ----

  /** The header of the transaction being committed is on disk and not yet erased. */
  ghost predicate PastCommitPoint(s: State) {
    !s.rec && (s.phase.Install? || s.phase.HomeCopied? || s.phase.HomeWritten?
               || s.phase.Clear? || s.phase.ClearCopied? || s.phase.Finish?)
  }

  /** The entry of `hist` that recovery must restore. */
  ghost function Durable(s: State): int {
    if PastCommitPoint(s) then |s.hist| - 1 else s.done
  }

  /** Power comes back: memory is as binit leaves it. */
  ghost predicate Booted(P: Params, s: State) {
    && s.cache == EmptyCache(P.nbuf) && s.tokens == {} && s.dirty == {} && s.loose == {}
    && s.lh == [] && s.ops == map[] && s.phase == ReadHead && s.rec
  }

  /** The disk is what it was.  What counts as logical content now is that of the moment to be restored; that
      the disk recovers to it is for the proof. */
  ghost predicate Crash(P: Params, s: State, s': State) {
    && Booted(P, s') && 0 <= Durable(s) < |s.hist| && |s.promises| == |s.hist|
    && s'.disk == s.disk && s'.hist == s.hist && s'.done == Durable(s) && s'.logical == s.hist[Durable(s)]
    && s'.promises == s.promises && s'.promise == s.promises[Durable(s)]
  }

  ghost predicate Init(P: Params, s: State) {
    && GoodDisk(P, s.disk) && Booted(P, s) && Blocks(P, s.logical) && RecoversTo(P, s.disk, s.logical)
    && s.hist == [s.logical] && s.done == 0
    && s.promise == Promise(s.logical, map[]) && s.promises == [s.promise]
  }

  datatype Step =
    | SHit(p: Pid, k: nat, b: nat) | SMiss(p: Pid, k: nat, b: nat) | SAcquire(p: Pid, b: nat) | SFill(p: Pid, b: nat)
    | SRelease(p: Pid, b: nat) | SDrop(p: Pid, b: nat) | SGiveBack(p: Pid, b: nat)
    | SBegin(p: Pid) | SModify(p: Pid, b: nat, c: Block) | SAbsorb(p: Pid, b: nat) | SAppend(p: Pid,
        b: nat) | SEnd(p: Pid)
    | SLogCopy(b: nat, from: nat) | SLogWritten | SLogDone | SHeadCopy(b: nat) | SHeadWrite
    | SHomeCopy(from: nat, b: nat) | SHomeWrite | SUnpin | SInstallDone | SFinish | SReadHeader(b: nat)
    | SCrash

  ghost predicate Next(P: Params, s: State, e: Step, s': State) {
    match e
    case SHit(p, k, b) => BgetHit(P, s, s', p, k, b)
    case SMiss(p, k, b) => BgetMiss(P, s, s', p, k, b)
    case SAcquire(p, b) => Acquire(P, s, s', p, b)
    case SFill(p, b) => Fill(P, s, s', p, b)
    case SRelease(p, b) => ReleaseLock(P, s, s', p, b)
    case SDrop(p, b) => Drop(P, s, s', p, b)
    case SGiveBack(p, b) => GiveBack(P, s, s', p, b)
    case SBegin(p) => BeginOp(P, s, s', p)
    case SModify(p, b, c) => Modify(P, s, s', p, b, c)
    case SAbsorb(p, b) => LogAbsorb(P, s, s', p, b)
    case SAppend(p, b) => LogAppend(P, s, s', p, b)
    case SEnd(p) => EndOp(P, s, s', p)
    case SLogCopy(b, from) => LogCopy(P, s, s', b, from)
    case SLogWritten => LogWritten(P, s, s')
    case SLogDone => LogDone(P, s, s')
    case SHeadCopy(b) => HeadCopy(P, s, s', b)
    case SHeadWrite => HeadWrite(P, s, s')
    case SHomeCopy(from, b) => HomeCopy(P, s, s', from, b)
    case SHomeWrite => HomeWrite(P, s, s')
    case SUnpin => Unpin(P, s, s')
    case SInstallDone => InstallDone(P, s, s')
    case SFinish => FinishStep(P, s, s')
    case SReadHeader(b) => ReadHeader(P, s, s', b)
    case SCrash => Crash(P, s, s')
  }

  /** A run: any interleaving of the processes, with any number of crashes. */
  ghost predicate Run(P: Params, states: seq<State>, steps: seq<Step>) {
    && |states| == |steps| + 1
    && Init(P, states[0])
    && forall i :: 0 <= i < |steps| ==> Next(P, states[i], steps[i], states[i + 1])
  }
}
