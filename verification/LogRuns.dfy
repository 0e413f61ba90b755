/** Runs of the log machine that reach the states in which a promise fails. */
module LogRuns {
  import opened Std
  import opened BufferCache
  import opened LogMachine
  import opened LogInvariant
  import opened LogLimits

  ghost predicate Reaches(P: Params, s: State) {
    exists states, steps :: Run(P, states, steps) && states[|states| - 1] == s
  }

  lemma StepOn(P: Params, s: State, e: Step, s': State)
    requires Reaches(P, s) && Next(P, s, e, s')
    ensures Reaches(P, s')
  {
    hide Next;
    var states, steps :| Run(P, states, steps) && states[|states| - 1] == s;
    var more, further := states + [s'], steps + [e];
    forall i | 0 <= i < |further| ensures Next(P, more[i], further[i], more[i + 1]) {
      if i < |steps| {
        assert Next(P, states[i], steps[i], states[i + 1]);
      }
    }
    assert Run(P, more, further) && more[|more| - 1] == s';
  }

  // ---- bread of a block that is not cached, and brelse ----

  function Loaded(s: State, p: Pid, k: nat, b: nat): State
    requires b < |s.cache.bufs| && k < |s.disk|
  {
    s.(cache := SetBuf(s.cache, b, Buf(Some(k), true, 1, s.disk[k], Some(p))),
       tokens := s.tokens + {Token(p, b, Holding)}, loose := s.loose - {b})
  }

  lemma Load(P: Params, s: State, p: Pid, k: nat, b: nat)
    requires Reaches(P, s) && CanRun(s, p) && k < P.size && k < |s.disk| && !Cached(s.cache.bufs, k)
    requires SortedByStamp(s.cache.lru, s.cache.stamps) && |s.cache.stamps| == |s.cache.bufs|
    requires Victim(s.cache.bufs, s.cache.lru) == Some(b) && b < |s.cache.bufs| && s.cache.bufs[b].lock == None
    requires Token(p, b, Waiting) !in s.tokens
    ensures Reaches(P, Loaded(s, p, k, b))
  {
    hide Reaches, Victim, SortedByStamp, Cached;
    var x := s.cache.bufs[b].(block := Some(k), valid := false, refcnt := 1);
    var s1 := s.(cache := SetBuf(s.cache, b, x), tokens := s.tokens + {Token(p, b, Waiting)}, loose := s.loose - {b});
    StepOn(P, s, SMiss(p, k, b), s1);
    var s2 := s1.(cache := SetBuf(s.cache, b, x.(lock := Some(p))), tokens := s.tokens + {Token(p, b, Holding)});
    assert s2.tokens == s1.tokens - {Token(p, b, Waiting)} + {Token(p, b, Holding)};
    StepOn(P, s1, SAcquire(p, b), s2);
    StepOn(P, s2, SFill(p, b), Loaded(s, p, k, b));
  }

  function Released(s: State, p: Pid, b: nat): State
    requires b < |s.cache.bufs| && b < |s.cache.stamps| && s.cache.bufs[b].refcnt > 0
  {
    s.(cache := Unref(SetBuf(s.cache, b, s.cache.bufs[b].(lock := None)), b),
       tokens := s.tokens - {Token(p, b, Holding)})
  }

  lemma Release(P: Params, s: State, p: Pid, b: nat)
    requires Reaches(P, s) && CanRun(s, p) && Holds(s, p, b) && b !in s.dirty && Token(p, b, Leaving) !in s.tokens
    requires b < |s.cache.stamps| && s.cache.bufs[b].refcnt > 0
    ensures Reaches(P, Released(s, p, b))
  {
    var s1 := Unlocked(s, p, b);
    StepOn(P, s, SRelease(p, b), s1);
    assert s1.tokens - {Token(p, b, Leaving)} == s.tokens - {Token(p, b, Holding)};
    StepOn(P, s1, SGiveBack(p, b), Released(s, p, b));
  }

  // ---- A small machine, started ----

  const Z: Block := [0, 0, 0]
  const A: Block := [1, 1, 1]

  /** Two log blocks, 0 and 1, and one home block, 2. */
  function Small(nbuf: nat): Params { Params(3, 0, 1, 1, 3, nbuf) }

  function Fresh(nbuf: nat): State {
    var zero := [Z, Z, Z];
    State(zero, EmptyCache(nbuf), {}, {}, [], map[], ReadHead, true, 0, zero, [zero], 0, {}, Promise(zero, map[]),
          [Promise(zero, map[])])
  }

  lemma FreshReached(nbuf: nat)
    ensures Reaches(Small(nbuf), Fresh(nbuf))
  {
    var P, s := Small(nbuf), Fresh(nbuf);
    assert Entries(Z) == [];
    assert RecoversTo(P, s.disk, s.logical);
    assert Run(P, [s], []) && [s][|[s]| - 1] == s;
  }

  /** After recovery of the empty log: the header's buffer, b, was used and given back. */
  function Ready(nbuf: nat): State
    requires nbuf > 0
  {
    var s := Fresh(nbuf);
    Released(Loaded(s, 0, 0, 0), 0, 0).(phase := Normal, rec := false)
  }

  /** Recovery with an empty header, once the header's buffer is locked. */
  lemma ClearLog(P: Params, s: State, b: nat)
    requires Reaches(P, s) && s.phase == ReadHead && s.lh == [] && s.dirty == {}
    requires HoldsValid(s, s.who, b, P.start) && P.start < |s.disk| && s.cache.bufs[b].data == s.disk[P.start]
    requires s.disk[P.start] != [] && s.disk[P.start][0] == 0
    ensures Reaches(P, s.(phase := Finish))
  {
    hide Reaches;
    assert Entries(s.disk[P.start]) == [];
    StepOn(P, s, SReadHeader(b), s.(phase := Install(0)));
    StepOn(P, s.(phase := Install(0)), SInstallDone, s.(phase := Clear));
    WriteEmptyHead(P, s.(phase := Clear), b);
  }

  lemma WriteEmptyHead(P: Params, s: State, b: nat)
    requires Reaches(P, s) && s.phase == Clear && s.lh == [] && s.dirty == {}
    requires HoldsValid(s, s.who, b, P.start) && P.start < |s.disk| && s.cache.bufs[b].data == s.disk[P.start]
    requires s.disk[P.start] != [] && s.disk[P.start][0] == 0
    ensures Reaches(P, s.(phase := Finish))
  {
    hide Reaches;
    assert PutEntries(s.disk[P.start], []) == s.disk[P.start];
    var s2 := s.(phase := ClearCopied(b), dirty := {b});
    assert s2.cache == SetBuf(s.cache, b, s.cache.bufs[b].(data := s.disk[P.start]));
    StepOn(P, s, SHeadCopy(b), s2);
    assert Written(s2, b) == s.disk && s2.dirty - {b} == {};
    StepOn(P, s2, SHeadWrite, s.(phase := Finish));
  }

  lemma ReadyReached(nbuf: nat)
    requires nbuf > 0
    ensures Reaches(Small(nbuf), Ready(nbuf))
  {
    hide Reaches, RingOk;
    var P, s := Small(nbuf), Fresh(nbuf);
    FreshReached(nbuf);
    FirstVictim(nbuf);
    Load(P, s, 0, 0, 0);
    var s1 := Loaded(s, 0, 0, 0);
    ClearLog(P, s1, 0);
    var s3 := s1.(phase := Finish);
    Release(P, s3, 0, 0);
    StepOn(P, Released(s3, 0, 0), SFinish, Ready(nbuf));
  }

  /** binit leaves buffer 0 at the end of the ring. */
  lemma FirstVictim(n: nat)
    requires 0 < n
    ensures var c := EmptyCache(n);
      && SortedByStamp(c.lru, c.stamps) && Victim(c.bufs, c.lru) == Some(0)
      && forall k :: !Cached(c.bufs, k)
  {
    EmptyRingOk(n);
    var c := EmptyCache(n);
    assert c.lru[n - 1] == 0;
  }

  // ---- As many pinned blocks as buffers ----

  /** Process 0 has begun an operation and locked block 2 in buffer b. */
  function Opened(nbuf: nat, b: nat): State
    requires 0 < nbuf && b < nbuf
  {
    Loaded(Ready(nbuf).(ops := map[0 := 0]), 0, 2, b)
  }

  lemma OpenedReached(nbuf: nat, b: nat)
    requires (nbuf == 1 && b == 0) || (nbuf == 2 && b == 1)
    ensures Reaches(Small(nbuf), Opened(nbuf, b))
  {
    hide Reaches, Ready, Loaded, Fresh;
    var P, s := Small(nbuf), Ready(nbuf);
    ReadyReached(nbuf);
    ReadyRing(nbuf);
    StepOn(P, s, SBegin(0), s.(ops := map[0 := 0]));
    Load(P, s.(ops := map[0 := 0]), 0, 2, b);
  }

  const EMPTY: Buf := Buf(None, false, 0, [], None)
  const HEADER: Buf := Buf(Some(0), true, 0, Z, None)

  /** One buffer, or two, the second unused for longer. */
  function One(x: Buf, stamp: nat, clock: nat): Cache { Cache([x], [0], [stamp], clock) }

  function Two(x: Buf, y: Buf, stamp: nat, clock: nat): Cache { Cache([x, y], [0, 1], [stamp, 1], clock) }

  lemma EmptyCaches()
    ensures EmptyCache(1) == One(EMPTY, 0, 1) && EmptyCache(2) == Cache([EMPTY, EMPTY], [1, 0], [0, 1], 2)
  {
  }

  lemma ReadyCache(nbuf: nat)
    requires nbuf == 1 || nbuf == 2
    ensures Ready(nbuf).cache == if nbuf == 1 then One(HEADER, 1, 2) else Two(HEADER, EMPTY, 2, 3)
  {
    hide EmptyCache;
    EmptyCaches();
    assert Without([0], 0) == [] && Without([1, 0], 0) == [1];
  }

  lemma ReadyRing(nbuf: nat)
    requires nbuf == 1 || nbuf == 2
    ensures var c := Ready(nbuf).cache;
      && |c.stamps| == |c.bufs| == nbuf && SortedByStamp(c.lru, c.stamps)
      && c.lru == (if nbuf == 1 then [0] else [0, 1]) && Victim(c.bufs, c.lru) == Some(nbuf - 1)
      && !Cached(c.bufs, 2) && c.bufs[nbuf - 1].lock == None
    ensures var s := Ready(nbuf);
      && s.phase == Normal && !s.rec && s.lh == [] && s.ops == map[] && s.tokens == {} && s.dirty == {} && s.loose == {}
      && s.who == 0 && s.disk == s.logical == [Z, Z, Z] && s.hist == [[Z, Z, Z]] && s.done == 0
      && s.promise == Promise([Z, Z, Z], map[]) && s.promises == [s.promise]
  {
    hide EmptyCache, Unref;
    ReadyCache(nbuf);
  }

  /** Process 0 has logged block 2, in buffer b, and given the buffer back. */
  function LoggedOnce(s: State, b: nat): State
    requires b < |s.cache.bufs|
  {
    s.(cache := SetBuf(s.cache, b, s.cache.bufs[b].(refcnt := 2)), lh := [2], ops := map[0 := 1])
  }

  lemma LogIt(nbuf: nat, b: nat)
    requires (nbuf == 1 && b == 0) || (nbuf == 2 && b == 1)
    ensures Reaches(Small(nbuf), LoggedOnce(Opened(nbuf, b), b))
  {
    hide Reaches, Loaded, Ready;
    OpenedReached(nbuf, b);
    OpenedIs(nbuf, b);
    var s := Opened(nbuf, b);
    assert s.logical[2 := Z] == s.logical && Promised(s.promise, 2, Z) == s.promise;
    StepOn(Small(nbuf), s, SAppend(0, b), LoggedOnce(s, b));
  }

  lemma OpenedIs(nbuf: nat, b: nat)
    requires (nbuf == 1 && b == 0) || (nbuf == 2 && b == 1)
    ensures var s := Opened(nbuf, b);
      && |s.cache.bufs| == |s.cache.stamps| == nbuf && s.cache.bufs[b] == Buf(Some(2), true, 1, Z, Some(0))
      && s.tokens == {Token(0, b, Holding)} && s.dirty == {} && s.loose == {} && s.lh == [] && s.ops == map[0 := 0]
      && s.phase == Normal && !s.rec && s.who == 0 && s.disk == s.logical == [Z, Z, Z] && s.hist == [[Z, Z, Z]]
          && s.done == 0
      && s.promise == Promise([Z, Z, Z], map[]) && s.promises == [s.promise]
  {
    hide Ready, SortedByStamp, Victim, Cached;
    ReadyRing(nbuf);
    ReadyCache(nbuf);
  }

  /** With one buffer and one log block a commit finds its only buffer pinned: bget panics for the log block. */
  lemma CommitWithoutBuffer()
    ensures exists s ::
      && Reaches(Small(1), s) && s.phase == WriteLog(0) && s.tokens == {} && |s.lh| == 1
      && RingOk(s.cache) && Victim(s.cache.bufs, s.cache.lru) == None
  {
    hide Reaches, Loaded, Ready;
    LogIt(1, 0);
    OpenedIs(1, 0);
    var P, s := Small(1), LoggedOnce(Opened(1, 0), 0);
    Release(P, s, 0, 0);
    var s1 := Released(s, 0, 0);
    assert s1.tokens == {};
    var s2 := s1.(ops := map[], phase := WriteLog(0), hist := s1.hist + [s1.logical],
                  promises := s1.promises + [s1.promise]);
    StepOn(P, s1, SEnd(0), s2);
    ReachedRing(P, s2);
  }

  lemma ReachedRing(P: Params, s: State)
    requires Reaches(P, s) && P.nbuf == 1 && |s.cache.bufs| == 1 && s.cache.bufs[0].refcnt != 0
    ensures RingOk(s.cache) && Victim(s.cache.bufs, s.cache.lru) == None
  {
    var states, steps :| Run(P, states, steps) && states[|states| - 1] == s;
    BufferForLogBlock(P, states, steps, |states| - 1);
  }

  // ---- A changed buffer released without log_write ----

  /** Process p changes the buffer to A, releases it without logging it and gives it back. */
  lemma ChangeAndDrop(P: Params, s: State, b: nat, s': State)
    requires Reaches(P, s) && 0 in s.ops && P.words == 3 && HoldsValid(s, 0, b, 2) && P.Home(2) && |s.logical| == 3
    requires s.dirty == {} && s.loose == {} && s.tokens == {Token(0, b, Holding)} && b < |s.cache.stamps| && !s.rec
    requires s.cache.bufs[b].refcnt > 0
    requires var t := s.(cache := Unref(SetBuf(s.cache, b, s.cache.bufs[b].(data := A, lock := None)), b),
                         tokens := {});
      s' == if 2 in s.lh then t.(logical := s.logical[2 := A], promise := s.promise.(mixed := s.promise.mixed[2 := A]))
            else t.(loose := {b})
    ensures Reaches(P, s')
  {
    hide Reaches;
    var x := s.cache.bufs[b].(data := A);
    var s1 := s.(cache := SetBuf(s.cache, b, x), dirty := {b});
    StepOn(P, s, SModify(0, b, A), s1);
    var u := s.(cache := SetBuf(s.cache, b, x.(lock := None)), tokens := {Token(0, b, Leaving)});
    assert Unlocked(s1, 0, b).(dirty := s1.dirty - {b}) == u;
    var s2 := if 2 in s.lh
        then u.(logical := s.logical[2 := A], promise := s.promise.(mixed := s.promise.mixed[2 := A]))
              else u.(loose := {b});
    StepOn(P, s1, SDrop(0, b), s2);
    assert s2.tokens - {Token(0, b, Leaving)} == {};
    StepOn(P, s2, SGiveBack(0, b), s');
  }

  /** After an operation that changed block 2 and released it unlogged has ended and committed, a reader is shown the
      change, which log_write was never told and no commit installs. */
  lemma UnloggedRead()
    ensures exists s ::
      && Reaches(Small(1), s) && s.phase == Normal && s.ops == map[] && HoldsValid(s, 1, 0, 2) && s.dirty == {}
      && s.cache.bufs[0].data == A && s.disk == s.logical == s.promise.content == [Z, Z, Z] && s.loose == {0}
  {
    hide Reaches, Loaded, Ready;
    OpenedReached(1, 0);
    OpenedIs(1, 0);
    var P, s := Small(1), Opened(1, 0);
    var c := Unref(SetBuf(s.cache, 0, s.cache.bufs[0].(data := A, lock := None)), 0);
    var s1 := s.(cache := c, tokens := {}, loose := {0});
    ChangeAndDrop(P, s, 0, s1);
    EndEmpty(P, s1);
    var s3 := Ended(s1).(phase := Normal, done := |s1.hist|);
    Reread(P, s3);
  }

  /** The last operation ends. */
  function Ended(s: State): State {
    s.(ops := map[], phase := if s.lh == [] then Finish else WriteLog(0), hist := s.hist + [s.logical],
       promises := s.promises + [s.promise])
  }

  lemma EndEmpty(P: Params, s: State)
    requires Reaches(P, s) && s.ops.Keys == {0} && s.dirty == {} && s.lh == [] && s.who == 0 && !s.rec
    ensures Reaches(P, Ended(s).(phase := Normal, done := |s.hist|))
  {
    hide Reaches;
    StepOn(P, s, SEnd(0), Ended(s));
    StepOn(P, Ended(s), SFinish, Ended(s).(phase := Normal, done := |s.hist|));
  }

  lemma Reread(P: Params, s: State)
    requires Reaches(P, s) && |s.cache.bufs| == 1 && s.tokens == {} && !s.rec
    requires s.cache.bufs[0] == Buf(Some(2), true, 0, A, None)
    ensures var s' := s.(cache := SetBuf(s.cache, 0, Buf(Some(2), true, 1, A, Some(1))),
                         tokens := {Token(1, 0, Holding)});
      Reaches(P, s')
  {
    hide Reaches;
    var s1 := s.(cache := SetBuf(s.cache, 0, Buf(Some(2), true, 1, A, None)), tokens := {Token(1, 0, Waiting)});
    StepOn(P, s, SHit(1, 2, 0), s1);
    var s2 := s.(cache := SetBuf(s.cache, 0, Buf(Some(2), true, 1, A, Some(1))), tokens := {Token(1, 0, Holding)});
    assert s2.tokens == s1.tokens - {Token(1, 0, Waiting)} + {Token(1, 0, Holding)};
    StepOn(P, s1, SAcquire(1, 0), s2);
  }

  // ---- And the same while the block is in the log ----

  /** Block 2 was logged as Z, changed to A and released unlogged; the commit stands at `phase`. */
  function Mixing(disk: seq<Block>, cache: Cache, tokens: set<Token>, dirty: set<nat>, phase: Phase): State {
    var told := Promise([Z, Z, Z], map[2 := A]);
    State(disk, cache, tokens, dirty, [2], map[], phase, false, 0, [Z, Z, A], [[Z, Z, Z], [Z, Z, A]], 0, {}, told,
          [Promise([Z, Z, Z], map[]), told])
  }

  const PINNED: Buf := Buf(Some(2), true, 1, A, None)
  const LOCKED: Buf := Buf(Some(2), true, 2, A, Some(0))

  lemma MixingReached()
    ensures Reaches(Small(2), Mixing([Z, Z, Z], Two(HEADER, PINNED, 2, 3), {}, {}, WriteLog(0)))
  {
    hide Reaches, Loaded, Ready;
    LogIt(2, 1);
    OpenedIs(2, 1);
    OpenedCache();
    var P, s := Small(2), LoggedOnce(Opened(2, 1), 1);
    var c := Two(HEADER, PINNED, 2, 3);
    assert Unref(SetBuf(s.cache, 1, s.cache.bufs[1].(data := A, lock := None)), 1) == c;
    var s1 := s.(cache := c, tokens := {}, logical := s.logical[2 := A], promise := Promise([Z, Z, Z], map[2 := A]));
    assert s.promise.mixed[2 := A] == map[2 := A];
    ChangeAndDrop(P, s, 1, s1);
    StepOn(P, s1, SEnd(0), Ended(s1));
    assert s1.logical == [Z, Z, A] && s1.hist + [s1.logical] == [[Z, Z, Z], [Z, Z, A]];
    assert s1.promises + [s1.promise] == [Promise([Z, Z, Z], map[]), s1.promise];
    assert Ended(s1) == Mixing([Z, Z, Z], c, {}, {}, WriteLog(0));
  }

  lemma OpenedCache()
    ensures Opened(2, 1).cache == Two(HEADER, Buf(Some(2), true, 1, Z, Some(0)), 2, 3)
  {
    hide Ready;
    ReadyCache(2);
    ReadyRing(2);
  }

  /** write_log, from the reading of the log block on. */
  lemma MixingLogged()
    ensures Reaches(Small(2), Mixing([Z, A, Z], Two(Buf(Some(1), true, 0, A, None), PINNED, 3, 4), {}, {}, WriteLog(1)))
  {
    hide Reaches;
    var P, w := Small(2), WriteLog(0);
    MixingReached();
    var s := Mixing([Z, Z, Z], Two(HEADER, PINNED, 2, 3), {}, {}, w);
    Load(P, s, 0, 1, 0);
    var log := Buf(Some(1), true, 1, Z, Some(0));
    var s1 := Mixing([Z, Z, Z], Two(log, PINNED, 2, 3), {Token(0, 0, Holding)}, {}, w);
    assert s1 == Loaded(s, 0, 1, 0);
    var both := {Token(0, 0, Holding), Token(0, 1, Holding)};
    var s2 := Mixing([Z, Z, Z], Two(log, PINNED.(refcnt := 2), 2, 3), {Token(0, 0, Holding), Token(0, 1, Waiting)}, {},
                     w);
    StepOn(P, s1, SHit(0, 2, 1), s2);
    var s3 := Mixing([Z, Z, Z], Two(log, LOCKED, 2, 3), both, {}, w);
    assert s3.tokens == s2.tokens - {Token(0, 1, Waiting)} + {Token(0, 1, Holding)};
    StepOn(P, s2, SAcquire(0, 1), s3);
    MixingWritten();
  }

  lemma MixingWritten()
    requires Reaches(Small(2), Mixing([Z, Z, Z], Two(Buf(Some(1), true, 1, Z, Some(0)), LOCKED, 2, 3),
                                      {Token(0, 0, Holding), Token(0, 1, Holding)}, {}, WriteLog(0)))
    ensures Reaches(Small(2), Mixing([Z, A, Z], Two(Buf(Some(1), true, 0, A, None), PINNED, 3, 4), {}, {}, WriteLog(1)))
  {
    hide Reaches;
    var P, both := Small(2), {Token(0, 0, Holding), Token(0, 1, Holding)};
    var s := Mixing([Z, Z, Z], Two(Buf(Some(1), true, 1, Z, Some(0)), LOCKED, 2, 3), both, {}, WriteLog(0));
    var full := Buf(Some(1), true, 1, A, Some(0));
    var s1 := Mixing([Z, Z, Z], Two(full, LOCKED, 2, 3), both, {0}, LogCopied(0, 0));
    StepOn(P, s, SLogCopy(0, 1), s1);
    var s2 := Mixing([Z, A, Z], Two(full, LOCKED, 2, 3), both, {}, WriteLog(1));
    StepOn(P, s1, SLogWritten, s2);
    MixingReleased();
  }

  lemma MixingReleased()
    requires Reaches(Small(2), Mixing([Z, A, Z], Two(Buf(Some(1), true, 1, A, Some(0)), LOCKED, 2, 3),
                                      {Token(0, 0, Holding), Token(0, 1, Holding)}, {}, WriteLog(1)))
    ensures Reaches(Small(2), Mixing([Z, A, Z], Two(Buf(Some(1), true, 0, A, None), PINNED, 3, 4), {}, {}, WriteLog(1)))
  {
    hide Reaches, Released;
    MixingFirst();
    var s := Mixing([Z, A, Z], Two(Buf(Some(1), true, 0, A, None), LOCKED, 3, 4), {Token(0, 1, Holding)}, {},
                    WriteLog(1));
    Release(Small(2), s, 0, 1);
    MixingSecond(s);
  }

  lemma MixingFirst()
    requires Reaches(Small(2), Mixing([Z, A, Z], Two(Buf(Some(1), true, 1, A, Some(0)), LOCKED, 2, 3),
                                      {Token(0, 0, Holding), Token(0, 1, Holding)}, {}, WriteLog(1)))
    ensures Reaches(Small(2), Mixing([Z, A, Z], Two(Buf(Some(1), true, 0, A, None), LOCKED, 3, 4),
                                     {Token(0, 1, Holding)}, {}, WriteLog(1)))
  {
    hide Reaches;
    var s := Mixing([Z, A, Z], Two(Buf(Some(1), true, 1, A, Some(0)), LOCKED, 2, 3),
                    {Token(0, 0, Holding), Token(0, 1, Holding)}, {}, WriteLog(1));
    Release(Small(2), s, 0, 0);
    assert Without([0, 1], 0) == [1];
    assert Released(s, 0, 0) == Mixing([Z, A, Z], Two(Buf(Some(1), true, 0, A, None), LOCKED, 3, 4),
                                       {Token(0, 1, Holding)}, {}, WriteLog(1));
  }

  lemma MixingSecond(s: State)
    requires s == Mixing([Z, A, Z], Two(Buf(Some(1), true, 0, A, None), LOCKED, 3, 4), {Token(0, 1, Holding)}, {},
                         WriteLog(1))
    ensures Released(s, 0, 1)
            == Mixing([Z, A, Z], Two(Buf(Some(1), true, 0, A, None), PINNED, 3, 4), {}, {}, WriteLog(1))
  {
  }

  /** The commit is done: recovery gives block 2 the content A, and log_write was only ever told Z. */
  lemma UnloggedCommit()
    ensures exists s ::
      && Reaches(Small(2), s) && PastCommitPoint(s) && |s.disk| == 3 && Recovered(Small(2), s.disk, 2) == A
      && s.promise.content == [Z, Z, Z] && forall pr :: pr in s.promises ==> pr.content == [Z, Z, Z]
  {
    hide Reaches;
    MixingHead();
    var P, full := Small(2), Buf(Some(0), true, 1, [1, 2, 0], Some(0));
    var s := Mixing([Z, A, Z], Two(full, PINNED, 3, 4), {Token(0, 0, Holding)}, {0}, HeadCopied(0));
    var s1 := Mixing([[1, 2, 0], A, Z], Two(full, PINNED, 3, 4), {Token(0, 0, Holding)}, {}, Install(0));
    StepOn(P, s, SHeadWrite, s1);
    assert Entries([1, 2, 0]) == [2];
  }

  lemma MixingHead()
    ensures Reaches(Small(2), Mixing([Z, A, Z], Two(Buf(Some(0), true, 1, [1, 2, 0], Some(0)), PINNED, 3, 4),
                                     {Token(0, 0, Holding)}, {0}, HeadCopied(0)))
  {
    hide Reaches;
    MixingHeld();
    var P, head := Small(2), HEADER.(refcnt := 1, lock := Some(0));
    var s1 := Mixing([Z, A, Z], Two(head, PINNED, 3, 4), {Token(0, 0, Holding)}, {}, Head);
    assert PutEntries(Z, [2]) == [1, 2, 0];
    var s2 := Mixing([Z, A, Z], Two(head.(data := [1, 2, 0]), PINNED, 3, 4), {Token(0, 0, Holding)}, {0},
                     HeadCopied(0));
    StepOn(P, s1, SHeadCopy(0), s2);
  }

  lemma MixingHeld()
    ensures Reaches(Small(2), Mixing([Z, A, Z], Two(HEADER.(refcnt := 1, lock := Some(0)), PINNED, 3, 4),
                                     {Token(0, 0, Holding)}, {}, Head))
  {
    hide Reaches;
    MixingLogged();
    var P, c := Small(2), Two(Buf(Some(1), true, 0, A, None), PINNED, 3, 4);
    var s := Mixing([Z, A, Z], c, {}, {}, WriteLog(1));
    StepOn(P, s, SLogDone, s.(phase := Head));
    Load(P, s.(phase := Head), 0, 0, 0);
    assert Loaded(s.(phase := Head), 0, 0, 0)
        == Mixing([Z, A, Z], Two(HEADER.(refcnt := 1, lock := Some(0)), PINNED, 3, 4), {Token(0, 0, Holding)}, {},
                  Head);
  }
}
