/** Every step keeps the cache invariant: distinct blocks, exact reference counts, pins and ring order. */
module LogCacheProof {
  import opened Std
  import opened BufferCache
  import opened LogMachine
  import opened LogInvariant

  lemma RefAdd(tokens: set<Token>, t: Token, b: nat)
    requires t !in tokens
    ensures |RefSet(tokens + {t}, b)| == |RefSet(tokens, b)| + if t.buf == b then 1 else 0
  {
    if t.buf == b {
      assert RefSet(tokens + {t}, b) == RefSet(tokens, b) + {t};
    } else {
      assert RefSet(tokens + {t}, b) == RefSet(tokens, b);
    }
  }

  lemma RefRemove(tokens: set<Token>, t: Token, b: nat)
    requires t in tokens
    ensures |RefSet(tokens - {t}, b)| == |RefSet(tokens, b)| - if t.buf == b then 1 else 0
  {
    RefAdd(tokens - {t}, t, b);
    assert tokens - {t} + {t} == tokens;
  }

  lemma RefAdds(tokens: set<Token>, t: Token)
    requires t !in tokens
    ensures forall b {:trigger RefSet(tokens + {t}, b)} :: 0 <= b ==>
              |RefSet(tokens + {t}, b)| == |RefSet(tokens, b)| + if t.buf == b then 1 else 0
  {
    forall b: nat ensures |RefSet(tokens + {t}, b)| == |RefSet(tokens, b)| + if t.buf == b then 1 else 0 {
      RefAdd(tokens, t, b);
    }
  }

  lemma RefRemoves(tokens: set<Token>, t: Token)
    requires t in tokens
    ensures forall b {:trigger RefSet(tokens - {t}, b)} :: 0 <= b ==>
              |RefSet(tokens - {t}, b)| == |RefSet(tokens, b)| - if t.buf == b then 1 else 0
  {
    forall b: nat ensures |RefSet(tokens - {t}, b)| == |RefSet(tokens, b)| - if t.buf == b then 1 else 0 {
      RefRemove(tokens, t, b);
    }
  }

  /** Changing a buffer but not its block keeps every block cached. */
  lemma CachedSame(bufs: seq<Buf>, bufs': seq<Buf>, k: nat)
    requires |bufs'| == |bufs| && Cached(bufs, k)
    requires forall b :: 0 <= b < |bufs| ==> bufs'[b].block == bufs[b].block
    ensures Cached(bufs', k)
  {
    var b :| Caches(bufs, b, k);
    assert Caches(bufs', b, k);
  }

  lemma PinsCachedSame(s: State, s': State)
    requires RefsOk(s) && |s'.cache.bufs| == |s.cache.bufs|
    requires forall b :: 0 <= b < |s.cache.bufs| ==> s'.cache.bufs[b].block == s.cache.bufs[b].block
    requires forall k :: k in Pins(s') ==> k in Pins(s)
    ensures forall k: int :: k in Pins(s') ==> k >= 0 && Cached(s'.cache.bufs, k)
  {
    forall k: int | k in Pins(s') ensures k >= 0 && Cached(s'.cache.bufs, k) {
      CachedSame(s.cache.bufs, s'.cache.bufs, k);
    }
  }

  lemma HitKept(P: Params, s: State, s': State, p: Pid, k: nat, b: nat)
    requires CacheInv(P, s) && BgetHit(P, s, s', p, k, b)
    ensures CacheInv(P, s')
  {
    RefAdds(s.tokens, Token(p, b, Waiting));
    PinsCachedSame(s, s');
  }

  /** A pinned or referenced buffer is never recycled. */
  lemma MissKept(P: Params, s: State, s': State, p: Pid, k: nat, b: nat)
    requires CacheInv(P, s) && BgetMiss(P, s, s', p, k, b)
    ensures CacheInv(P, s')
  {
    var t := Token(p, b, Waiting);
    assert RefSet(s.tokens, b) == {};
    forall u | u in s.tokens ensures u.buf != b {
      assert u !in RefSet(s.tokens, b);
    }
    RefAdds(s.tokens, t);
    forall k': int | k' in Pins(s) ensures k' >= 0 && Cached(s'.cache.bufs, k') {
      var b' :| Caches(s.cache.bufs, b', k');
      assert Caches(s'.cache.bufs, b', k');
    }
    assert k !in Pins(s);
    forall a | 0 <= a < |s.cache.bufs| ensures s.cache.bufs[a].block != Some(k) {
      assert !Caches(s.cache.bufs, a, k);
    }
  }

  lemma AcquireKept(P: Params, s: State, s': State, p: Pid, b: nat)
    requires CacheInv(P, s) && Acquire(P, s, s', p, b)
    ensures CacheInv(P, s')
  {
    RefRemoves(s.tokens, Token(p, b, Waiting));
    RefAdds(s.tokens - {Token(p, b, Waiting)}, Token(p, b, Holding));
    PinsCachedSame(s, s');
  }

  lemma UnlockKept(P: Params, s: State, p: Pid, b: nat)
    requires CacheInv(P, s) && Holds(s, p, b) && Token(p, b, Leaving) !in s.tokens
    ensures CacheInv(P, Unlocked(s, p, b))
  {
    RefRemoves(s.tokens, Token(p, b, Holding));
    RefAdds(s.tokens - {Token(p, b, Holding)}, Token(p, b, Leaving));
    PinsCachedSame(s, Unlocked(s, p, b));
  }

  lemma DropKept(P: Params, s: State, s': State, p: Pid, b: nat)
    requires CacheInv(P, s) && Drop(P, s, s', p, b)
    ensures CacheInv(P, s')
  {
    UnlockKept(P, s, p, b);
    SameRefsKept(P, Unlocked(s, p, b), s');
  }

  lemma GiveBackKept(P: Params, s: State, s': State, p: Pid, b: nat)
    requires CacheInv(P, s) && GiveBack(P, s, s', p, b)
    ensures CacheInv(P, s')
  {
    RefRemoves(s.tokens, Token(p, b, Leaving));
    UnrefRingOk(s.cache, b);
    PinsCachedSame(s, s');
  }

  lemma AppendKept(P: Params, s: State, s': State, p: Pid, b: nat)
    requires CacheInv(P, s) && LogInv(P, s) && LogAppend(P, s, s', p, b)
    ensures CacheInv(P, s')
  {
    var k := s.cache.bufs[b].block.value;
    assert Pins(s') == Pins(s) + [k];
    forall k': int | k' in Pins(s') ensures k' >= 0 && Cached(s'.cache.bufs, k') {
      if k' == k {
        assert Caches(s'.cache.bufs, b, k);
      } else {
        CachedSame(s.cache.bufs, s'.cache.bufs, k');
      }
    }
  }

  /** Steps that touch no block number, count, lock or token. */
  lemma SameRefsKept(P: Params, s: State, s': State)
    requires CacheInv(P, s) && s'.tokens == s.tokens && |s'.cache.bufs| == |s.cache.bufs|
    requires s'.cache == s.cache.(bufs := s'.cache.bufs)
    requires forall b :: 0 <= b < |s.cache.bufs| ==>
                           && s'.cache.bufs[b].block == s.cache.bufs[b].block
                               && s'.cache.bufs[b].lock == s.cache.bufs[b].lock
                           && s'.cache.bufs[b].refcnt == s.cache.bufs[b].refcnt
    requires Pins(s') == Pins(s)
    ensures CacheInv(P, s')
  {
    PinsCachedSame(s, s');
  }

  lemma UnpinPins(P: Params, s: State, s': State)
    requires Unpin(P, s, s') && !s.rec && s.phase.t < |s.lh| && NoDup(s.lh)
    ensures forall k :: k in Pins(s) <==> k in Pins(s') || k == s.lh[s.phase.t]
    ensures s.lh[s.phase.t] !in Pins(s')
  {
    assert Pins(s) == [s.lh[s.phase.t]] + Pins(s');
  }

  lemma UnpinKept(P: Params, s: State, s': State)
    requires CacheInv(P, s) && Unpin(P, s, s')
    requires !s.rec ==> s.phase.t < |s.lh| && s.lh[s.phase.t] >= 0 && NoDup(s.lh)
                        && Caches(s.cache.bufs, s.phase.b, s.lh[s.phase.t])
    ensures CacheInv(P, s')
  {
    if s.rec {
      SameRefsKept(P, s, s');
    } else {
      UnpinPins(P, s, s');
      PinsCachedSame(s, s');
    }
  }

  lemma BootKept(P: Params, s: State)
    requires Booted(P, s)
    ensures CacheInv(P, s)
  {
    EmptyRingOk(P.nbuf);
    forall b: nat ensures RefSet(s.tokens, b) == {} {
    }
  }

  lemma PinsSameOps(P: Params, s: State, e: Step, s': State)
    requires Next(P, s, e, s') && (e.SFill? || e.SModify? || e.SAbsorb? || e.SBegin?)
    ensures Pins(s') == Pins(s)
  {
  }

  lemma PinsSameWrites(P: Params, s: State, e: Step, s': State)
    requires Next(P, s, e, s') && (e.SLogCopy? || e.SLogWritten? || e.SLogDone? || e.SHeadCopy? || e.SHeadWrite?
                                   || e.SHomeCopy? || e.SHomeWrite? || e.SInstallDone?)
    ensures Pins(s') == Pins(s)
  {
  }

  lemma PinsSameEnds(P: Params, s: State, e: Step, s': State)
    requires LogInv(P, s) && Next(P, s, e, s') && (e.SEnd? || e.SFinish? || e.SReadHeader?)
    ensures Pins(s') == Pins(s)
  {
  }

  predicate CountsRefs(e: Step) {
    e.SHit? || e.SMiss? || e.SAcquire? || e.SRelease? || e.SDrop? || e.SGiveBack? || e.SAppend? || e.SUnpin?
        || e.SCrash?
  }

  lemma PlainKept(P: Params, s: State, e: Step, s': State)
    requires CacheInv(P, s) && Next(P, s, e, s') && !CountsRefs(e) && Pins(s') == Pins(s)
    ensures CacheInv(P, s')
  {
    SameRefsKept(P, s, s');
  }

  lemma CountingKept(P: Params, s: State, e: Step, s': State)
    requires CacheInv(P, s) && LogInv(P, s) && Next(P, s, e, s') && CountsRefs(e) && !e.SUnpin?
    ensures CacheInv(P, s')
  {
      match e
      case SHit(p, k, b) => HitKept(P, s, s', p, k, b);
      case SMiss(p, k, b) => MissKept(P, s, s', p, k, b);
      case SAcquire(p, b) => AcquireKept(P, s, s', p, b);
      case SRelease(p, b) => UnlockKept(P, s, p, b);
      case SDrop(p, b) => DropKept(P, s, s', p, b);
      case SGiveBack(p, b) => GiveBackKept(P, s, s', p, b);
      case SAppend(p, b) => AppendKept(P, s, s', p, b);
      case SCrash => BootKept(P, s');
  }

  lemma CacheKept(P: Params, s: State, e: Step, s': State)
    requires CacheInv(P, s) && DataInv(P, s) && LogInv(P, s) && Next(P, s, e, s')
    ensures CacheInv(P, s')
  {
    if e.SUnpin? {
      UnpinKept(P, s, s');
    } else if CountsRefs(e) {
      CountingKept(P, s, e, s');
    } else {
      if e.SFill? || e.SModify? || e.SAbsorb? || e.SBegin? {
        PinsSameOps(P, s, e, s');
      } else if e.SEnd? || e.SFinish? || e.SReadHeader? {
        PinsSameEnds(P, s, e, s');
      } else {
        PinsSameWrites(P, s, e, s');
      }
      PlainKept(P, s, e, s');
    }
  }
}
