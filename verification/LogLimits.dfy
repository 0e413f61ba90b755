/** Where the sizes of the log and of the cache are too tight: a commit with as many logged blocks as
    there are buffers finds no buffer for a log block. */
module LogLimits {
  import opened Std
  import opened BufferCache
  import opened LogMachine
  import opened LogInvariant
  import opened LogCacheProof
  import opened LogTheorems

  /** The buffers that hold the pinned blocks, in log order. */
  ghost function PinBufs(bufs: seq<Buf>, pins: seq<int>): (r: seq<nat>)
    requires forall i :: 0 <= i < |pins| ==> pins[i] >= 0 && Cached(bufs, pins[i])
    ensures |r| == |pins|
    ensures forall i :: 0 <= i < |r| ==> Caches(bufs, r[i], pins[i])
  {
    if pins == [] then []
    else
      assert Cached(bufs, pins[0]);
      var b: nat :| Caches(bufs, b, pins[0]);
      [b] + PinBufs(bufs, pins[1..])
  }

  /** A buffer has a reference exactly when some process has one or its block is pinned. */
  lemma UsedBy(P: Params, s: State, b: nat)
    requires CacheInv(P, s) && b < P.nbuf
    ensures s.cache.bufs[b].refcnt != 0 <==>
      b in TokenBufs(s) || (s.cache.bufs[b].block.Some? && s.cache.bufs[b].block.value in Pins(s))
  {
    if b in TokenBufs(s) {
      var t :| t in s.tokens && t.buf == b;
      assert t in RefSet(s.tokens, b);
    }
    assert b !in TokenBufs(s) ==> RefSet(s.tokens, b) == {};
  }

  /** The buffers that processes wait for, hold or are giving back. */
  ghost function TokenBufs(s: State): set<nat> {
    set t | t in s.tokens :: t.buf
  }

  lemma PinBufsDistinct(bufs: seq<Buf>, pins: seq<int>)
    requires NoDup(pins) && forall i :: 0 <= i < |pins| ==> pins[i] >= 0 && Cached(bufs, pins[i])
    ensures |Elements(PinBufs(bufs, pins))| == |pins|
  {
    var r := PinBufs(bufs, pins);
    forall i, j | 0 <= i < j < |r| ensures r[i] != r[j] {
      assert Caches(bufs, r[i], pins[i]) && Caches(bufs, r[j], pins[j]);
    }
    NoDupCard(r);
  }

  /** The buffers of the pinned blocks: as many as there are pins. */
  ghost function PinnedBufs(P: Params, s: State): set<nat>
    requires |s.cache.bufs| == P.nbuf
  {
    set b: nat | b < P.nbuf && s.cache.bufs[b].block.Some? && s.cache.bufs[b].block.value in Pins(s)
  }

  lemma PinnedCount(P: Params, s: State)
    requires CacheInv(P, s) && NoDup(Pins(s))
    ensures |PinnedBufs(P, s)| == |Pins(s)|
  {
    var bufs, pins := s.cache.bufs, Pins(s);
    forall i | 0 <= i < |pins| ensures pins[i] >= 0 && Cached(bufs, pins[i]) {
      var k := pins[i];
      assert k in Pins(s);
    }
    var r := PinBufs(bufs, pins);
    PinBufsDistinct(bufs, pins);
    forall b: nat ensures b in PinnedBufs(P, s) <==> b in r {
      PinnedByOne(bufs, pins, b);
    }
    assert PinnedBufs(P, s) == Elements(r);
  }

  lemma UsedAre(P: Params, s: State, used: set<nat>)
    requires CacheInv(P, s) && used == set b: nat | b < P.nbuf && s.cache.bufs[b].refcnt != 0
    ensures used == TokenBufs(s) + PinnedBufs(P, s)
  {
    forall b: nat ensures b in used <==> b in TokenBufs(s) + PinnedBufs(P, s) {
      if b < P.nbuf { UsedBy(P, s, b); }
    }
  }

  lemma PinnedByOne(bufs: seq<Buf>, pins: seq<int>, b: nat)
    requires DistinctBlocks(bufs) && forall i :: 0 <= i < |pins| ==> pins[i] >= 0 && Cached(bufs, pins[i])
    ensures b in PinBufs(bufs, pins) <==> b < |bufs| && bufs[b].block.Some? && bufs[b].block.value in pins
  {
    var r := PinBufs(bufs, pins);
    if b < |bufs| && bufs[b].block.Some? && bufs[b].block.value in pins {
      var i :| 0 <= i < |pins| && pins[i] == bufs[b].block.value;
      assert Caches(bufs, r[i], pins[i]) && r[i] == b;
    }
    if b in r {
      var i :| 0 <= i < |r| && r[i] == b;
      assert Caches(bufs, b, pins[i]);
    }
  }

  lemma PinsNoDup(P: Params, s: State)
    requires LogInv(P, s)
    ensures NoDup(Pins(s))
  {
  }

  /** In every reachable state bget can recycle a buffer for a block that is not cached if and only if the buffers that
      processes wait for, hold or are giving back, together with those of the pinned blocks, are fewer than all.
      Without such processes this means fewer logged blocks than buffers. */
  lemma BufferForLogBlock(P: Params, states: seq<State>, steps: seq<Step>, i: nat)
    requires Run(P, states, steps) && i < |states|
    ensures RingOk(states[i].cache) && |states[i].cache.bufs| == P.nbuf
    ensures var s := states[i];
      && (Victim(s.cache.bufs, s.cache.lru).Some? <==> |TokenBufs(s) + PinnedBufs(P, s)| < P.nbuf)
      && |PinnedBufs(P, s)| == |Pins(s)|
      && (s.tokens == {} ==> (Victim(s.cache.bufs, s.cache.lru).Some? <==> |Pins(s)| < P.nbuf))
  {
    hide Next, DataInv, SpaceInv, PromiseInv, Pins;
    RunInv(P, states, steps, i);
    var s := states[i];
    PinsNoDup(P, s);
    PinnedCount(P, s);
    VictimExists(P, s);
    assert s.tokens == {} ==> TokenBufs(s) + PinnedBufs(P, s) == PinnedBufs(P, s);
  }

  lemma VictimExists(P: Params, s: State)
    requires CacheInv(P, s)
    ensures RingOk(s.cache) && |s.cache.bufs| == P.nbuf
    ensures Victim(s.cache.bufs, s.cache.lru).Some? <==> |TokenBufs(s) + PinnedBufs(P, s)| < P.nbuf
  {
    hide Pins, PinnedBufs;
    var c := s.cache;
    var used := set b: nat | b < P.nbuf && c.bufs[b].refcnt != 0;
    UsedAre(P, s, used);
    VictimIsOldest(c.bufs, c.lru, c.stamps);
    SubsetCardinality(used, Below(P.nbuf));
    if |used| == P.nbuf {
      SubsetEqual(used, Below(P.nbuf));
      forall k | 0 <= k < |c.lru| ensures c.bufs[c.lru[k]].refcnt != 0 {
        assert c.lru[k] in Below(P.nbuf);
      }
    } else {
      UnequalDiffers(used, P.nbuf);
      var b :| b in Below(P.nbuf) - used;
      assert b in c.lru;
    }
  }

  lemma UnequalDiffers(used: set<nat>, n: nat)
    requires used <= Below(n) && |used| != n
    ensures exists b :: b in Below(n) - used
  {
    assert Below(n) - used == {} ==> used == Below(n);
  }
}
