/** The buffer cache of kernel/bio.c as a value: buffers, and the ring of all buffers
    from most to least recently released. */
module BufferCache {
  import opened Std

  /** A disk block, as the 32-bit words it holds. */
  type Block = seq<int>

  type Pid = nat

  /** `block` is None until the buffer is first given to a block of a device. */
  datatype Buf = Buf(block: Option<nat>, valid: bool, refcnt: nat, data: Block, lock: Option<Pid>)

  /** `lru` lists all buffers, `head.next` first.  `stamps[b]` is the clock at which buffer `b`
      last became unused; it is history, read by no step. */
  datatype Cache = Cache(bufs: seq<Buf>, lru: seq<nat>, stamps: seq<nat>, clock: nat)

  /** The buffer that bget's first scan finds. */
  ghost predicate Caches(bufs: seq<Buf>, b: nat, k: nat) {
    b < |bufs| && bufs[b].block == Some(k)
  }

  ghost predicate Cached(bufs: seq<Buf>, k: nat) {
    exists b :: Caches(bufs, b, k)
  }

  /** The buffer that bget's second scan takes: from `head.prev`, the first with refcnt 0. */
  function Victim(bufs: seq<Buf>, lru: seq<nat>): (v: Option<nat>)
    requires forall i :: 0 <= i < |lru| ==> lru[i] < |bufs|
    ensures v.Some? ==> v.value in lru && bufs[v.value].refcnt == 0
    ensures v.None? ==> forall i :: 0 <= i < |lru| ==> bufs[lru[i]].refcnt != 0
  {
    if lru == [] then None
    else if bufs[lru[|lru| - 1]].refcnt == 0 then Some(lru[|lru| - 1])
    else Victim(bufs, lru[..|lru| - 1])
  }

  function MoveToFront(lru: seq<nat>, b: nat): seq<nat> {
    [b] + Without(lru, b)
  }

  /** The ring after binit: each buffer was inserted right behind the head. */
  function InitialRing(n: nat): (r: seq<nat>)
    ensures |r| == n
    ensures forall i :: 0 <= i < n ==> r[i] == n - 1 - i
  {
    seq(n, i requires 0 <= i < n => n - 1 - i)
  }

  function EmptyCache(n: nat): Cache {
    Cache(seq(n, i => Buf(None, false, 0, [], None)), InitialRing(n), seq(n, i requires 0 <= i < n => i), n)
  }

  /** Drop one reference; the last one moves the buffer to the front (brelse, second half). */
  function Unref(c: Cache, b: nat): Cache
    requires b < |c.bufs| && b < |c.stamps| && c.bufs[b].refcnt > 0
  {
    var bufs := c.bufs[b := c.bufs[b].(refcnt := c.bufs[b].refcnt - 1)];
    if bufs[b].refcnt == 0 then
      Cache(bufs, MoveToFront(c.lru, b), c.stamps[b := c.clock], c.clock + 1)
    else c.(bufs := bufs)
  }

  /** The ring holds every buffer once, most recently released first. */
  ghost predicate RingOk(c: Cache) {
    && |c.lru| == |c.stamps| == |c.bufs|
    && SortedByStamp(c.lru, c.stamps)
    && (forall b :: 0 <= b < |c.bufs| ==> b in c.lru)
    && (forall b :: 0 <= b < |c.bufs| ==> c.stamps[b] < c.clock)
  }

  lemma EmptyRingOk(n: nat)
    ensures RingOk(EmptyCache(n))
  {
    var c := EmptyCache(n);
    forall b | 0 <= b < n ensures b in c.lru {
      assert c.lru[n - 1 - b] == b;
    }
  }

  lemma {:induction false} MoveToFrontAt(lru: seq<nat>, b: nat)
    requires b in lru
    ensures var p := IndexOf(lru, b); var r := MoveToFront(lru, b);
      && |r| == |lru| && r[0] == b
      && (forall i :: 1 <= i <= p ==> r[i] == lru[i - 1])
      && (forall i :: p < i < |lru| ==> r[i] == lru[i])
      && (forall x :: x in lru ==> x in r)
  {
    hide IndexOf;
    var p, r := IndexOf(lru, b), MoveToFront(lru, b);
    forall x | x in lru ensures x in r {
      var i :| 0 <= i < |lru| && lru[i] == x;
      assert i < p ==> r[i + 1] == x;
      assert i > p ==> r[i] == x;
    }
  }

  ghost predicate SortedByStamp(lru: seq<nat>, stamps: seq<nat>) {
    && (forall i :: 0 <= i < |lru| ==> lru[i] < |stamps|)
    && (forall i, j :: 0 <= i < j < |lru| ==> stamps[lru[i]] > stamps[lru[j]])
  }

  lemma {:induction false} MoveToFrontSorted(lru: seq<nat>, stamps: seq<nat>, b: nat, clock: nat)
    requires b in lru && b < |stamps| && SortedByStamp(lru, stamps)
    requires forall x :: 0 <= x < |stamps| ==> stamps[x] < clock
    ensures SortedByStamp(MoveToFront(lru, b), stamps[b := clock])
  {
    MoveToFrontAt(lru, b);
    var p, r, s := IndexOf(lru, b), MoveToFront(lru, b), stamps[b := clock];
    forall i | 0 <= i < |lru| && i != p ensures lru[i] != b {
      if i < p { assert lru[..p][i] == lru[i]; } else { assert stamps[lru[p]] > stamps[lru[i]]; }
    }
    forall i | 1 <= i < |r| ensures s[r[i]] == stamps[lru[if i <= p then i - 1 else i]] {
    }
    assert r[0] == b && s[b] == clock;
  }

  /** Giving back the last reference keeps the ring sorted by release time. */
  lemma {:induction false} UnrefRingOk(c: Cache, b: nat)
    requires RingOk(c) && b < |c.bufs| && c.bufs[b].refcnt > 0
    ensures RingOk(Unref(c, b))
  {
    if c.bufs[b].refcnt == 1 {
      MoveToFrontAt(c.lru, b);
      MoveToFrontSorted(c.lru, c.stamps, b, c.clock);
    }
  }

  /** The recycled buffer is the unused one released longest ago, and there is one exactly
      when some buffer is unused. */
  lemma {:induction false} VictimIsOldest(bufs: seq<Buf>, lru: seq<nat>, stamps: seq<nat>)
    requires |stamps| == |bufs|
    requires SortedByStamp(lru, stamps)
    ensures Victim(bufs, lru).Some? <==> exists i :: 0 <= i < |lru| && bufs[lru[i]].refcnt == 0
    ensures Victim(bufs, lru).Some? ==>
              forall i :: 0 <= i < |lru| && bufs[lru[i]].refcnt == 0
                ==> stamps[Victim(bufs, lru).value] <= stamps[lru[i]]
  {
    if lru != [] {
      VictimIsOldest(bufs, lru[..|lru| - 1], stamps);
    }
  }
}
