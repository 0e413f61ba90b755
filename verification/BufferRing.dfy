/** The doubly linked ring of kernel/bio.c, with `prev` and `next` as the links of NBUF buffers and a head. */
module BufferRing {
  import opened Std
  import opened BufferCache

  /** The links trace `full` forwards and backwards. */
  ghost predicate Linked(next: seq<nat>, prev: seq<nat>, full: seq<nat>) {
    && |next| == |prev|
    && (forall i :: 0 <= i < |full| ==> full[i] < |next|)
    && (forall i :: 0 <= i < |full| - 1 ==> next[full[i]] == full[i + 1])
    && (forall i :: 0 < i < |full| ==> prev[full[i]] == full[i - 1])
  }

  ghost predicate Permutes(order: seq<nat>, n: nat) {
    && |order| == n && NoDup(order)
    && (forall i :: 0 <= i < n ==> order[i] < n)
    && (forall b: nat :: b < n ==> b in order)
  }

  class Ring {
    const n: nat
    var bufs: seq<Buf>
    var next: seq<nat>
    var prev: seq<nat>
    ghost var order: seq<nat>

    /** The head is element `n`; `order` lists the buffers from `head.next` on. */
    ghost predicate Valid()
      reads this
    {
      && |bufs| == n && |next| == n + 1
      && Permutes(order, n)
      && Linked(next, prev, [n] + order + [n])
    }

    ghost predicate Distinct()
      reads this
    {
      forall a, b :: 0 <= a < b < |bufs| && bufs[a].block.Some? ==> bufs[a].block != bufs[b].block
    }

    /** binit. */
    constructor (n: nat)
      ensures Valid() && this.n == n && order == InitialRing(n)
      ensures bufs == EmptyCache(n).bufs && Distinct()
    {
      this.n := n;
      bufs := seq(n, i => Buf(None, false, 0, [], None));
      next := seq(n + 1, i => n);
      prev := seq(n + 1, i => n);
      order := [];
      new;
      var b := 0;
      while b < n
        invariant 0 <= b <= n && |next| == n + 1
        invariant order == seq(b, i requires 0 <= i < b => b - 1 - i)
        invariant Linked(next, prev, [n] + order + [n])
        invariant bufs == EmptyCache(n).bufs
      {
        LinkFront(b);
        b := b + 1;
      }
      forall x: nat | x < n ensures x in order { assert order[n - 1 - x] == x; }
    }

    /** Insert behind the head: b->next = head.next; b->prev = &head; head.next->prev = b; head.next = b. */
    method LinkFront(b: nat)
      requires b < n && |next| == n + 1 && b !in order && NoDup(order)
      requires (forall i :: 0 <= i < |order| ==> order[i] < n) && Linked(next, prev, [n] + order + [n])
      modifies this`next, this`prev, this`order
      ensures order == [b] + old(order) && |next| == n + 1 && Linked(next, prev, [n] + order + [n])
    {
      ghost var full := [n] + order + [n];
      var first := next[n];
      assert first == full[1] && n == full[0];
      next := next[b := first];
      prev := prev[b := n];
      prev := prev[first := b];
      next := next[n := b];
      order := [b] + order;
      ghost var full' := [n] + order + [n];
      assert full'[0] == n && full'[1] == b && full'[2] == first;
      forall i | 2 <= i < |full'| ensures full'[i] == full[i - 1] {}
    }

    /** b->next->prev = b->prev; b->prev->next = b->next. */
    method Unlink(b: nat)
      requires b < n && |next| == n + 1 && b in order && NoDup(order)
      requires (forall i :: 0 <= i < |order| ==> order[i] < n) && Linked(next, prev, [n] + order + [n])
      modifies this`next, this`prev, this`order
      ensures order == Without(old(order), b) && |next| == n + 1 && Linked(next, prev, [n] + order + [n])
    {
      ghost var full := [n] + order + [n];
      ghost var p := IndexOf(order, b) + 1;
      assert full[p] == b && RingDistinct(full);
      var succ, pred := next[b], prev[b];
      UnlinkLinked(next, prev, full, p);
      prev := prev[succ := pred];
      next := next[pred := succ];
      order := Without(order, b);
      assert [n] + order + [n] == full[..p] + full[p + 1..];
    }

    /** brelse, second half. */
    method Unref(b: nat)
      requires Valid() && b < n && bufs[b].refcnt > 0
      modifies this
      ensures Valid()
      ensures bufs == old(bufs)[b := old(bufs)[b].(refcnt := old(bufs)[b].refcnt - 1)]
      ensures order == if bufs[b].refcnt == 0 then MoveToFront(old(order), b) else old(order)
    {
      bufs := bufs[b := bufs[b].(refcnt := bufs[b].refcnt - 1)];
      if bufs[b].refcnt == 0 {
        WithoutNoDup(order, b);
        MoveToFrontAt(order, b);
        Unlink(b);
        LinkFront(b);
      }
    }

    /** bget's first scan, from `head.next` on. */
    method FindCached(k: nat) returns (r: Option<nat>)
      requires Valid()
      ensures r.Some? ==> Caches(bufs, r.value, k)
      ensures r.None? ==> !Cached(bufs, k)
    {
      ghost var full := [n] + order + [n];
      assert full[0] == n;
      var b := next[n];
      ghost var i := 0;
      while b != n
        invariant 0 <= i <= |order| && b == full[i + 1]
        invariant forall j :: 0 <= j < i ==> bufs[order[j]].block != Some(k)
        decreases |order| - i
      {
        if bufs[b].block == Some(k) { return Some(b); }
        b := next[b];
        i := i + 1;
      }
      forall a: nat ensures !Caches(bufs, a, k) {
        if a < n { assert a in order; }
      }
      return None;
    }

    /** bget's second scan, from `head.prev` back. */
    method FindVictim() returns (r: Option<nat>)
      requires Valid()
      ensures r == Victim(bufs, order)
    {
      ghost var full := [n] + order + [n];
      assert order[..|order|] == order && full[|order| + 1] == n;
      var b := prev[n];
      ghost var i := |order|;
      while b != n
        invariant 0 <= i <= |order| && b == full[i]
        invariant Victim(bufs, order) == Victim(bufs, order[..i])
        decreases i
      {
        if bufs[b].refcnt == 0 { return Some(b); }
        assert order[..i][..i - 1] == order[..i - 1];
        b := prev[b];
        i := i - 1;
      }
      return None;
    }

    /** bget: a reference to the buffer of block k, or to the recycled victim; None is the panic. */
    method Bget(k: nat) returns (r: Option<nat>)
      requires Valid() && Distinct()
      modifies this`bufs
      ensures Valid() && Distinct()
      ensures r.Some? ==> r.value < n
      ensures Cached(old(bufs), k) ==>
                r.Some? && Caches(old(bufs), r.value, k)
                && bufs == old(bufs)[r.value := old(bufs)[r.value].(refcnt := old(bufs)[r.value].refcnt + 1)]
      ensures !Cached(old(bufs), k) ==>
                && r == Victim(old(bufs), order)
                && bufs == if r.None? then old(bufs)
                           else old(bufs)[r.value := old(bufs)[r.value].(block := Some(k), valid := false, refcnt := 1)]
    {
      r := FindCached(k);
      if r.Some? {
        bufs := bufs[r.value := bufs[r.value].(refcnt := bufs[r.value].refcnt + 1)];
        return;
      }
      r := FindVictim();
      if r.Some? {
        forall a | 0 <= a < n ensures bufs[a].block != Some(k) { assert !Caches(bufs, a, k); }
        bufs := bufs[r.value := bufs[r.value].(block := Some(k), valid := false, refcnt := 1)];
      }
    }
  }

  ghost predicate RingDistinct(full: seq<nat>) {
    forall i, j :: 0 <= i < j < |full| && !(i == 0 && j == |full| - 1) ==> full[i] != full[j]
  }

  /** Taking out an inner element of the ring. */
  lemma UnlinkLinked(next: seq<nat>, prev: seq<nat>, full: seq<nat>, p: nat)
    requires Linked(next, prev, full) && 0 < p < |full| - 1 && RingDistinct(full)
    ensures next[full[p]] == full[p + 1] && prev[full[p]] == full[p - 1]
    ensures Linked(next[full[p - 1] := full[p + 1]], prev[full[p + 1] := full[p - 1]], full[..p] + full[p + 1..])
  {
    var full' := full[..p] + full[p + 1..];
    forall i | 0 <= i < |full'| ensures full'[i] == full[if i < p then i else i + 1] {}
  }

  lemma WithoutNoDup(s: seq<nat>, b: nat)
    requires NoDup(s)
    ensures NoDup(Without(s, b)) && b !in Without(s, b)
    ensures forall x :: x in Without(s, b) ==> x in s
  {
  }
}
