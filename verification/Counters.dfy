/** Rings addressed by counters that wrap at a power of two: the pipe's 32-bit nread and nwrite, and the 16-bit
    indices of a virtio queue. */
module Counters {
  // ---- Arithmetic ----

  lemma MulBounds(m: int, d: int)
    requires m > 0
    ensures d > 0 ==> m * d >= m
    ensures d < 0 ==> m * d <= -m
  {
  }

  lemma Remainder(x: int, m: int, q: int, r: int)
    requires m > 0 && x == m * q + r && 0 <= r < m
    ensures x % m == r
  {
    var d := x / m - q;
    assert m * d == r - x % m by { assert m * d == m * (x / m) - m * q; }
    MulBounds(m, d);
  }

  /** The ring's index does not notice the counter's wrap, because the ring's size divides the modulus. */
  lemma SameIndex(x: nat, k: nat, size: nat, m: nat)
    requires size > 0 && m > 0 && m % size == 0
    ensures (x % m + k) % size == (x + k) % size
  {
    var a, q := x / m, m / size;
    assert m == size * q && x == m * a + x % m;
    var y := x % m + k;
    assert x + k == size * (q * a + y / size)
        + y % size by { assert size * (q * a) == m * a; assert y == size * (y / size) + y % size; }
    Remainder(x + k, size, q * a + y / size, y % size);
  }

  /** Fewer than `size` apart, two counters have different indices. */
  lemma Distinct(a: nat, b: nat, size: nat)
    requires size > 0 && a < b < a + size
    ensures a % size != b % size
  {
    var d := b / size - a / size;
    assert b - a == size * d + (b % size - a % size) by { assert size * d == size * (b / size) - size * (a / size); }
    MulBounds(size, d);
  }

  // ---- Windows ----

  /** How far hi is ahead of lo, round the circle of m counter values. */
  function Count(lo: nat, hi: nat, m: nat): nat
    requires lo < m && hi < m
  {
    (hi + m - lo) % m
  }

  lemma CountUp(lo: nat, hi: nat, m: nat)
    requires lo < m && hi < m
    ensures Count(lo, hi, m) < m - 1 ==> Count(lo, (hi + 1) % m, m) == Count(lo, hi, m) + 1
    ensures lo != hi ==> Count((lo + 1) % m, hi, m) == Count(lo, hi, m) - 1
    ensures lo == hi <==> Count(lo, hi, m) == 0
    ensures hi == (lo + Count(lo, hi, m)) % m
  {
    if hi >= lo {
      Remainder(hi + m - lo, m, 1, hi - lo);
    } else {
      Remainder(hi + m - lo, m, 0, hi + m - lo);
      Remainder(lo + (hi + m - lo), m, 1, hi);
    }
    if hi + 1 == m { Remainder(hi + 1, m, 1, 0); } else { Remainder(hi + 1, m, 0, hi + 1); }
    if lo + 1 == m { Remainder(lo + 1, m, 1, 0); } else { Remainder(lo + 1, m, 0, lo + 1); }
    CountCases(lo, hi, m);
    CountCases(lo, (hi + 1) % m, m);
    CountCases((lo + 1) % m, hi, m);
    if hi >= lo { Remainder(hi, m, 0, hi); }
  }

  lemma CountCases(lo: nat, hi: nat, m: nat)
    requires lo < m && hi < m
    ensures Count(lo, hi, m) == if hi >= lo then hi - lo else hi + m - lo
  {
    if hi >= lo { Remainder(hi + m - lo, m, 1, hi - lo); } else { Remainder(hi + m - lo, m, 0, hi + m - lo); }
  }

  /** Where the k-th entry from counter value n on lies. */
  function At(n: nat, k: nat, size: nat): (i: nat)
    requires size > 0
    ensures i < size
  {
    (n + k) % size
  }

  ghost predicate WindowOk<T>(ring: seq<T>, lo: nat, hi: nat, m: nat) {
    0 < |ring| < m && m % |ring| == 0 && lo < m && hi < m && Count(lo, hi, m) <= |ring|
  }

  /** The entries from lo up to hi. */
  ghost function Window<T>(ring: seq<T>, lo: nat, hi: nat, m: nat): (w: seq<T>)
    requires WindowOk(ring, lo, hi, m)
    ensures |w| == Count(lo, hi, m)
  {
    seq(Count(lo, hi, m), k requires 0 <= k < Count(lo, hi, m) => ring[At(lo, k, |ring|)])
  }

  /** Writing at hi and counting up appends, if there is room; nothing in the window is overwritten. */
  lemma WindowPush<T>(ring: seq<T>, lo: nat, hi: nat, m: nat, x: T)
    requires WindowOk(ring, lo, hi, m) && Count(lo, hi, m) < |ring|
    ensures hi % |ring| < |ring|
    ensures var ring' := ring[hi % |ring| := x];
            WindowOk(ring', lo, (hi + 1) % m, m) && Window(ring', lo, (hi + 1) % m, m) == Window(ring, lo, hi, m) + [x]
  {
    var size, n := |ring|, Count(lo, hi, m);
    CountUp(lo, hi, m);
    SameIndex(lo + n, 0, size, m);
    assert hi % size == At(lo, n, size);
    forall k: nat | k < n ensures At(lo, k, size) != At(lo, n, size) {
      Distinct(lo + k, lo + n, size);
    }
    hide Count, At;
    var ring' := ring[hi % size := x];
    assert Window(ring', lo, (hi + 1) % m, m) == Window(ring, lo, hi, m) + [x];
  }

  /** Counting lo up takes the first entry off. */
  lemma WindowPop<T>(ring: seq<T>, lo: nat, hi: nat, m: nat)
    requires WindowOk(ring, lo, hi, m) && lo != hi
    ensures lo % |ring| < |ring| && WindowOk(ring, (lo + 1) % m, hi, m)
    ensures Window(ring, lo, hi, m) == [ring[lo % |ring|]] + Window(ring, (lo + 1) % m, hi, m)
  {
    var size, lo' := |ring|, (lo + 1) % m;
    CountUp(lo, hi, m);
    forall k: nat | k < Count(lo', hi, m) ensures At(lo', k, size) == At(lo, k + 1, size) {
      SameIndex(lo + 1, k, size, m);
    }
    assert lo % size == At(lo, 0, size);
    hide Count, At;
    assert Window(ring, lo, hi, m) == [ring[lo % size]] + Window(ring, lo', hi, m);
  }
}
