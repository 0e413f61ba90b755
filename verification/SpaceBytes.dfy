/** What the operations on a process's memory mean, byte by byte: a load gives the byte that was stored last, copyout
    puts its source into memory and copyin gets it back, and nothing else changes. A page that is missing reads as
    zero. */
module SpaceBytes {
  import opened Std
  import opened PageTable
  import opened VirtualMemory
  import opened Process
  import opened AddressSpace

  /** The byte at an address. */
  ghost function ByteOf(s: Space, va: nat): Byte
    requires Sized(s)
  {
    if va / PGSIZE in s.mem then s.mem[va / PGSIZE].data[va % PGSIZE] else 0
  }

  /** The bytes from dst on have become src, and every other byte and the size are what they were. */
  ghost predicate Became(s: Space, s': Space, dst: nat, src: seq<Byte>)
    requires Sized(s)
  {
    && s'.sz == s.sz && Sized(s')
    && forall va: nat :: ByteOf(s', va) == if dst <= va < dst + |src| then src[va - dst] else ByteOf(s, va)
  }

  /** A user instruction may load from or store to the address: its page is mapped for that, or it is missing and the
      address lies below the size and is not 0. */
  predicate MayTouch(s: Space, va: nat, write: bool) {
    if va / PGSIZE in s.mem then
      var flags := s.mem[va / PGSIZE].flags;
      flags.u && if write then flags.w else flags.r
    else 0 < va < s.sz
  }

  /** The kernel may copy from page v or to it for the user. */
  predicate MayCopy(s: Space, v: nat, write: bool) {
    if v in s.mem then s.mem[v].flags.u && (write ==> s.mem[v].flags.w) else v * PGSIZE < s.sz
  }

  /** It may copy all pages of the range. */
  ghost predicate MayCopyAll(s: Space, va: nat, len: nat, write: bool) {
    len > 0 ==> forall v: nat :: va / PGSIZE <= v <= (va + len - 1) / PGSIZE ==> PageOk(s, v, write)
  }

  predicate PageOk(s: Space, v: nat, write: bool) {
    v < NPAGES && MayCopy(s, v, write)
  }

  // ---- One page ----

  lemma SameAddress(a: nat, b: nat)
    ensures a / PGSIZE == b / PGSIZE && a % PGSIZE == b % PGSIZE ==> a == b
    ensures a / PGSIZE == b / PGSIZE ==> a - b == a % PGSIZE - b % PGSIZE
  {
  }

  lemma WriteAtBytes(s: Space, va: nat, src: seq<Byte>)
    requires Sized(s) && va / PGSIZE in s.mem && va % PGSIZE + |src| <= PGSIZE
    ensures Became(s, WriteAt(s, va, src), va, src)
  {
    var s' := WriteAt(s, va, src);
    forall a: nat ensures ByteOf(s', a) == if va <= a < va + |src| then src[a - va] else ByteOf(s, a) {
      SameAddress(a, va);
      if va <= a < va + |src| { assert a / PGSIZE == va / PGSIZE; }
    }
  }

  lemma FaultBytes(s: Space, va: nat)
    requires Sized(s) && Fault(s, va).Some?
    ensures Became(s, Fault(s, va).value, 0, [])
  {
  }

  /** Whether the page is there for a copy, and what is then there. */
  lemma PresentMeans(s: Space, v: nat)
    requires Sized(s)
    ensures Present(s, v).Some? <==> MayCopy(s, v, false)
    ensures Present(s, v).Some? ==>
      var s' := Present(s, v).value;
      && Became(s, s', 0, []) && v in s'.mem && s'.mem[v].flags.u && (s'.mem[v].flags.w <==> MayCopy(s, v, true))
      && forall u :: u != v ==> (u in s'.mem <==> u in s.mem) && (u in s.mem ==> s'.mem[u] == s.mem[u])
  {
    assert v * PGSIZE / PGSIZE == v;
    if !(v in s.mem && s.mem[v].flags.u) && Fault(s, v * PGSIZE).Some? { FaultBytes(s, v * PGSIZE); }
  }

  /** One page of copyout. */
  lemma OutPageMeans(s: Space, dst: nat, src: seq<Byte>)
    requires Sized(s) && dst % PGSIZE + |src| <= PGSIZE
    ensures OutPage(s, dst, src).Some? <==> MayCopy(s, dst / PGSIZE, true)
    ensures OutPage(s, dst, src).Some? ==>
      var s' := OutPage(s, dst, src).value;
      && Became(s, s', dst, src) && dst / PGSIZE in s'.mem && MayCopy(s', dst / PGSIZE, true)
      && forall u: nat :: u != dst / PGSIZE ==>
           (u in s'.mem <==> u in s.mem) && (u in s.mem ==> s'.mem[u] == s.mem[u])
  {
    var v := dst / PGSIZE;
    PresentMeans(s, v);
    if OutPage(s, dst, src).Some? {
      var s1 := Present(s, v).value;
      WriteAtBytes(s1, dst, src);
      BecameThen(s, s1, WriteAt(s1, dst, src), 0, [], dst, src);
    }
  }

  lemma BecameThen(s: Space, s1: Space, s2: Space, a: nat, x: seq<Byte>, b: nat, y: seq<Byte>)
    requires Sized(s) && Became(s, s1, a, x) && Became(s1, s2, b, y) && (x == [] || a + |x| == b || y == [])
    ensures x == [] ==> Became(s, s2, b, y)
    ensures y == [] ==> Became(s, s2, a, x)
    ensures a + |x| == b ==> Became(s, s2, a, x + y)
  {
    hide Sized;
    forall va: nat
      ensures ByteOf(s2, va) ==
              if b <= va < b + |y| then y[va - b] else if a <= va < a + |x| then x[va - a] else ByteOf(s, va)
    {
      assert ByteOf(s2, va) == if b <= va < b + |y| then y[va - b] else ByteOf(s1, va);
    }
  }

  // ---- copyout ----

  /** Pages that no copy has touched may be copied as before. */
  lemma RangeRest(s: Space, s': Space, dst: nat, len: nat, write: bool)
    requires len > 0 && s'.sz == s.sz
    requires forall u: nat :: u != dst / PGSIZE ==>
               (u in s'.mem <==> u in s.mem) && (u in s.mem ==> s'.mem[u] == s.mem[u])
    ensures var n := ChunkLen(dst, len);
      MayCopyAll(s, dst, len, write) <==>
        PageOk(s, dst / PGSIZE, write) && MayCopyAll(s', (dst / PGSIZE + 1) * PGSIZE, len - n, write)
  {
    var n, next := ChunkLen(dst, len), (dst / PGSIZE + 1) * PGSIZE;
    assert next / PGSIZE == dst / PGSIZE + 1;
    if len > n { assert next + (len - n) == dst + len; } else { assert (dst + len - 1) / PGSIZE == dst / PGSIZE; }
    assert forall u: nat :: u != dst / PGSIZE ==> PageOk(s', u, write) == PageOk(s, u, write);
    assert dst / PGSIZE <= (dst + len - 1) / PGSIZE;
    if PageOk(s, dst / PGSIZE, write) && MayCopyAll(s', next, len - n, write) {
      forall v: nat | dst / PGSIZE <= v <= (dst + len - 1) / PGSIZE ensures PageOk(s, v, write) {
        if v != dst / PGSIZE { assert PageOk(s', v, write); }
      }
    }
  }

  /** copyout succeeds if and only if it may copy to every page of the range.  It has put a part of src at dst, all of
      it if it succeeds and less otherwise, and changed no other byte. */
  lemma {:induction false} CopyOutMeans(s: Space, dst: nat, src: seq<Byte>) returns (done: nat)
    requires Inv(s) && Sized(s)
    ensures CopyOut(s, dst, src).1 <==> MayCopyAll(s, dst, |src|, true)
    ensures done <= |src| && (CopyOut(s, dst, src).1 <==> done == |src|)
    ensures Became(s, CopyOut(s, dst, src).0, dst, src[..done])
    decreases |src|
  {
    hide Inv, Became, MayCopyAll, ChunkLen, Sized, OutPage, Present, MayCopy;
    if src == [] {
      CopyOutNone(s, dst);
      return 0;
    }
    var n, v := ChunkLen(dst, |src|), dst / PGSIZE;
    OutPageMeans(s, dst, src[..n]);
    if PageOk(s, v, true) {
      var s1 := OutPage(s, dst, src[..n]).value;
      OutFirst(s, dst, src);
      RangeRest(s, s1, dst, |src|, true);
      var more := CopyOutMeans(s1, (v + 1) * PGSIZE, src[n..]);
      done := n + more;
      JoinOut(s, s1, CopyOut(s, dst, src).0, dst, src, n, more);
    } else {
      done := CopyOutStops(s, dst, src);
    }
  }

  lemma CopyOutNone(s: Space, dst: nat)
    requires Sized(s)
    ensures CopyOut(s, dst, []) == (s, true) && Became(s, s, dst, [][..0]) && MayCopyAll(s, dst, 0, true)
  {
  }

  lemma JoinOut(s: Space, s1: Space, s2: Space, dst: nat, src: seq<Byte>, n: nat, more: nat)
    requires Sized(s) && 0 < n == ChunkLen(dst, |src|) && more <= |src| - n
    requires Became(s, s1, dst, src[..n]) && Became(s1, s2, (dst / PGSIZE + 1) * PGSIZE, src[n..][..more])
    ensures Became(s, s2, dst, src[..n + more])
  {
    var next := (dst / PGSIZE + 1) * PGSIZE;
    assert src[..n] + src[n..][..more] == src[..n + more];
    if n < |src| { assert next == dst + n; }
    BecameThen(s, s1, s2, dst, src[..n], if more == 0 then dst + n else next, src[n..][..more]);
  }

  /** The first page stops it; a page that is there and not writable may have been brought in. */
  lemma CopyOutStops(s: Space, dst: nat, src: seq<Byte>) returns (done: nat)
    requires Inv(s) && Sized(s) && src != [] && !(dst / PGSIZE < NPAGES && MayCopy(s, dst / PGSIZE, true))
    ensures done == 0 && !CopyOut(s, dst, src).1 && Became(s, CopyOut(s, dst, src).0, dst, src[..done])
    ensures !MayCopyAll(s, dst, |src|, true)
  {
    done := 0;
    PresentMeans(s, dst / PGSIZE);
    assert dst / PGSIZE <= (dst + |src| - 1) / PGSIZE;
    assert !PageOk(s, dst / PGSIZE, true);
  }

  // ---- copyin ----

  /** copyin succeeds if and only if it may copy every page of the range.  The bytes are those at src, all of them if it
      succeeds and fewer otherwise, and it changes no byte. */
  lemma {:induction false} CopyInMeans(s: Space, src: nat, len: nat)
    requires Inv(s) && Sized(s)
    ensures CopyIn(s, src, len).2 <==> MayCopyAll(s, src, len, false)
    ensures Became(s, CopyIn(s, src, len).0, 0, [])
    ensures var bytes := CopyIn(s, src, len).1;
      && |bytes| <= len && (CopyIn(s, src, len).2 <==> |bytes| == len)
      && forall i :: 0 <= i < |bytes| ==> bytes[i] == ByteOf(s, src + i)
    decreases len
  {
    hide Inv, Became, MayCopyAll, ChunkLen, Sized, Present, MayCopy, ByteOf;
    var v := src / PGSIZE;
    if len == 0 {
      CopyInNone(s, src);
    } else if MayCopy(s, v, false) {
      PresentMeans(s, v);
      BelowPages(s, v);
      var n, s1 := ChunkLen(src, len), Present(s, v).value;
      InFirst(s, src, len);
      RangeRest(s, s1, src, len, false);
      CopyInMeans(s1, (v + 1) * PGSIZE, len - n);
      JoinIn(s, s1, src, len);
    } else {
      CopyInStops(s, src, len);
    }
  }

  lemma BelowPages(s: Space, v: nat)
    requires Inv(s) && MayCopy(s, v, false)
    ensures v < NPAGES
  {
  }

  lemma CopyInNone(s: Space, src: nat)
    requires Sized(s)
    ensures CopyIn(s, src, 0) == (s, [], true) && Became(s, s, 0, []) && MayCopyAll(s, src, 0, false)
  {
  }

  lemma CopyInStops(s: Space, src: nat, len: nat)
    requires Inv(s) && Sized(s) && len > 0 && !MayCopy(s, src / PGSIZE, false)
    ensures CopyIn(s, src, len) == (s, [], false) && Became(s, s, 0, []) && !MayCopyAll(s, src, len, false)
  {
    PresentMeans(s, src / PGSIZE);
    assert src / PGSIZE <= (src + len - 1) / PGSIZE && !PageOk(s, src / PGSIZE, false);
  }

  lemma JoinIn(s: Space, s1: Space, src: nat, len: nat)
    requires Inv(s) && Sized(s) && len > 0 && Present(s, src / PGSIZE) == Some(s1) && Inv(s1) && Sized(s1)
    requires Became(s, s1, 0, [])
    requires var n := ChunkLen(src, len); var t := CopyIn(s1, (src / PGSIZE + 1) * PGSIZE, len - n);
      && Became(s1, t.0, 0, []) && |t.1| <= len - n
      && (forall i :: 0 <= i < |t.1| ==> t.1[i] == ByteOf(s1, (src / PGSIZE + 1) * PGSIZE + i))
    ensures Became(s, CopyIn(s, src, len).0, 0, [])
    ensures var bytes := CopyIn(s, src, len).1; forall i :: 0 <= i < |bytes| ==> bytes[i] == ByteOf(s, src + i)
    ensures |CopyIn(s, src, len).1| ==
      ChunkLen(src, len) + |CopyIn(s1, (src / PGSIZE + 1) * PGSIZE, len - ChunkLen(src, len)).1|
  {
    hide CopyIn, Present, Inv, Sized;
    var n, next := ChunkLen(src, len), (src / PGSIZE + 1) * PGSIZE;
    InFirst(s, src, len);
    var t, r := CopyIn(s1, next, len - n), CopyIn(s, src, len);
    BecameThen(s, s1, t.0, 0, [], 0, []);
    forall i | 0 <= i < |r.1| ensures r.1[i] == ByteOf(s, src + i) {
      assert ByteOf(s1, src + i) == ByteOf(s, src + i);
      if i < n {
        assert (src + i) / PGSIZE == src / PGSIZE && (src + i) % PGSIZE == src % PGSIZE + i;
      } else {
        assert src + i == next + (i - n);
      }
    }
  }

  /** copyin gets back what copyout put there. */
  lemma CopyBack(s: Space, dst: nat, src: seq<Byte>)
    requires Inv(s) && Sized(s) && CopyOut(s, dst, src).1
    ensures var s' := CopyOut(s, dst, src).0;
      Inv(s') && Sized(s') && CopyIn(s', dst, |src|).1 == src && CopyIn(s', dst, |src|).2
  {
    var s' := CopyOut(s, dst, src).0;
    var done := CopyOutMeans(s, dst, src);
    CopyOutAgrees(s, dst, src);
    StillThere(s, dst, src);
    CopyInMeans(s', dst, |src|);
    var bytes := CopyIn(s', dst, |src|).1;
    assert src[..done] == src;
    hide CopyIn, CopyOut;
    forall i | 0 <= i < |src| ensures bytes[i] == src[i] {
      assert bytes[i] == ByteOf(s', dst + i);
    }
  }

  /** The pages of the range may still be copied after it, and the others as before. */
  lemma {:induction false} StillThere(s: Space, dst: nat, src: seq<Byte>)
    requires Inv(s) && Sized(s) && CopyOut(s, dst, src).1
    ensures MayCopyAll(CopyOut(s, dst, src).0, dst, |src|, false)
    ensures forall u: nat :: u < dst / PGSIZE ==>
              MayCopy(CopyOut(s, dst, src).0, u, false) == MayCopy(s, u, false)
    decreases |src|
  {
    hide Inv, ChunkLen, Sized, OutPage, Present, Became;
    if src != [] {
      var n, v := ChunkLen(dst, |src|), dst / PGSIZE;
      OutFirst(s, dst, src);
      OutPageMeans(s, dst, src[..n]);
      var s1, next := OutPage(s, dst, src[..n]).value, (v + 1) * PGSIZE;
      hide CopyOut;
      StillThere(s1, next, src[n..]);
      var s' := CopyOut(s, dst, src).0;
      assert next / PGSIZE == v + 1;
      assert MayCopy(s1, v, false) && PageOk(s', v, false);
      NextRange(dst, |src|);
    } else {
      CopyNone(s, dst);
    }
  }

  lemma NextRange(dst: nat, len: nat)
    requires len > 0
    ensures var n, next := ChunkLen(dst, len), (dst / PGSIZE + 1) * PGSIZE;
      len > n ==> next + (len - n) == dst + len
    ensures len == ChunkLen(dst, len) ==> (dst + len - 1) / PGSIZE == dst / PGSIZE
  {
  }

  // ---- Loads, stores and sizes ----

  lemma TouchMeans(s: Space, va: nat, write: bool)
    requires Sized(s)
    ensures Touch(s, va, write).Some? <==> MayTouch(s, va, write)
    ensures Touch(s, va, write).Some? ==>
      var s' := Touch(s, va, write).value;
      Became(s, s', 0, []) && va / PGSIZE in s'.mem && MayTouch(s', va, write)
  {
    if va / PGSIZE !in s.mem && 0 < va < s.sz { FaultBytes(s, va); }
  }

  /** A load shows the byte at its address, or kills, exactly when the address may not be loaded from; it changes no
      byte. */
  lemma LoadMeans(s: Space, va: nat, lazily: bool)
    requires Inv(s) && Sized(s)
    ensures var (s', o) := Step(s, Load(va), lazily);
      o == (if MayTouch(s, va, false) then Value(ByteOf(s, va)) else Killed) && Became(s, s', 0, [])
  {
    TouchMeans(s, va, false);
    if Touch(s, va, false).Some? { assert ByteOf(Touch(s, va, false).value, va) == ByteOf(s, va); }
  }

  /** A store puts its byte at its address and changes no other, or kills and changes nothing. */
  lemma StoreMeans(s: Space, va: nat, b: Byte, lazily: bool)
    requires Inv(s) && Sized(s)
    ensures var (s', o) := Step(s, Store(va, b), lazily);
      && o == (if MayTouch(s, va, true) then Done(true) else Killed)
      && Became(s, s', va, if MayTouch(s, va, true) then [b] else [])
      && (MayTouch(s, va, true) ==> va / PGSIZE in s'.mem)
  {
    TouchMeans(s, va, true);
    if Touch(s, va, true).Some? {
      var s1 := Touch(s, va, true).value;
      WriteAtBytes(s1, va, [b]);
      BecameThen(s, s1, WriteAt(s1, va, [b]), 0, [], va, [b]);
    }
  }

  /** After a store that is not a kill, a load there gives the byte, if the page may be read at all, and a load anywhere
      else that was not a kill before gives what it gave. */
  lemma StoreThenLoad(s: Space, va: nat, b: Byte, a: nat, lazily: bool)
    requires Inv(s) && Sized(s) && Step(s, Store(va, b), lazily).1 != Killed
    ensures var s' := Step(s, Store(va, b), lazily).0;
      && Inv(s') && va / PGSIZE in s'.mem
      && Step(s', Load(va), lazily).1 == (if s'.mem[va / PGSIZE].flags.r then Value(b) else Killed)
      && (a != va && Step(s, Load(a), lazily).1 != Killed ==>
            Step(s', Load(a), lazily).1 == Step(s, Load(a), lazily).1)
  {
    StoreMeans(s, va, b, lazily);
    StepInv(s, Store(va, b), lazily);
    var s' := Step(s, Store(va, b), lazily).0;
    StoreKeepsTouch(s, va, b, a, lazily);
    hide Step, MayTouch;
    LoadMeans(s', va, lazily);
    LoadMeans(s, a, lazily);
    LoadMeans(s', a, lazily);
    assert ByteOf(s', va) == b;
  }

  lemma StoreKeepsTouch(s: Space, va: nat, b: Byte, a: nat, lazily: bool)
    requires Inv(s) && Sized(s) && Step(s, Store(va, b), lazily).1 != Killed
    ensures var s' := Step(s, Store(va, b), lazily).0;
      && va / PGSIZE in s'.mem && (MayTouch(s', va, false) <==> s'.mem[va / PGSIZE].flags.r)
      && (MayTouch(s, a, false) ==> MayTouch(s', a, false))
  {
  }

  /** sbrk and growproc: refused exactly when the size would pass TRAPFRAME, and then nothing changes; otherwise the
      size grows by n and no byte changes, the new ones being zero. */
  lemma GrowMeans(s: Space, n: nat, lazily: bool)
    requires Inv(s) && Sized(s)
    ensures var (s', o) := Step(s, Grow(n), lazily);
      && o == Done(s.sz + n <= 0x3F_FFFF_E000)
      && s'.sz == (if s.sz + n <= 0x3F_FFFF_E000 then s.sz + n else s.sz)
      && Sized(s') && forall va: nat :: ByteOf(s', va) == ByteOf(s, va)
  {
    var s' := Step(s, Grow(n), lazily).0;
    forall va: nat ensures Sized(s') && ByteOf(s', va) == ByteOf(s, va) {
    }
  }

  /** A shrink by at most the size: the pages from the new size on are gone, the bytes below it are as they were.  A
      shrink by more than the size changes nothing. */
  lemma ShrinkMeans(s: Space, n: nat, lazily: bool)
    requires Inv(s) && Sized(s) && n <= 0x8000_0000
    ensures var (s', o) := Step(s, ShrinkBy(n), lazily);
      && o == Done(true) && Sized(s') && (n > s.sz ==> s' == s)
      && (n <= s.sz ==>
            && s'.sz == s.sz - n
            && forall va: nat :: ByteOf(s', va) == if va / PGSIZE < PagesOf(s.sz - n) then ByteOf(s, va) else 0)
  {
    ShrinkSize(s, n);
    if n <= s.sz {
      var s' := Shrink(s, n);
      forall va: nat ensures ByteOf(s', va) == if va / PGSIZE < PagesOf(s.sz - n) then ByteOf(s, va) else 0 {
      }
    }
  }
}
