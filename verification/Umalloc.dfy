/** free, morecore and malloc (user/umalloc.c). */
module Umalloc {
  import opened Std
  import opened FreeList

  // ---- A block on its way to the free list ----

  /** HeapInv, but for the block bp of length len, which is neither free nor allocated and whose header is being
      written. */
  ghost predicate Loose(base: nat, mem: Mem, free: set<nat>, alloc: Blocks, blocks: Blocks, tiling: Tiling, bp: nat,
                        len: nat) {
    && Tiled(blocks, tiling) && RingOk(base, mem, free) && base !in blocks
    && bp in blocks && blocks[bp] == len && bp !in free && bp !in alloc && bp > base
    && (forall b :: b in blocks <==> (b in free && b != base) || b in alloc || b == bp)
    && (forall b :: b in blocks && b != bp ==> b in mem && mem[b].size == blocks[b] && b > base)
    && (forall b :: b in alloc ==> b !in free && alloc[b] == blocks[b])
  }

  lemma Loosened(base: nat, mem: Mem, free: set<nat>, alloc: Blocks, blocks: Blocks, tiling: Tiling, bp: nat)
    requires HeapInv(base, mem, free, alloc, blocks, tiling) && bp in alloc
    ensures bp in mem && Loose(base, mem, free, alloc - {bp}, blocks, tiling, bp, mem[bp].size)
  {
  }

  /** The length of base is 0 and of every other free block that in the tiling. */
  lemma SlotRoom(base: nat, mem: Mem, free: set<nat>, alloc: Blocks, blocks: Blocks, tiling: Tiling, bp: nat, len: nat,
                 p: nat)
    requires Loose(base, mem, free, alloc, blocks, tiling, bp, len) && IsSlot(mem, free, bp, p)
    ensures p + mem[p].size <= bp && (mem[p].ptr > p ==> mem[p].ptr in blocks && bp + len <= mem[p].ptr)
    ensures len > 0
  {
    assert BlockOk(blocks, tiling, bp);
    assert NodeOk(base, mem, free, p);
    if p != base { Apart(blocks, tiling, p, bp); }
    if mem[p].ptr > p { Apart(blocks, tiling, bp, mem[p].ptr); }
  }

  /** bp takes in the block n that follows it. */
  lemma UpperJoined(base: nat, mem: Mem, free: set<nat>, alloc: Blocks, blocks: Blocks, tiling: Tiling, bp: nat,
                    len: nat, p: nat, n: nat)
    requires Loose(base, mem, free, alloc, blocks, tiling, bp, len) && IsSlot(mem, free, bp, p)
             && n == mem[p].ptr == bp + len
    ensures n in mem && n in blocks && n in free
    ensures var mem', free', len' := mem[p := mem[p].(ptr := mem[n].ptr)], free - {n}, len + mem[n].size;
      && Loose(base, mem', free', alloc, (blocks - {n})[bp := len'], Claim(tiling, bp, len'), bp, len')
      && IsSlot(mem', free', bp, p) && bp + len' != mem'[p].ptr
  {
    SlotRoom(base, mem, free, alloc, blocks, tiling, bp, len, p);
    assert NodeOk(base, mem, free, p) && NodeOk(base, mem, free, n);
    RingRemove(base, mem, free, p, n);
    Joined(blocks, tiling, bp, n);
    if mem[n].ptr > n { assert Gap(mem, n, mem[n].ptr); }
    hide Tiled, RingOk, Claim;
  }

  /** p takes in the block bp that follows it. */
  lemma LowerJoined(base: nat, mem: Mem, free: set<nat>, alloc: Blocks, blocks: Blocks, tiling: Tiling, bp: nat,
                    len: nat, p: nat)
    requires Loose(base, mem, free, alloc, blocks, tiling, bp, len) && IsSlot(mem, free, bp, p)
    requires p + mem[p].size == bp && bp + len != mem[p].ptr
    ensures p in blocks
    ensures var len' := mem[p].size + len;
            HeapInv(base, mem[p := mem[p].(size := len')], free, alloc, (blocks - {bp})[p := len'],
                    Claim(tiling, p, len'))
  {
    SlotRoom(base, mem, free, alloc, blocks, tiling, bp, len, p);
    RingResize(base, mem, free, p, mem[p].size + len);
    Joined(blocks, tiling, p, bp);
    hide Tiled, RingOk, Claim;
  }

  /** bp becomes a free block of its own after p. */
  lemma Settled(base: nat, mem: Mem, free: set<nat>, alloc: Blocks, blocks: Blocks, tiling: Tiling, bp: nat, len: nat,
                p: nat)
    requires Loose(base, mem, free, alloc, blocks, tiling, bp, len) && IsSlot(mem, free, bp, p)
    requires p + mem[p].size != bp && bp + len != mem[p].ptr
    ensures HeapInv(base, mem[bp := Header(mem[p].ptr, len)][p := Header(bp, mem[p].size)], free + {bp}, alloc, blocks,
                    tiling)
  {
    SlotRoom(base, mem, free, alloc, blocks, tiling, bp, len, p);
    RingInsert(base, mem, free, p, bp, len);
    hide Tiled, RingOk;
  }

  /** A header in the middle of a block says nothing. */
  lemma StaleHeader(base: nat, mem: Mem, free: set<nat>, alloc: Blocks, blocks: Blocks, tiling: Tiling, x: nat,
                    h: Header)
    requires HeapInv(base, mem, free, alloc, blocks, tiling) && x !in free && x !in blocks
    ensures HeapInv(base, mem[x := h], free, alloc, blocks, tiling)
  {
    OffRing(base, mem, free, x, h);
  }

  // ---- A block on its way out of the free list ----

  /** An exact fit: the whole block p, which follows prev. */
  lemma WholeTaken(base: nat, mem: Mem, free: set<nat>, alloc: Blocks, blocks: Blocks, tiling: Tiling, prev: nat,
                   p: nat)
    requires HeapInv(base, mem, free, alloc, blocks, tiling) && prev in free && prev in mem && p == mem[prev].ptr
             && p != base
    ensures p in mem && p in free && p !in alloc
    ensures HeapInv(base, mem[prev := mem[prev].(ptr := mem[p].ptr)], free - {p}, alloc[p := mem[p].size], blocks,
                    tiling)
  {
    RingRemove(base, mem, free, prev, p);
    hide Tiled, RingOk;
  }

  /** The last n units of a larger block. */
  lemma TailTaken(base: nat, mem: Mem, free: set<nat>, alloc: Blocks, blocks: Blocks, tiling: Tiling, p: nat, n: nat,
                  x: nat)
    requires HeapInv(base, mem, free, alloc, blocks, tiling) && p in free && p in mem && p != base
             && 0 < n < mem[p].size
    ensures var rest := mem[p].size - n; var c := p + rest;
      && c !in alloc && c !in free && p in blocks
      && HeapInv(base, mem[p := mem[p].(size := rest)][c := Header(x, n)], free, alloc[c := n],
                 blocks[p := rest][c := n], Claim(tiling, c, n))
  {
    var rest := mem[p].size - n;
    var c := p + rest;
    assert NodeOk(base, mem, free, p);
    if mem[p].ptr > p { assert Gap(mem, p, mem[p].ptr); }
    RingResize(base, mem, free, p, rest);
    Split(blocks, tiling, p, n);
    assert c !in free;
    var mem1 := mem[p := mem[p].(size := rest)];
    OffRing(base, mem1, free, c, Header(x, n));
    hide Tiled, RingOk;
  }

  lemma OffRing(base: nat, mem: Mem, free: set<nat>, x: nat, h: Header)
    requires RingOk(base, mem, free) && x !in free
    ensures RingOk(base, mem[x := h], free)
  {
    var mem' := mem[x := h];
    forall a | a in free ensures NodeOk(base, mem', free, a) {
      assert NodeOk(base, mem, free, a);
    }
    forall a, b | a in free && b in free && a < b ensures Gap(mem', a, b) {
      assert Gap(mem, a, b);
    }
  }

  /** New memory above base and outside the heap, as an allocated block. */
  lemma CoreAdded(base: nat, mem: Mem, free: set<nat>, alloc: Blocks, blocks: Blocks, tiling: Tiling, a: nat, nu: nat,
                  x: nat)
    requires HeapInv(base, mem, free, alloc, blocks, tiling) && a > base && nu > 0
             && forall u: nat :: a <= u < a + nu ==> u !in tiling
    ensures a !in alloc
    ensures HeapInv(base, mem[a := Header(x, nu)], free, alloc[a := nu], blocks[a := nu], Grown(tiling, a, nu))
  {
    Extended(blocks, tiling, a, nu);
    OffRing(base, mem, free, a, Header(x, nu));
    hide Tiled, RingOk;
  }

  // ---- Sizes ----

  /** nunits: the bytes rounded up to units, and one for the header.  sizeof makes the sum 64 bits wide. */
  function Units(nbytes: nat): nat {
    (nbytes + 15) / 16 + 1
  }

  /** What morecore asks for. */
  function Ask(nunits: nat): nat {
    if nunits < 4096 then 4096 else nunits
  }

  /** The value of x as a 32-bit int, as sbrk takes it. */
  function IntOf(x: nat): int {
    if x % 0x1_0000_0000 < 0x8000_0000 then x % 0x1_0000_0000 else x % 0x1_0000_0000 - 0x1_0000_0000
  }

  /** A grant holds the bytes asked for and wastes less than a unit; and the bytes that morecore asks sbrk for arrive
      there as the same number if and only if the request is at most 2^31 - 32 bytes. */
  lemma RequestFits(nbytes: nat)
    requires nbytes < 0x1_0000_0000
    ensures nbytes <= 16 * (Units(nbytes) - 1) < nbytes + 16
    ensures IntOf(16 * Ask(Units(nbytes))) == 16 * Ask(Units(nbytes)) <==> nbytes <= 0x7FFF_FFE0
  {
    var x := 16 * Ask(Units(nbytes));
    assert x < 0x1_0000_0020;
    if x < 0x1_0000_0000 { assert x % 0x1_0000_0000 == x; }
  }

  /** A free block of at least n units. */
  ghost predicate HasRoom(mem: Mem, free: set<nat>, n: nat) {
    exists f :: f in free && f in mem && mem[f].size >= n
  }

  /** The free blocks that the scan from freep has passed when it comes to p are too small. */
  ghost predicate Scanned(mem: Mem, free: set<nat>, freep: nat, p: nat, nunits: nat) {
    forall x :: x in free && x in mem && x !in Remaining(free, freep, p) ==> mem[x].size < nunits
  }

  /** f is the first free block after freep, going round the list, that has n units; its last n units begin one below
      r, and prev is the free block before f. */
  ghost predicate FirstFit(mem: Mem, free: set<nat>, freep: nat, n: nat, f: nat, r: nat, prev: nat) {
    && f in free && f in mem && mem[f].size >= n && Scanned(mem, free, freep, f, n)
    && r == f + mem[f].size - n + 1 && prev in free && prev in mem && mem[prev].ptr == f
  }

  class Heap {
    const base: nat
    var mem: Mem
    /** 0 until the first malloc. */
    var freep: nat
    ghost var free: set<nat>
    ghost var alloc: Blocks
    ghost var blocks: Blocks
    ghost var tiling: Tiling

    ghost predicate Ready()
      reads this
    {
      HeapInv(base, mem, free, alloc, blocks, tiling) && freep in free && base > 0
    }

    ghost predicate Valid()
      reads this
    {
      && base > 0
      && (freep == 0 ==> free == {} && alloc == map[] && blocks == map[] && tiling == map[])
      && (freep != 0 ==> Ready())
    }

    /** The scan of free: the free block after which bp belongs. */
    method FindSlot(bp: nat) returns (p: nat)
      requires Ready() && base < bp && bp !in free
      ensures IsSlot(mem, free, bp, p)
    {
      hide Tiled;
      ghost var t := SlotExists(base, mem, free, bp);
      p := freep;
      assert NodeOk(base, mem, free, p);
      while !ScanEnds(bp, p, mem[p].ptr)
        invariant p in free && p in mem
        decreases |Remaining(free, t, p)|
      {
        ScanEndsAtSlot(base, mem, free, bp, t);
        RemainingNext(base, mem, free, t, p);
        p := mem[p].ptr;
        assert NodeOk(base, mem, free, p);
      }
      ScanEndsAtSlot(base, mem, free, bp, p);
    }

    /** free, of the block whose header is at bp: it is merged with the free blocks it touches. */
    method Free(bp: nat) returns (ghost f: nat)
      requires Ready() && bp in alloc
      modifies this
      ensures Ready() && alloc == old(alloc) - {bp} && tiling.Keys == old(tiling).Keys
      ensures bp in old(mem) && f in free && f in mem && f <= bp && bp + old(mem)[bp].size <= f + mem[f].size
      ensures IsSlot(old(mem), old(free), bp, freep)
    {
      hide Tiled, RingOk, HeapInv, Loose;
      AllocBlock(base, mem, free, alloc, blocks, tiling, bp);
      var p := FindSlot(bp);
      Loosened(base, mem, free, alloc, blocks, tiling, bp);
      alloc := alloc - {bp};
      f := Merge(bp, mem[bp].size, p);
      freep := p;
    }

    /** The two merges of free. */
    method Merge(bp: nat, size: nat, p: nat) returns (ghost f: nat)
      requires Loose(base, mem, free, alloc, blocks, tiling, bp, size) && IsSlot(mem, free, bp, p) && bp in mem
               && mem[bp].size == size
      modifies this`mem, this`free, this`blocks, this`tiling
      ensures HeapInv(base, mem, free, alloc, blocks, tiling) && p in free && tiling.Keys == old(tiling).Keys
      ensures f in free && f in mem && f <= bp && bp + size <= f + mem[f].size
    {
      hide Tiled, RingOk, HeapInv, Loose;
      var n := mem[p].ptr;
      var len := size;
      ghost var m := mem;
      if bp + size == n {
        UpperJoined(base, mem, free, alloc, blocks, tiling, bp, size, p, n);
        len := size + mem[n].size;
        m := mem[p := mem[p].(ptr := mem[n].ptr)];
        mem := mem[bp := Header(mem[n].ptr, len)];
        free := free - {n};
        blocks := (blocks - {n})[bp := len];
        tiling := Claim(tiling, bp, len);
      } else {
        mem := mem[bp := Header(n, len)];
      }
      f := MergeDown(bp, len, p, m);
    }

    /** The second merge; m is the memory in which p is already followed by the block after bp. */
    method MergeDown(bp: nat, len: nat, p: nat, ghost m: Mem) returns (ghost f: nat)
      requires Loose(base, m, free, alloc, blocks, tiling, bp, len) && IsSlot(m, free, bp, p) && bp + len != m[p].ptr
      requires p in mem && bp in mem && mem[bp] == Header(m[p].ptr, len) && mem[p].size == m[p].size
      requires mem[p := m[p]] == m[bp := mem[bp]]
      modifies this`mem, this`free, this`blocks, this`tiling
      ensures HeapInv(base, mem, free, alloc, blocks, tiling) && p in free && tiling.Keys == old(tiling).Keys
      ensures f in free && f in mem && f <= bp && bp + len <= f + mem[f].size
    {
      hide Tiled, RingOk, HeapInv, Loose;
      LooseApart(base, m, free, alloc, blocks, tiling, bp, len, p);
      if p + mem[p].size == bp {
        LowerJoined(base, m, free, alloc, blocks, tiling, bp, len, p);
        ghost var m' := m[p := m[p].(size := m[p].size + len)];
        ghost var b', t' := (blocks - {bp})[p := m[p].size + len], Claim(tiling, p, m[p].size + len);
        StaleHeader(base, m', free, alloc, b', t', bp, mem[bp]);
        SameHeaders(mem, m, p, bp, m'[p]);
        mem := mem[p := Header(mem[bp].ptr, mem[p].size + mem[bp].size)];
        blocks, tiling := b', t';
        f := p;
      } else {
        Settled(base, m, free, alloc, blocks, tiling, bp, len, p);
        SameHeaders(mem, m, p, bp, Header(bp, m[p].size));
        mem := mem[p := mem[p].(ptr := bp)];
        free := free + {bp};
        f := bp;
      }
    }

    /** The branch of malloc that has found room: the block's address. */
    method Grab(prevp: nat, p0: nat, nunits: nat) returns (p: nat)
      requires Ready() && prevp in free && prevp in mem && p0 == mem[prevp].ptr && p0 in mem
               && mem[p0].size >= nunits > 0
      modifies this
      ensures Ready() && p !in old(alloc) && alloc == old(alloc)[p := nunits] && tiling.Keys == old(tiling).Keys
      ensures p == p0 + old(mem)[p0].size - nunits && freep == prevp
    {
      hide Tiled, RingOk, HeapInv, Claim;
      NotBase(base, mem, free, alloc, blocks, tiling, prevp, nunits);
      p := p0;
      if mem[p].size == nunits {
        WholeTaken(base, mem, free, alloc, blocks, tiling, prevp, p);
        mem := mem[prevp := mem[prevp].(ptr := mem[p].ptr)];
        free := free - {p};
        alloc := alloc[p := nunits];
      } else {
        var rest := mem[p].size - nunits;
        var c := p + rest;
        ghost var x := if c in mem then mem[c].ptr else 0;
        TailTaken(base, mem, free, alloc, blocks, tiling, p, nunits, x);
        ClaimKeys(tiling, c, nunits);
        blocks := blocks[p := rest][c := nunits];
        mem := mem[p := mem[p].(size := rest)];
        p := c;
        mem := mem[p := Header(if p in mem then mem[p].ptr else 0, nunits)];
        tiling := Claim(tiling, p, nunits);
        alloc := alloc[p := nunits];
      }
      freep := prevp;
    }

    /** morecore: `core` is what sbrk answers, None for SBRK_ERROR; 0 is no memory. */
    method MoreCore(nunits: nat, core: Option<nat>) returns (p: nat)
      requires Ready() && nunits > 0
      requires core.Some? ==> base < core.value && forall u: nat :: core.value <= u < core.value + Ask(nunits) ==>
                 u !in tiling
      modifies this
      ensures Ready() && alloc == old(alloc) && (p == 0 <==> core.None?)
      ensures core.None? ==> mem == old(mem) && free == old(free) && freep == old(freep) && tiling == old(tiling)
      ensures core.Some? ==>
                p == freep && HasRoom(mem, free, nunits)
                    && tiling.Keys == old(tiling).Keys + Span(core.value, Ask(nunits))
    {
      hide Tiled, RingOk, HeapInv;
      if core.None? { return 0; }
      var nu := Ask(nunits);
      var hp := core.value;
      ghost var a0, t0 := alloc, tiling;
      CoreAdded(base, mem, free, alloc, blocks, tiling, hp, nu, if hp in mem then mem[hp].ptr else 0);
      mem := mem[hp := Header(if hp in mem then mem[hp].ptr else 0, nu)];
      alloc, blocks, tiling := alloc[hp := nu], blocks[hp := nu], Grown(tiling, hp, nu);
      assert tiling.Keys == t0.Keys + Span(hp, nu);
      ghost var f := Free(hp);
      assert a0[hp := nu] - {hp} == a0;
      assert mem[f].size >= nunits;
      RingNotZero(base, mem, free, alloc, blocks, tiling, freep);
      return freep;
    }

    /** malloc: the address after the header, in units; `core` is what sbrk would answer if morecore asked it.
        There is at most one call of morecore, and only if no free block is large enough. */
    method Malloc(nbytes: nat, core: Option<nat>) returns (r: Option<nat>)
      requires Valid() && nbytes <= 0x7FFF_FFE0
      requires core.Some? ==>
                 base < core.value && forall u: nat :: core.value <= u < core.value + Ask(Units(nbytes)) ==>
                       u !in tiling
      modifies this
      ensures Valid() && freep != 0
      ensures r.Some? ==>
                && r.value > 0 && r.value - 1 !in old(alloc) && alloc == old(alloc)[r.value - 1 := Units(nbytes)]
                && (old(HasRoom(mem, free, Units(nbytes))) ==> tiling.Keys == old(tiling).Keys)
                && (!old(HasRoom(mem, free, Units(nbytes))) ==>
                    core.Some? && tiling.Keys == old(tiling).Keys + Span(core.value, Ask(Units(nbytes))))
      ensures r.None? ==> core.None? && !old(HasRoom(mem, free, Units(nbytes))) && alloc == old(alloc)
                          && tiling == old(tiling)
      ensures old(HasRoom(mem, free, Units(nbytes))) ==>
                && r.Some? && r.value > 0
                && exists f :: FirstFit(old(mem), old(free), old(freep), Units(nbytes), f, r.value, freep)
    {
      var nunits := Units(nbytes);
      var prevp := freep;
      if prevp == 0 {
        InitialHeap(base, mem);
        mem := mem[base := Header(base, 0)];
        freep, free := base, {base};
        prevp := base;
      }
      r := Search(prevp, nunits, core);
    }

    /** malloc, and free of what it gave: nothing more is allocated than before.  If a free block was large enough, the
        free list is the one there was, block for block and header for header, whatever was split and merged;
        otherwise the heap has grown by what sbrk gave. */
    method MallocFree(nbytes: nat, core: Option<nat>) returns (r: Option<nat>)
      requires Valid() && nbytes <= 0x7FFF_FFE0
      requires core.Some? ==>
                 base < core.value && forall u: nat :: core.value <= u < core.value + Ask(Units(nbytes)) ==>
                       u !in tiling
      modifies this
      ensures Valid() && alloc == old(alloc)
      ensures old(HasRoom(mem, free, Units(nbytes))) ==>
                && r.Some? && free == old(free) && tiling.Keys == old(tiling).Keys
                && forall f :: f in free ==> f in mem && f in old(mem) && mem[f] == old(mem)[f]
      ensures !old(HasRoom(mem, free, Units(nbytes))) ==>
                && r.Some? == core.Some?
                && tiling.Keys == old(tiling).Keys + if core.Some? then Span(core.value, Ask(Units(nbytes))) else {}
    {
      hide HeapInv;
      ghost var mem0, free0, alloc0, blocks0, tiling0 := mem, free, alloc, blocks, tiling;
      r := Malloc(nbytes, core);
      if r.Some? {
        ghost var _ := Free(r.value - 1);
        RingNotZero(base, mem, free, alloc, blocks, tiling, freep);
        assert alloc == alloc0;
        if old(HasRoom(mem, free, Units(nbytes))) {
          FreeListUnique(base, mem0, free0, blocks0, tiling0, mem, free, blocks, tiling, alloc0);
        }
      }
    }

    /** The loop of malloc, from prevp == freep on. */
    method Search(start: nat, nunits: nat, core: Option<nat>) returns (r: Option<nat>)
      requires Ready() && start == freep && nunits > 0
      requires core.Some? ==> base < core.value && forall u: nat :: core.value <= u < core.value + Ask(nunits) ==>
                 u !in tiling
      modifies this
      ensures Ready()
      ensures r.Some? ==>
                && r.value > 0 && r.value - 1 !in old(alloc) && alloc == old(alloc)[r.value - 1 := nunits]
                && (old(HasRoom(mem, free, nunits)) ==> tiling.Keys == old(tiling).Keys)
                && (!old(HasRoom(mem, free, nunits)) ==>
                    core.Some? && tiling.Keys == old(tiling).Keys + Span(core.value, Ask(nunits)))
      ensures r.None? ==> core.None? && !old(HasRoom(mem, free, nunits)) && alloc == old(alloc) && tiling == old(tiling)
      ensures old(HasRoom(mem, free, nunits)) ==>
                && r.Some? && r.value > 0
                && exists f :: FirstFit(old(mem), old(free), old(freep), nunits, f, r.value, freep)
    {
      hide Tiled, RingOk, HeapInv, Remaining;
      var prevp := start;
      StartScan(base, mem, free, alloc, blocks, tiling, freep, nunits);
      var p := mem[prevp].ptr;
      ghost var asked := false;
      while true
        invariant Ready() && prevp in free && prevp in mem && p == mem[prevp].ptr && alloc == old(alloc)
        invariant Scanned(mem, free, freep, p, nunits)
        invariant !asked ==> mem == old(mem) && free == old(free) && freep == old(freep) && tiling == old(tiling)
        invariant asked ==> HasRoom(mem, free, nunits) && !old(HasRoom(mem, free, nunits))
        invariant asked ==> core.Some? && tiling.Keys == old(tiling).Keys + Span(core.value, Ask(nunits))
        decreases if asked then 0 else 1, |Remaining(free, freep, p)|
      {
        InFree(base, mem, free, alloc, blocks, tiling, prevp);
        if mem[p].size >= nunits {
          assert HasRoom(mem, free, nunits);
          ghost var f := p;
          p := Grab(prevp, p, nunits);
          assert !asked ==> FirstFit(old(mem), old(free), old(freep), nunits, f, p + 1, freep);
          return Some(p + 1);
        }
        if p == freep {
          AllScanned(base, mem, free, alloc, blocks, tiling, freep, nunits);
          p := MoreCore(nunits, core);
          if p == 0 { return None; }
          asked := true;
          StartScan(base, mem, free, alloc, blocks, tiling, freep, nunits);
        } else {
          ScanNext(base, mem, free, alloc, blocks, tiling, freep, p, nunits);
        }
        prevp := p;
        p := mem[p].ptr;
      }
    }
  }

  lemma ClaimKeys(tiling: Tiling, b: nat, len: nat)
    ensures Claim(tiling, b, len).Keys == tiling.Keys
  {
  }

  lemma InFree(base: nat, mem: Mem, free: set<nat>, alloc: Blocks, blocks: Blocks, tiling: Tiling, a: nat)
    requires HeapInv(base, mem, free, alloc, blocks, tiling) && a in free
    ensures a in mem && mem[a].ptr in free && mem[a].ptr in mem
  {
    assert NodeOk(base, mem, free, a);
    assert NodeOk(base, mem, free, mem[a].ptr);
  }

  lemma StartScan(base: nat, mem: Mem, free: set<nat>, alloc: Blocks, blocks: Blocks, tiling: Tiling, freep: nat,
                  nunits: nat)
    requires HeapInv(base, mem, free, alloc, blocks, tiling) && freep in free
    ensures freep in mem && Scanned(mem, free, freep, mem[freep].ptr, nunits)
  {
    assert NodeOk(base, mem, free, freep);
    RemainingAll(base, mem, free, freep);
  }

  lemma ScanNext(base: nat, mem: Mem, free: set<nat>, alloc: Blocks, blocks: Blocks, tiling: Tiling, freep: nat,
                 p: nat, nunits: nat)
    requires HeapInv(base, mem, free, alloc, blocks, tiling) && freep in free && p in free && p in mem && p != freep
    requires Scanned(mem, free, freep, p, nunits) && mem[p].size < nunits
    ensures Scanned(mem, free, freep, mem[p].ptr, nunits)
    ensures |Remaining(free, freep, mem[p].ptr)| < |Remaining(free, freep, p)|
  {
    RemainingNext(base, mem, free, freep, p);
  }

  lemma AllScanned(base: nat, mem: Mem, free: set<nat>, alloc: Blocks, blocks: Blocks, tiling: Tiling, freep: nat,
                   nunits: nat)
    requires HeapInv(base, mem, free, alloc, blocks, tiling) && freep in free && freep in mem
    requires Scanned(mem, free, freep, freep, nunits) && mem[freep].size < nunits
    ensures !HasRoom(mem, free, nunits)
  {
    assert forall x :: x in free && x != freep ==> x !in Remaining(free, freep, freep);
  }

  /** base has no room to give. */
  lemma NotBase(base: nat, mem: Mem, free: set<nat>, alloc: Blocks, blocks: Blocks, tiling: Tiling, prev: nat, n: nat)
    requires HeapInv(base, mem, free, alloc, blocks, tiling) && prev in free && prev in mem && n > 0
    ensures mem[prev].ptr in mem && mem[prev].ptr in free && (mem[mem[prev].ptr].size >= n ==> mem[prev].ptr != base)
    ensures mem[prev].ptr != base ==> prev != mem[prev].ptr
  {
    assert NodeOk(base, mem, free, prev);
    assert NodeOk(base, mem, free, mem[prev].ptr);
  }

  lemma RingNotZero(base: nat, mem: Mem, free: set<nat>, alloc: Blocks, blocks: Blocks, tiling: Tiling, a: nat)
    requires HeapInv(base, mem, free, alloc, blocks, tiling) && a in free && base > 0
    ensures a != 0
  {
    assert NodeOk(base, mem, free, a);
  }

  lemma InitialHeap(base: nat, mem: Mem)
    ensures HeapInv(base, mem[base := Header(base, 0)], {base}, map[], map[], map[])
  {
    var mem' := mem[base := Header(base, 0)];
    assert NodeOk(base, mem', {base}, base);
  }

  /** Memories that differ at p only, once bp's header is written, agree when p's is. */
  lemma SameHeaders(mem: Mem, m: Mem, p: nat, bp: nat, h: Header)
    requires p in m && bp in mem && p != bp && mem[p := m[p]] == m[bp := mem[bp]]
    ensures mem[p := h] == m[p := h][bp := mem[bp]] == m[bp := mem[bp]][p := h]
  {
    var a, b := mem[p := m[p]], m[bp := mem[bp]];
    assert mem[p := h] == a[p := h];
    assert m[p := h][bp := mem[bp]] == b[p := h];
  }

  lemma LooseApart(base: nat, mem: Mem, free: set<nat>, alloc: Blocks, blocks: Blocks, tiling: Tiling, bp: nat,
                   len: nat, p: nat)
    requires Loose(base, mem, free, alloc, blocks, tiling, bp, len) && IsSlot(mem, free, bp, p)
    ensures bp !in free && p != bp && bp > base
  {
  }

  lemma AllocBlock(base: nat, mem: Mem, free: set<nat>, alloc: Blocks, blocks: Blocks, tiling: Tiling, bp: nat)
    requires HeapInv(base, mem, free, alloc, blocks, tiling) && bp in alloc
    ensures bp in mem && base < bp && bp !in free && mem[bp].size == alloc[bp]
  {
  }


  // ---- The free list is determined by what is allocated ----

  /** A unit outside the allocated blocks lies in a free block. */
  lemma FreeUnit(base: nat, mem: Mem, free: set<nat>, alloc: Blocks, blocks: Blocks, tiling: Tiling, u: nat)
    requires HeapInv(base, mem, free, alloc, blocks, tiling) && u in tiling && forall b :: b in alloc ==>
               !(b <= u < b + alloc[b])
    ensures tiling[u] in free && tiling[u] in blocks && tiling[u] in mem
            && tiling[u] <= u < tiling[u] + mem[tiling[u]].size
  {
    assert UnitOk(blocks, tiling, u);
  }

  /** And a unit of a free block lies in no allocated block. */
  lemma FreeBlockUnit(base: nat, mem: Mem, free: set<nat>, alloc: Blocks, blocks: Blocks, tiling: Tiling, f: nat,
                      u: nat)
    requires HeapInv(base, mem, free, alloc, blocks, tiling) && f in free && f in blocks && f <= u < f + blocks[f]
    ensures u in tiling && forall b :: b in alloc ==> !(b <= u < b + alloc[b])
  {
    assert BlockOk(blocks, tiling, f);
    assert u in tiling && tiling[u] == f;
    forall b | b in alloc ensures !(b <= u < b + alloc[b]) {
      assert b in blocks && BlockOk(blocks, tiling, b);
      assert Covers(tiling, b, blocks[b]);
    }
  }

  lemma RingGap(base: nat, mem: Mem, free: set<nat>, a: nat, b: nat)
    requires RingOk(base, mem, free) && a in free && b in free && a < b
    ensures a in mem && a + mem[a].size < b
  {
    assert Gap(mem, a, b);
  }

  /** No free block ends where another begins, so a free unit next to a free block belongs to it. */
  lemma MaximalRun(base: nat, mem: Mem, free: set<nat>, alloc: Blocks, blocks: Blocks, tiling: Tiling, f: nat, u: nat)
    requires HeapInv(base, mem, free, alloc, blocks, tiling) && f in free && f in blocks
    requires u in tiling && (forall b :: b in alloc ==> !(b <= u < b + alloc[b])) && f <= u + 1 && u <= f + blocks[f]
    ensures f <= u < f + blocks[f]
  {
    FreeUnit(base, mem, free, alloc, blocks, tiling, u);
    var g := tiling[u];
    if g < f { RingGap(base, mem, free, g, f); } else if f < g { RingGap(base, mem, free, f, g); }
  }

  /** A free block of one heap is within a free block of any other with the same units and the same allocated blocks. */
  lemma {:induction false} SameRun(base: nat, mem1: Mem, free1: set<nat>, blocks1: Blocks, tiling1: Tiling,
                                   mem2: Mem, free2: set<nat>, blocks2: Blocks, tiling2: Tiling, alloc: Blocks, f: nat,
                                       g: nat, n: nat)
    requires HeapInv(base, mem1, free1, alloc, blocks1, tiling1) && HeapInv(base, mem2, free2, alloc, blocks2, tiling2)
    requires tiling1.Keys == tiling2.Keys && f in free1 && f in blocks1 && 0 < n <= blocks1[f]
    requires g in free2 && g in blocks2 && g <= f < g + blocks2[g]
    ensures f + n <= g + blocks2[g]
  {
    if n > 1 {
      SameRun(base, mem1, free1, blocks1, tiling1, mem2, free2, blocks2, tiling2, alloc, f, g, n - 1);
      FreeBlockUnit(base, mem1, free1, alloc, blocks1, tiling1, f, f + n - 1);
      MaximalRun(base, mem2, free2, alloc, blocks2, tiling2, g, f + n - 1);
    }
  }

  lemma SameBlock(base: nat, mem1: Mem, free1: set<nat>, blocks1: Blocks, tiling1: Tiling,
                  mem2: Mem, free2: set<nat>, blocks2: Blocks, tiling2: Tiling, alloc: Blocks, f: nat)
    requires HeapInv(base, mem1, free1, alloc, blocks1, tiling1) && HeapInv(base, mem2, free2, alloc, blocks2, tiling2)
    requires tiling1.Keys == tiling2.Keys && f in free1 && f != base
    ensures f in free2 && f in blocks1 && f in blocks2 && blocks1[f] <= blocks2[f]
  {
    hide HeapInv;
    BlockLength(base, mem1, free1, alloc, blocks1, tiling1, f);
    FreeBlockUnit(base, mem1, free1, alloc, blocks1, tiling1, f, f);
    FreeUnit(base, mem2, free2, alloc, blocks2, tiling2, f);
    var g := tiling2[f];
    BlockLengthAt(base, mem2, free2, alloc, blocks2, tiling2, g);
    if g < f {
      FreeBlockUnit(base, mem2, free2, alloc, blocks2, tiling2, g, f - 1);
      MaximalRun(base, mem1, free1, alloc, blocks1, tiling1, f, f - 1);
    }
    SameRun(base, mem1, free1, blocks1, tiling1, mem2, free2, blocks2, tiling2, alloc, f, g, blocks1[f]);
  }

  lemma BlockLength(base: nat, mem: Mem, free: set<nat>, alloc: Blocks, blocks: Blocks, tiling: Tiling, f: nat)
    requires HeapInv(base, mem, free, alloc, blocks, tiling) && f in free && f != base
    ensures f in blocks && f in mem && blocks[f] == mem[f].size > 0
  {
    assert BlockOk(blocks, tiling, f);
  }

  lemma BlockLengthAt(base: nat, mem: Mem, free: set<nat>, alloc: Blocks, blocks: Blocks, tiling: Tiling, f: nat)
    requires HeapInv(base, mem, free, alloc, blocks, tiling) && f in free && f in blocks && f in mem
    ensures blocks[f] == mem[f].size
  {
  }

  /** What is allocated and the heap's units determine the free list: its blocks, their lengths and their order. */
  lemma FreeListUnique(base: nat, mem1: Mem, free1: set<nat>, blocks1: Blocks, tiling1: Tiling,
                       mem2: Mem, free2: set<nat>, blocks2: Blocks, tiling2: Tiling, alloc: Blocks)
    requires HeapInv(base, mem1, free1, alloc, blocks1, tiling1) && HeapInv(base, mem2, free2, alloc, blocks2, tiling2)
    requires tiling1.Keys == tiling2.Keys
    ensures free1 == free2 && forall f :: f in free1 ==> f in mem1 && f in mem2 && mem1[f] == mem2[f]
  {
    forall f ensures f in free1 <==> f in free2 {
      if f in free1 && f != base { SameBlock(base, mem1, free1, blocks1, tiling1, mem2, free2, blocks2, tiling2, alloc,
                                             f); }
      if f in free2 && f != base { SameBlock(base, mem2, free2, blocks2, tiling2, mem1, free1, blocks1, tiling1, alloc,
                                             f); }
    }
    forall f | f in free1 ensures f in mem1 && f in mem2 && mem1[f] == mem2[f] {
      assert NodeOk(base, mem1, free1, f) && NodeOk(base, mem2, free2, f);
      if f != base {
        SameBlock(base, mem1, free1, blocks1, tiling1, mem2, free2, blocks2, tiling2, alloc, f);
        SameBlock(base, mem2, free2, blocks2, tiling2, mem1, free1, blocks1, tiling1, alloc, f);
      }
    }
  }
}
