/** The data of the allocator in user/umalloc.c, after section 8.7 of The C Programming Language, 2nd edition: a ring
    of free blocks in address order, and a heap tiled by free and allocated blocks. Addresses count units of one
    header. */
module FreeList {
  /** The header at the start of a block; ptr is the next free block's address. */
  datatype Header = Header(ptr: nat, size: nat)
  type Mem = map<nat, Header>

  // ---- Tilings ----

  /** Blocks by address, with their lengths. */
  type Blocks = map<nat, nat>
  /** The block that each unit of the heap belongs to. */
  type Tiling = map<nat, nat>

  /** The blocks are disjoint and not empty, and their units are exactly the units of the heap. */
  ghost predicate Tiled(blocks: Blocks, tiling: Tiling) {
    && (forall u {:trigger UnitOk(blocks, tiling, u)} :: u in tiling ==> UnitOk(blocks, tiling, u))
    && (forall b {:trigger BlockOk(blocks, tiling, b)} :: b in blocks ==> BlockOk(blocks, tiling, b))
  }

  ghost predicate UnitOk(blocks: Blocks, tiling: Tiling, u: nat) {
    u in tiling && tiling[u] in blocks && tiling[u] <= u < tiling[u] + blocks[tiling[u]]
  }

  ghost predicate BlockOk(blocks: Blocks, tiling: Tiling, b: nat) {
    b in blocks && blocks[b] > 0 && Covers(tiling, b, blocks[b])
  }

  ghost predicate Covers(tiling: Tiling, b: nat, len: nat) {
    forall u: nat :: b <= u < b + len ==> u in tiling && tiling[u] == b
  }

  /** The units of [b, b + len) as one block. */
  ghost function Claim(tiling: Tiling, b: nat, len: nat): Tiling {
    map u | u in tiling :: if b <= u < b + len then b else tiling[u]
  }

  /** Of two blocks the one lies after the end of the other. */
  lemma Apart(blocks: Blocks, tiling: Tiling, b: nat, c: nat)
    requires Tiled(blocks, tiling) && b in blocks && c in blocks && b < c
    ensures b + blocks[b] <= c
  {
    assert BlockOk(blocks, tiling, b) && BlockOk(blocks, tiling, c);
    assert c in tiling && tiling[c] == c;
  }

  lemma CoversBeside(tiling: Tiling, b: nat, len: nat, a: nat, la: nat)
    requires Covers(tiling, a, la) && (a + la <= b || b + len <= a)
    ensures Covers(Claim(tiling, b, len), a, la)
  {
  }

  /** Two blocks that touch become one. */
  lemma Joined(blocks: Blocks, tiling: Tiling, b: nat, c: nat)
    requires Tiled(blocks, tiling) && b in blocks && c in blocks && b + blocks[b] == c
    ensures Tiled((blocks - {c})[b := blocks[b] + blocks[c]], Claim(tiling, b, blocks[b] + blocks[c]))
  {
    var len := blocks[b] + blocks[c];
    var blocks', tiling' := (blocks - {c})[b := len], Claim(tiling, b, len);
    assert BlockOk(blocks, tiling, b) && BlockOk(blocks, tiling, c);
    forall a | a in blocks' ensures BlockOk(blocks', tiling', a) {
      if a != b {
        assert BlockOk(blocks, tiling, a);
        if a < b { Apart(blocks, tiling, a, b); } else { Apart(blocks, tiling, b, a); Apart(blocks, tiling, c, a); }
        CoversBeside(tiling, b, len, a, blocks[a]);
      }
    }
    forall u | u in tiling' ensures UnitOk(blocks', tiling', u) {
      assert UnitOk(blocks, tiling, u);
    }
  }

  /** A block gives up its last n units as a block of their own. */
  lemma Split(blocks: Blocks, tiling: Tiling, b: nat, n: nat)
    requires Tiled(blocks, tiling) && b in blocks && 0 < n < blocks[b]
    ensures var c := b + (blocks[b] - n);
            c !in blocks && Tiled(blocks[b := blocks[b] - n][c := n], Claim(tiling, c, n))
  {
    var c := b + (blocks[b] - n);
    assert BlockOk(blocks, tiling, b);
    if c in blocks { Apart(blocks, tiling, b, c); }
    var blocks', tiling' := blocks[b := blocks[b] - n][c := n], Claim(tiling, c, n);
    forall a | a in blocks' ensures BlockOk(blocks', tiling', a) {
      if a != c && a != b {
        assert BlockOk(blocks, tiling, a);
        if a < b { Apart(blocks, tiling, a, b); } else { Apart(blocks, tiling, b, a); }
        CoversBeside(tiling, c, n, a, blocks[a]);
      }
    }
    forall u | u in tiling' ensures UnitOk(blocks', tiling', u) {
      assert UnitOk(blocks, tiling, u);
    }
  }

  /** The units of len from b on. */
  ghost function Span(b: nat, len: nat): (s: set<nat>)
    ensures forall u: nat :: u in s <==> b <= u < b + len
  {
    if len == 0 then {} else Span(b, len - 1) + {b + len - 1}
  }

  ghost function Grown(tiling: Tiling, b: nat, len: nat): Tiling {
    tiling + map u | u in Span(b, len) :: b
  }

  /** New memory from sbrk is a block of its own. */
  lemma Extended(blocks: Blocks, tiling: Tiling, b: nat, len: nat)
    requires Tiled(blocks, tiling) && len > 0 && forall u: nat :: b <= u < b + len ==> u !in tiling
    ensures b !in blocks && Tiled(blocks[b := len], Grown(tiling, b, len))
  {
    assert b !in tiling;
    assert b in blocks ==> BlockOk(blocks, tiling, b);
    var blocks', tiling' := blocks[b := len], Grown(tiling, b, len);
    forall a | a in blocks' ensures BlockOk(blocks', tiling', a) {
      if a != b { assert BlockOk(blocks, tiling, a); }
    }
    forall u | u in tiling' ensures UnitOk(blocks', tiling', u) {
      if u in tiling { assert UnitOk(blocks, tiling, u) && tiling[u] != b; }
    }
  }

  // ---- The ring ----

  /** b comes after a in the ring: the next free block by address, or base after the last. */
  ghost predicate IsNext(base: nat, free: set<nat>, a: nat, b: nat) {
    && b in free
    && (b > a ==> forall x :: x in free && x > a ==> b <= x)
    && (b <= a ==> b == base && forall x :: x in free ==> x <= a)
  }

  ghost predicate NodeOk(base: nat, mem: Mem, free: set<nat>, a: nat) {
    a in free && a in mem && base <= a && IsNext(base, free, a, mem[a].ptr)
  }

  ghost predicate Gap(mem: Mem, a: nat, b: nat) {
    a in mem && a + mem[a].size < b
  }

  /** The free list: base and the free blocks in address order, none overlapping or touching the next. */
  ghost predicate RingOk(base: nat, mem: Mem, free: set<nat>) {
    && base in free && base in mem && mem[base].size == 0
    && (forall a {:trigger NodeOk(base, mem, free, a)} :: a in free ==> NodeOk(base, mem, free, a))
    && (forall a, b {:trigger Gap(mem, a, b)} :: a in free && b in free && a < b ==> Gap(mem, a, b))
  }

  /** p->s.ptr = n->s.ptr takes n out, where n comes after p. */
  lemma RingRemove(base: nat, mem: Mem, free: set<nat>, p: nat, n: nat)
    requires RingOk(base, mem, free) && p in free && p in mem && n == mem[p].ptr && n != base
    ensures n in mem && n in free && RingOk(base, mem[p := mem[p].(ptr := mem[n].ptr)], free - {n})
  {
    assert NodeOk(base, mem, free, p) && NodeOk(base, mem, free, n);
    var mem', free' := mem[p := mem[p].(ptr := mem[n].ptr)], free - {n};
    forall a | a in free' ensures NodeOk(base, mem', free', a) {
      assert NodeOk(base, mem, free, a);
    }
    forall a, b | a in free' && b in free' && a < b ensures Gap(mem', a, b) {
      assert Gap(mem, a, b);
    }
  }

  /** The free blocks lie before p's end or past the block that follows p: there is room at bp. */
  lemma RoomAfter(base: nat, mem: Mem, free: set<nat>, p: nat, bp: nat, len: nat, a: nat)
    requires RingOk(base, mem, free) && p in free && p in mem && p + mem[p].size < bp
             && (mem[p].ptr > p ==> bp + len < mem[p].ptr)
    requires a in free
    ensures a in mem && if a <= p then a + mem[a].size < bp else bp + len < a
  {
    assert NodeOk(base, mem, free, p) && NodeOk(base, mem, free, a);
    if a < p { assert Gap(mem, a, p); }
  }

  lemma InsertNode(base: nat, mem: Mem, free: set<nat>, p: nat, bp: nat, len: nat, a: nat)
    requires RingOk(base, mem, free) && p in free && p in mem && p + mem[p].size < bp
             && (mem[p].ptr > p ==> bp + len < mem[p].ptr)
    requires a in free + {bp}
    ensures NodeOk(base, mem[bp := Header(mem[p].ptr, len)][p := Header(bp, mem[p].size)], free + {bp}, a)
  {
    assert NodeOk(base, mem, free, p);
    if a in free {
      assert NodeOk(base, mem, free, a);
      RoomAfter(base, mem, free, p, bp, len, a);
    }
  }

  /** The block bp of length len goes in after p. */
  lemma RingInsert(base: nat, mem: Mem, free: set<nat>, p: nat, bp: nat, len: nat)
    requires RingOk(base, mem, free) && p in free && p in mem && p + mem[p].size < bp
             && (mem[p].ptr > p ==> bp + len < mem[p].ptr)
    ensures RingOk(base, mem[bp := Header(mem[p].ptr, len)][p := Header(bp, mem[p].size)], free + {bp})
  {
    hide IsNext;
    var mem', free' := mem[bp := Header(mem[p].ptr, len)][p := Header(bp, mem[p].size)], free + {bp};
    forall a | a in free' ensures NodeOk(base, mem', free', a) {
      InsertNode(base, mem, free, p, bp, len, a);
    }
    forall a | a in free ensures a in mem && if a <= p then a + mem[a].size < bp else bp + len < a {
      RoomAfter(base, mem, free, p, bp, len, a);
    }
    forall a, b | a in free' && b in free' && a < b ensures Gap(mem', a, b) {
      if a != bp && b != bp { assert Gap(mem, a, b); }
    }
  }

  /** A free block changes its length within its gap. */
  lemma RingResize(base: nat, mem: Mem, free: set<nat>, p: nat, len: nat)
    requires RingOk(base, mem, free) && p in free && p in mem && p != base && (mem[p].ptr > p ==> p + len < mem[p].ptr)
    ensures RingOk(base, mem[p := mem[p].(size := len)], free)
  {
    assert NodeOk(base, mem, free, p);
    var mem' := mem[p := mem[p].(size := len)];
    forall a | a in free ensures NodeOk(base, mem', free, a) {
      assert NodeOk(base, mem, free, a);
    }
    forall a, b | a in free && b in free && a < b ensures Gap(mem', a, b) {
      assert Gap(mem, a, b);
    }
  }

  // ---- Walking the ring ----

  /** The free blocks from p on, round the ring, up to and including t. */
  ghost function Remaining(free: set<nat>, t: nat, p: nat): set<nat> {
    if p <= t then set x | x in free && p <= x <= t else set x | x in free && (x >= p || x <= t)
  }

  lemma RemainingNext(base: nat, mem: Mem, free: set<nat>, t: nat, p: nat)
    requires RingOk(base, mem, free) && p in free && t in free && p in mem && p != t
    ensures mem[p].ptr in free && p in Remaining(free, t, p)
            && Remaining(free, t, mem[p].ptr) == Remaining(free, t, p) - {p}
  {
    assert NodeOk(base, mem, free, p) && NodeOk(base, mem, free, t);
    forall x | x in free ensures x in Remaining(free, t, mem[p].ptr) <==> x in Remaining(free, t, p) && x != p {
      assert NodeOk(base, mem, free, x);
    }
  }

  lemma RemainingAll(base: nat, mem: Mem, free: set<nat>, t: nat)
    requires RingOk(base, mem, free) && t in free && t in mem
    ensures mem[t].ptr in free && Remaining(free, t, mem[t].ptr) == free
  {
    assert NodeOk(base, mem, free, t);
    forall x | x in free ensures x in Remaining(free, t, mem[t].ptr) {
      assert NodeOk(base, mem, free, x);
    }
  }

  /** bp belongs between p and the block after it. */
  ghost predicate IsSlot(mem: Mem, free: set<nat>, bp: nat, p: nat) {
    p in free && p in mem && p < bp && (mem[p].ptr > p ==> bp < mem[p].ptr)
  }

  /** The test that ends the scan in free. */
  predicate ScanEnds(bp: nat, p: nat, next: nat) {
    (bp > p && bp < next) || (p >= next && (bp > p || bp < next))
  }

  /** It succeeds at one free block, and nowhere else. */
  lemma ScanEndsAtSlot(base: nat, mem: Mem, free: set<nat>, bp: nat, p: nat)
    requires RingOk(base, mem, free) && base < bp && bp !in free && p in free && p in mem
    ensures ScanEnds(bp, p, mem[p].ptr) <==> IsSlot(mem, free, bp, p)
  {
    assert NodeOk(base, mem, free, p);
  }

  lemma {:induction false} Highest(s: set<nat>) returns (t: nat)
    requires s != {}
    ensures t in s && forall x :: x in s ==> x <= t
    decreases |s|
  {
    var x :| x in s;
    t := x;
    if s - {x} != {} {
      var u := Highest(s - {x});
      t := if x < u then u else x;
    }
    assert forall y :: y in s ==> y == x || y in s - {x};
  }

  lemma SlotExists(base: nat, mem: Mem, free: set<nat>, bp: nat) returns (t: nat)
    requires RingOk(base, mem, free) && base < bp && bp !in free
    ensures IsSlot(mem, free, bp, t)
  {
    var below := set x | x in free && x < bp;
    assert base in below;
    t := Highest(below);
    assert NodeOk(base, mem, free, t);
    if mem[t].ptr > t { assert mem[t].ptr !in below; }
  }

  // ---- The heap ----

  /** Free and allocated blocks together tile the heap, which lies above base; every block has its length in its
      header. */
  ghost predicate HeapInv(base: nat, mem: Mem, free: set<nat>, alloc: Blocks, blocks: Blocks, tiling: Tiling) {
    && Tiled(blocks, tiling) && RingOk(base, mem, free) && base !in blocks
    && (forall b :: b in blocks <==> (b in free && b != base) || b in alloc)
    && (forall b :: b in blocks ==> b in mem && mem[b].size == blocks[b] && b > base)
    && (forall b :: b in alloc ==> b !in free && alloc[b] == blocks[b])
  }
}
