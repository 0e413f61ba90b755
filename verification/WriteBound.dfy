/** filewrite (kernel/file.c): a chunk of at most (MAXOPBLOCKS - 4) / 2 blocks of bytes logs at most MAXOPBLOCKS
    distinct blocks, and some chunks log exactly that many. */
module WriteBound {
  import opened Std
  import opened FileSystem
  import opened Files
  import opened FileWrite

  // ---- Counting blocks ----

  /** The blocks of file n with index in [lo, hi). */
  ghost function BlocksAt(d: Disk, i: Inodes, n: nat, lo: nat, hi: nat): set<nat> {
    if hi <= lo then {} else BlocksAt(d, i, n, lo, hi - 1) + {Holds(d, i, FilePlace(n, hi - 1))}
  }

  lemma {:induction false} BlocksAtSize(d: Disk, i: Inodes, n: nat, lo: nat, hi: nat)
    requires lo <= hi
    ensures |BlocksAt(d, i, n, lo, hi)| <= hi - lo
  {
    if lo < hi { BlocksAtSize(d, i, n, lo, hi - 1); }
  }

  lemma {:induction false} InBlocksAt(d: Disk, i: Inodes, n: nat, lo: nat, hi: nat, k: nat)
    requires lo <= k < hi
    ensures Holds(d, i, FilePlace(n, k)) in BlocksAt(d, i, n, lo, hi)
  {
    if k < hi - 1 { InBlocksAt(d, i, n, lo, hi - 1, k); }
  }

  /** A block found there is owned by one of the places. */
  lemma {:induction false} OwnerAt(sb: Super, d: Disk, i: Inodes, o: Owners, n: nat, lo: nat, hi: nat, b: nat)
    requires OwnInv(sb, d, i, o) && b in BlocksAt(d, i, n, lo, hi) && b != 0
    ensures b in o && !o[b].Indirect? && o[b].n == n && lo <= Index(o[b]) < hi
  {
    hide Holds;
    if b != Holds(d, i, FilePlace(n, hi - 1)) {
      OwnerAt(sb, d, i, o, n, lo, hi - 1, b);
    } else {
      assert o[b] == FilePlace(n, hi - 1);
    }
  }

  /** With every block mapped they are as many as their indices. */
  lemma {:induction false} BlocksAtExact(sb: Super, d: Disk, i: Inodes, o: Owners, n: nat, lo: nat, hi: nat)
    requires OwnInv(sb, d, i, o) && lo <= hi && forall k: nat :: lo <= k < hi ==> Holds(d, i, FilePlace(n, k)) != 0
    ensures |BlocksAt(d, i, n, lo, hi)| == hi - lo
  {
    hide Holds, OwnInv, FilePlace;
    if lo < hi {
      BlocksAtExact(sb, d, i, o, n, lo, hi - 1);
      LastIsNew(sb, d, i, o, n, lo, hi - 1);
    }
  }

  lemma LastIsNew(sb: Super, d: Disk, i: Inodes, o: Owners, n: nat, lo: nat, hi: nat)
    requires OwnInv(sb, d, i, o) && Holds(d, i, FilePlace(n, hi)) != 0
    ensures Holds(d, i, FilePlace(n, hi)) !in BlocksAt(d, i, n, lo, hi)
  {
    hide Holds, BlocksAt;
    var b := Holds(d, i, FilePlace(n, hi));
    assert o[b] == FilePlace(n, hi);
    if b in BlocksAt(d, i, n, lo, hi) { OwnerAt(sb, d, i, o, n, lo, hi, b); }
  }

  lemma {:induction false} BitmapBlocksSize(sb: Super, t: set<nat>)
    ensures |BitmapBlocks(sb, t)| <= |t|
    decreases |t|
  {
    if t != {} {
      var b :| b in t;
      BitmapBlocksSize(sb, t - {b});
      assert BitmapBlocks(sb, t) == BitmapBlocks(sb, t - {b}) + {BitmapBlock(sb, b)};
    } else {
      assert BitmapBlocks(sb, t) == {};
    }
  }

  // ---- The bound ----

  /** One past the index of the last block that [off, off + cnt) meets. */
  function EndIndex(off: nat, cnt: nat): (e: nat)
    ensures e >= off / BSIZE
  {
    (off + cnt + BSIZE - 1) / BSIZE
  }

  /** The first block that a write at off may have to allocate: the block of off itself is there if off lies inside
      it. */
  function FirstNew(off: nat): nat {
    (off + BSIZE - 1) / BSIZE
  }

  lemma Spans(off: nat, cnt: nat, k: nat)
    requires cnt <= k * BSIZE
    ensures off / BSIZE <= FirstNew(off) <= EndIndex(off, cnt) <= FirstNew(off) + k && FirstNew(off) <= off / BSIZE + 1
    ensures cnt == k * BSIZE ==> EndIndex(off, cnt) == FirstNew(off) + k
    ensures off % BSIZE != 0 ==> FirstNew(off) == off / BSIZE + 1
  {
  }

  lemma TouchedIndex(n: nat, off: nat, cnt: nat, pl: Place)
    requires Touched(n, off, off + cnt, pl)
    ensures off / BSIZE <= Index(pl) < EndIndex(off, cnt)
            && (pl == FilePlace(n, Index(pl)) || (pl.Direct? && pl.i >= NDIRECT))
  {
  }

  /** A block of the write is one of the blocks that the range meets. */
  lemma TouchedBlock(sb: Super, d: Disk, i: Inodes, o: Owners, n: nat, off: nat, cnt: nat, b: nat, lo: nat)
    requires OwnInv(sb, d, i, o) && b in o && Touched(n, off, off + cnt, o[b]) && lo <= Index(o[b])
    ensures b in BlocksAt(d, i, n, lo, EndIndex(off, cnt)) && o[b] == FilePlace(n, Index(o[b]))
            && Holds(d, i, o[b]) == b != 0
  {
    TouchedIndex(n, off, cnt, o[b]);
    assert Holds(d, i, o[b]) == b;
    InBlocksAt(d, i, n, lo, EndIndex(off, cnt), Index(o[b]));
  }

  /** A newly allocated block is the indirect block or lies past the blocks that were there. */
  lemma NewBlock(sb: Super, d0: Disk, i0: Inodes, o0: Owners, d: Disk, i: Inodes, o: Owners, n: nat, off: nat,
                 cnt: nat, b: nat)
    requires OwnInv(sb, d0, i0, o0) && OwnInv(sb, d, i, o) && PlacesKept(d0, i0, o0, d, i, o) && b in Taken(o0, o)
    requires o[b] == Indirect(n) || Touched(n, off, off + cnt, o[b])
    requires n < |i0| && FileOk(d0, i0, n) && off <= i0[n].size
    ensures b == Holds(d, i, Indirect(n)) || b in BlocksAt(d, i, n, FirstNew(off), EndIndex(off, cnt))
  {
    assert Holds(d, i, o[b]) == b;
    if o[b] != Indirect(n) {
      TouchedIndex(n, off, cnt, o[b]);
      var k := Index(o[b]);
      TouchedBlock(sb, d, i, o, n, off, cnt, b, k);
      if k >= FirstNew(off) { TouchedBlock(sb, d, i, o, n, off, cnt, b, FirstNew(off)); }
    }
  }

  ghost function LogRoom(sb: Super, d: Disk, i: Inodes, n: nat, off: nat, cnt: nat): set<nat> {
    var ind := Holds(d, i, Indirect(n));
    var young := BlocksAt(d, i, n, FirstNew(off), EndIndex(off, cnt));
    {InodeBlock(sb, n), ind, BitmapBlock(sb, ind)} + BlocksAt(d, i, n, off / BSIZE, EndIndex(off, cnt))
        + BitmapBlocks(sb, young)
  }

  lemma LogRoomSize(sb: Super, d: Disk, i: Inodes, n: nat, off: nat, cnt: nat, k: nat)
    requires cnt <= k * BSIZE
    ensures |LogRoom(sb, d, i, n, off, cnt)| <= 2 * k + 4
  {
    Spans(off, cnt, k);
    var ind := Holds(d, i, Indirect(n));
    var young := BlocksAt(d, i, n, FirstNew(off), EndIndex(off, cnt));
    var met := BlocksAt(d, i, n, off / BSIZE, EndIndex(off, cnt));
    BlocksAtSize(d, i, n, FirstNew(off), EndIndex(off, cnt));
    BlocksAtSize(d, i, n, off / BSIZE, EndIndex(off, cnt));
    BitmapBlocksSize(sb, young);
    hide BlocksAt, Holds, BitmapBlocks;
    var three := {InodeBlock(sb, n), ind, BitmapBlock(sb, ind)};
    assert |three| <= 3;
    assert |three + met| <= |three| + |met|;
    assert |three + met + BitmapBlocks(sb, young)| <= |three + met| + |BitmapBlocks(sb, young)|;
  }

  lemma InLogRoom(sb: Super, d0: Disk, i0: Inodes, o0: Owners, d: Disk, i: Inodes, o: Owners, l: set<nat>,
                  n: nat, off: nat, cnt: nat, data: set<nat>, x: nat)
    requires OwnInv(sb, d0, i0, o0) && OwnInv(sb, d, i, o) && PlacesKept(d0, i0, o0, d, i, o)
    requires n < |i0| && FileOk(d0, i0, n) && off <= i0[n].size
    requires Logged(sb, o0, {} + {InodeBlock(sb, n)}, o, l, n, off, off + cnt, data, Holds(d, i, Indirect(n))) && x in l
    ensures x in LogRoom(sb, d, i, n, off, cnt)
  {
    hide Holds, BlocksAt, FileOk, PlacesKept, OwnInv;
    Spans(off, cnt, cnt);
    var t := Taken(o0, o);
    if x in data {
      InRange(sb, d, i, o, n, off, cnt, x);
    } else if x in t {
      NewBlock(sb, d0, i0, o0, d, i, o, n, off, cnt, x);
      if x != Holds(d, i, Indirect(n)) { InRange(sb, d, i, o, n, off, cnt, x); }
    } else if x in BitmapBlocks(sb, t) {
      var b :| b in t && x == BitmapBlock(sb, b);
      NewBlock(sb, d0, i0, o0, d, i, o, n, off, cnt, b);
    }
  }

  lemma InRange(sb: Super, d: Disk, i: Inodes, o: Owners, n: nat, off: nat, cnt: nat, b: nat)
    requires OwnInv(sb, d, i, o) && b in o && (o[b] == Indirect(n) || Touched(n, off, off + cnt, o[b]))
    ensures b == Holds(d, i, Indirect(n)) || b in BlocksAt(d, i, n, off / BSIZE, EndIndex(off, cnt))
  {
    if o[b] != Indirect(n) {
      TouchedIndex(n, off, cnt, o[b]);
      TouchedBlock(sb, d, i, o, n, off, cnt, b, off / BSIZE);
    } else {
      assert Holds(d, i, o[b]) == b;
    }
  }

  /** A write of at most k blocks of bytes, at any offset up to the size and with any spread of bitmap blocks, logs at
      most 2k + 4 distinct blocks. */
  lemma ChunkBound(sb: Super, d0: Disk, i0: Inodes, o0: Owners, d: Disk, i: Inodes, o: Owners, l: set<nat>,
                   n: nat, off: nat, cnt: nat, src: seq<Byte>, r: nat, reach: nat, data: set<nat>, k: nat)
    requires Written(sb, d0, i0, o0, {}, d, i, o, l, n, off, cnt, src, r, reach, data) && off <= i0[n].size
             && cnt <= k * BSIZE
    requires OwnInv(sb, d0, i0, o0) && OwnInv(sb, d, i, o) && FileOk(d0, i0, n)
    ensures |l| <= 2 * k + 4
  {
    hide OwnInv, FileOk, LogRoom, Wrote, AllLogged, Logged, PlacesKept;
    forall x | x in l ensures x in LogRoom(sb, d, i, n, off, cnt) {
      InLogRoom(sb, d0, i0, o0, d, i, o, l, n, off, cnt, data, x);
    }
    LogRoomSize(sb, d, i, n, off, cnt, k);
    SubsetCardinality(l, LogRoom(sb, d, i, n, off, cnt));
  }

  // ---- The bound is attained ----

  /** The blocks of the range are all logged, and no others for data. */
  lemma DataIsMet(sb: Super, d: Disk, i: Inodes, o: Owners, n: nat, off: nat, cnt: nat, data: set<nat>)
    requires OwnInv(sb, d, i, o) && AllLogged(d, i, n, off, cnt, data) && cnt > 0
    requires forall a :: a in data ==> a in o && Touched(n, off, off + cnt, o[a])
    ensures data == BlocksAt(d, i, n, off / BSIZE, EndIndex(off, cnt))
    ensures forall k: nat :: off / BSIZE <= k < EndIndex(off, cnt) ==> Holds(d, i, FilePlace(n, k)) != 0
  {
    hide Holds, OwnInv, BlocksAt;
    var lo, hi := off / BSIZE, EndIndex(off, cnt);
    forall k: nat | lo <= k < hi ensures Holds(d, i, FilePlace(n, k)) in data && Holds(d, i, FilePlace(n, k)) != 0 {
      var b := Holds(d, i, FilePlace(n, k));
      assert k * BSIZE < off + cnt;
      assert b in data;
      TouchedIndex(n, off, cnt, o[b]);
      TouchedBlock(sb, d, i, o, n, off, cnt, b, lo);
    }
    forall b | b in data ensures b in BlocksAt(d, i, n, lo, hi) {
      TouchedIndex(n, off, cnt, o[b]);
      TouchedBlock(sb, d, i, o, n, off, cnt, b, lo);
    }
    BlocksAtWithin(d, i, n, lo, hi, data);
  }

  lemma {:induction false} BlocksAtWithin(d: Disk, i: Inodes, n: nat, lo: nat, hi: nat, s: set<nat>)
    requires forall k: nat :: lo <= k < hi ==> Holds(d, i, FilePlace(n, k)) in s
    ensures BlocksAt(d, i, n, lo, hi) <= s
  {
    if lo < hi { BlocksAtWithin(d, i, n, lo, hi - 1, s); }
  }

  /** Blocks whose places were empty are newly allocated. */
  lemma WereTaken(sb: Super, d0: Disk, i0: Inodes, o0: Owners, d: Disk, i: Inodes, o: Owners, pl: Place)
    requires OwnInv(sb, d0, i0, o0) && OwnInv(sb, d, i, o) && PlacesKept(d0, i0, o0, d, i, o)
    requires Holds(d0, i0, pl) == 0 && Holds(d, i, pl) != 0
    ensures Holds(d, i, pl) in Taken(o0, o)
  {
    var b := Holds(d, i, pl);
    assert b in o && o[b] == pl;
  }

  /** The new blocks are the blocks past the first and the indirect block. */
  lemma TakenAre(sb: Super, d0: Disk, i0: Inodes, o0: Owners, d: Disk, i: Inodes, o: Owners, n: nat, off: nat, cnt: nat)
    requires OwnInv(sb, d0, i0, o0) && OwnInv(sb, d, i, o) && PlacesKept(d0, i0, o0, d, i, o)
    requires n < |i0| && FileOk(d0, i0, n) && off <= i0[n].size
    requires forall b :: b in Taken(o0, o) ==> o[b] == Indirect(n) || Touched(n, off, off + cnt, o[b])
    requires Holds(d0, i0, Indirect(n)) == 0 != Holds(d, i, Indirect(n))
    requires forall k: nat :: FirstNew(off) <= k < EndIndex(off, cnt) ==>
               Holds(d0, i0, FilePlace(n, k)) == 0 != Holds(d, i, FilePlace(n, k))
    ensures Taken(o0, o) == BlocksAt(d, i, n, FirstNew(off), EndIndex(off, cnt)) + {Holds(d, i, Indirect(n))}
  {
    hide Holds, OwnInv, BlocksAt, PlacesKept, FileOk, Taken;
    forall k: nat | FirstNew(off) <= k < EndIndex(off, cnt) ensures Holds(d, i, FilePlace(n, k)) in Taken(o0, o) {
      WereTaken(sb, d0, i0, o0, d, i, o, FilePlace(n, k));
    }
    WereTaken(sb, d0, i0, o0, d, i, o, Indirect(n));
    BlocksAtWithin(d, i, n, FirstNew(off), EndIndex(off, cnt), Taken(o0, o));
    forall b | b in Taken(o0, o)
      ensures b == Holds(d, i, Indirect(n)) || b in BlocksAt(d, i, n, FirstNew(off), EndIndex(off, cnt)) {
      NewBlock(sb, d0, i0, o0, d, i, o, n, off, cnt, b);
    }
  }

  /** Logged sets of inode block, data blocks and bitmap blocks lie in different parts of the disk. */
  lemma PartsApart(sb: Super, d: Disk, i: Inodes, o: Owners, n: nat, t: set<nat>)
    requires OwnInv(sb, d, i, o) && n < |i| && (forall b :: b in t ==> b in o)
    ensures InodeBlock(sb, n) < sb.bmapstart
    ensures forall b :: b in t ==> b >= sb.nmeta
    ensures forall x :: x in BitmapBlocks(sb, t) ==> sb.bmapstart <= x < sb.nmeta
    ensures sb.bmapstart <= sb.nmeta
  {
    forall x | x in BitmapBlocks(sb, t) ensures sb.bmapstart <= x < sb.nmeta {
      var b :| b in t && x == BitmapBlock(sb, b);
      BitmapIsMeta(sb, b);
    }
  }

  lemma ApartSize(x: nat, a: set<nat>, b: set<nat>, lo: nat, hi: nat)
    requires x < lo <= hi && (forall y :: y in a ==> y >= hi) && (forall y :: y in b ==> lo <= y < hi)
    ensures |{x} + a + b| == 1 + |a| + |b|
  {
    assert {x} * a == {} && ({x} + a) * b == {};
  }

  /** The sets that make up the log of such a write. */
  lemma AttainedSets(sb: Super, d0: Disk, i0: Inodes, o0: Owners, d: Disk, i: Inodes, o: Owners, n: nat, off: nat,
                     cnt: nat, data: set<nat>, lo: nat, hi: nat)
    requires OwnInv(sb, d0, i0, o0) && OwnInv(sb, d, i, o) && PlacesKept(d0, i0, o0, d, i, o) && n < |i0|
             && FileOk(d0, i0, n) && off <= i0[n].size
    requires AllLogged(d, i, n, off, cnt, data) && cnt > 0 && lo == off / BSIZE && hi == EndIndex(off, cnt)
             && FirstNew(off) == lo + 1 <= hi
    requires forall a :: a in data ==> a in o && Touched(n, off, off + cnt, o[a])
    requires forall b :: b in Taken(o0, o) ==> o[b] == Indirect(n) || Touched(n, off, off + cnt, o[b])
    requires Holds(d0, i0, Indirect(n)) == 0 != Holds(d, i, Indirect(n))
    requires forall j: nat :: FirstNew(off) <= j < EndIndex(off, cnt) ==> Holds(d0, i0, FilePlace(n, j)) == 0
    ensures |data| == hi - lo && BlocksAt(d, i, n, lo + 1, hi) <= data && |BlocksAt(d, i, n, lo + 1, hi)| == hi - lo - 1
    ensures Taken(o0, o) == BlocksAt(d, i, n, lo + 1, hi) + {Holds(d, i, Indirect(n))}
    ensures Holds(d, i, Indirect(n)) !in data
  {
    hide Holds, OwnInv, BlocksAt, PlacesKept, FileOk, Taken, AllLogged, Touched, EndIndex, FirstNew;
    DataIsMet(sb, d, i, o, n, off, cnt, data);
    TakenAre(sb, d0, i0, o0, d, i, o, n, off, cnt);
    BlocksAtExact(sb, d, i, o, n, lo, hi);
    BlocksAtExact(sb, d, i, o, n, lo + 1, hi);
    YoungWithin(sb, d, i, o, n, lo, hi);
    IndirectApart(sb, d, i, o, n, lo, hi);
  }

  /** A write of k whole blocks of bytes at an offset inside a block, where all later blocks and the indirect block are
      new and their bits lie in bitmap blocks of their own, logs exactly 2k + 4 blocks. */
  lemma BoundAttained(sb: Super, d0: Disk, i0: Inodes, o0: Owners, d: Disk, i: Inodes, o: Owners, l: set<nat>,
                      n: nat, off: nat, cnt: nat, src: seq<Byte>, data: set<nat>, k: nat)
    requires Written(sb, d0, i0, o0, {}, d, i, o, l, n, off, cnt, src, cnt, cnt, data) && off <= i0[n].size
    requires 0 < cnt == k * BSIZE && off % BSIZE != 0
    requires OwnInv(sb, d0, i0, o0) && OwnInv(sb, d, i, o) && FileOk(d0, i0, n)
    requires Holds(d0, i0, Indirect(n)) == 0 != Holds(d, i, Indirect(n))
    requires forall j: nat :: FirstNew(off) <= j < EndIndex(off, cnt) ==> Holds(d0, i0, FilePlace(n, j)) == 0
    requires |BitmapBlocks(sb, Taken(o0, o))| == |Taken(o0, o)|
    ensures |l| == 2 * k + 4
  {
    hide Holds, OwnInv, BlocksAt, PlacesKept, FileOk, Wrote, Taken, BitmapBlocks, AllLogged, Touched;
    Spans(off, cnt, k);
    hide EndIndex, FirstNew;
    var ind, t := Holds(d, i, Indirect(n)), Taken(o0, o);
    var lo, hi := off / BSIZE, EndIndex(off, cnt);
    AttainedSets(sb, d0, i0, o0, d, i, o, n, off, cnt, data, lo, hi);
    TakenOwned(sb, o0, o);
    PartsApart(sb, d, i, o, n, data + t);
    PartsApart(sb, d, i, o, n, t);
    CountParts(InodeBlock(sb, n), data, BlocksAt(d, i, n, lo + 1, hi), ind, BitmapBlocks(sb, t), sb.bmapstart,
               sb.nmeta, k);
    assert l == {InodeBlock(sb, n)} + (data + t) + BitmapBlocks(sb, t);
  }

  lemma CountParts(inode: nat, data: set<nat>, young: set<nat>, ind: nat, bits: set<nat>, lo: nat, hi: nat, k: nat)
    requires young <= data && |data| == k + 1 && |young| == k && ind !in data
    requires inode < lo <= hi && (forall y :: y in data + (young + {ind}) ==> y >= hi)
             && (forall y :: y in bits ==> lo <= y < hi)
    ensures |young + {ind}| == k + 1
    ensures |bits| == k + 1 ==> |{inode} + (data + (young + {ind})) + bits| == 2 * k + 4
  {
    assert data + (young + {ind}) == data + {ind};
    ApartSize(inode, data + (young + {ind}), bits, lo, hi);
  }

  lemma TakenOwned(sb: Super, o0: Owners, o: Owners)
    ensures forall b :: b in Taken(o0, o) ==> b in o
  {
  }

  lemma YoungWithin(sb: Super, d: Disk, i: Inodes, o: Owners, n: nat, lo: nat, hi: nat)
    requires lo < hi
    ensures BlocksAt(d, i, n, lo + 1, hi) <= BlocksAt(d, i, n, lo, hi)
  {
    forall k: nat | lo + 1 <= k < hi ensures Holds(d, i, FilePlace(n, k)) in BlocksAt(d, i, n, lo, hi) {
      InBlocksAt(d, i, n, lo, hi, k);
    }
    BlocksAtWithin(d, i, n, lo + 1, hi, BlocksAt(d, i, n, lo, hi));
  }

  lemma IndirectApart(sb: Super, d: Disk, i: Inodes, o: Owners, n: nat, lo: nat, hi: nat)
    requires OwnInv(sb, d, i, o) && Holds(d, i, Indirect(n)) != 0
    ensures Holds(d, i, Indirect(n)) in o
    ensures Holds(d, i, Indirect(n)) !in BlocksAt(d, i, n, lo, hi)
  {
    var ind := Holds(d, i, Indirect(n));
    assert o[ind] == Indirect(n);
    if ind in BlocksAt(d, i, n, lo, hi) { OwnerAt(sb, d, i, o, n, lo, hi, ind); }
  }

  // ---- filewrite ----

  /** An open file: the offset of struct file, and its inode. */
  class File {
    var off: nat
    const n: nat
  }

  /** begin_op, writei and end_op for one chunk: the operation stays within its reservation of `maxop` blocks. */
  method WriteOp(fs: Fs, n: nat, off: nat, cnt: nat, src: seq<Byte>, maxop: nat) returns (r: int)
    requires fs.Ok() && n < |fs.inodes| && FileOk(fs.disk, fs.inodes, n) && |src| <= cnt && off < U32 && cnt < U32
    requires maxop >= 6 && cnt <= (maxop - 4) / 2 * BSIZE
    modifies fs
    ensures fs.Ok() && MapKept(old(fs.disk), old(fs.inodes), fs.disk, fs.inodes) && |fs.logged| <= maxop
    ensures r < 0 <==> off > old(fs.inodes)[n].size || off + cnt > MAXFILE * BSIZE
    ensures r < 0 ==> r == -1 && fs.disk == old(fs.disk) && fs.inodes == old(fs.inodes) && fs.owner == old(fs.owner)
    ensures r >= 0 ==> exists reach, data :: Written(fs.sb, old(fs.disk), old(fs.inodes), old(fs.owner), {},
                                                    fs.disk, fs.inodes, fs.owner, fs.logged, n, off, cnt, src, r,
                                                        reach, data)
  {
    hide Written, BitsInv, OwnInv, FileOk;
    fs.logged := {};
    ghost var reach, data;
    r, reach, data := Writei(fs, n, off, cnt, src);
    if r >= 0 {
      ChunkBound(fs.sb, old(fs.disk), old(fs.inodes), old(fs.owner), fs.disk, fs.inodes, fs.owner, fs.logged,
                 n, off, cnt, src, r, reach, data, (maxop - 4) / 2);
    }
  }

  lemma OverwriteTwice(f: seq<Byte>, off: nat, a: seq<Byte>, b: seq<Byte>)
    requires off <= |f|
    ensures off + |a| <= |Overwrite(f, off, a)|
    ensures Overwrite(Overwrite(f, off, a), off + |a|, b) == Overwrite(f, off, a + b)
  {
  }

  lemma OverwriteSlices(f: seq<Byte>, off: nat, src: seq<Byte>, k: nat, cnt: nat, r: nat)
    requires off <= |f| && r <= cnt && k + cnt <= |src|
    ensures off + k <= |Overwrite(f, off, src[..k])|
    ensures Overwrite(Overwrite(f, off, src[..k]), off + k, src[k..k + cnt][..r]) == Overwrite(f, off, src[..k + r])
  {
    hide Overwrite;
    OverwriteTwice(f, off, src[..k], src[k..k + cnt][..r]);
    assert src[..k] + src[k..k + cnt][..r] == src[..k + r];
  }

  /** File n has grown to hold src[..k] at off0, with src[..reach] copied there as far as its size goes, and no other
      file has changed. */
  ghost predicate FileIs(d0: Disk, i0: Inodes, d: Disk, i: Inodes, n: nat, off0: nat, src: seq<Byte>, k: nat,
                         reach: nat) {
    && |i| == |i0| && n < |i0| && off0 <= i0[n].size && k <= reach <= |src|
    && (var g, size := Overwrite(FileBytes(d0, i0, n), off0, src[..reach]), Max(i0[n].size, off0 + k);
        size <= |g| && FileBytes(d, i, n) == g[..size])
    && forall m: nat :: m < |i0| && m != n ==> FileBytes(d, i, m) == FileBytes(d0, i0, m)
  }

  /** One more chunk. */
  lemma FileIsMore(sb: Super, d0: Disk, i0: Inodes, d1: Disk, i1: Inodes, o1: Owners, d2: Disk, i2: Inodes, o2: Owners,
                   l2: set<nat>, n: nat, off0: nat, src: seq<Byte>, k: nat, cnt: nat, len: nat, r: nat, reach: nat,
                   data: set<nat>)
    requires FileIs(d0, i0, d1, i1, n, off0, src, k, k) && k + len <= |src|
    requires Written(sb, d1, i1, o1, {}, d2, i2, o2, l2, n, off0 + k, cnt, src[k..k + len], r, reach, data)
    ensures FileIs(d0, i0, d2, i2, n, off0, src, k + r, k + reach)
  {
    hide Wrote, Logged, PlacesKept, AllLogged, FileBytes, Overwrite;
    var f0 := FileBytes(d0, i0, n);
    OverwriteLength(f0, off0, src[..k]);
    assert FileBytes(d1, i1, n) == Overwrite(f0, off0, src[..k]);
    assert i1[n].size == |FileBytes(d1, i1, n)|;
    OverwriteSlices(f0, off0, src, k, len, reach);
    WriteLeaves(sb, d1, i1, o1, {}, d2, i2, o2, l2, n, off0 + k, cnt, src[k..k + len], r, reach, data);
  }

  lemma OverwriteLength(f: seq<Byte>, off: nat, bytes: seq<Byte>)
    requires off <= |f|
    ensures |Overwrite(f, off, bytes)| == Max(|f|, off + |bytes|)
  {
  }

  lemma FileIsStart(d: Disk, i: Inodes, n: nat, off0: nat, src: seq<Byte>)
    requires n < |i| && off0 <= i[n].size
    ensures FileIs(d, i, d, i, n, off0, src, 0, 0)
  {
    assert src[..0] == [];
    assert Overwrite(FileBytes(d, i, n), off0, []) == FileBytes(d, i, n);
  }

  lemma FileIsLonger(d0: Disk, i0: Inodes, d: Disk, i: Inodes, n: nat, off0: nat, src: seq<Byte>, k: nat, reach: nat)
    requires FileIs(d0, i0, d, i, n, off0, src, k, reach)
    ensures |i| == |i0| && i[n].size == Max(i0[n].size, off0 + k)
  {
    assert |FileBytes(d, i, n)| == i[n].size;
  }

  lemma FileIsWhole(d0: Disk, i0: Inodes, d: Disk, i: Inodes, n: nat, off0: nat, src: seq<Byte>)
    requires FileIs(d0, i0, d, i, n, off0, src, |src|, |src|)
    ensures |i| == |i0| && FileBytes(d, i, n) == Overwrite(FileBytes(d0, i0, n), off0, src)
  {
    assert src[..|src|] == src;
    OverwriteLength(FileBytes(d0, i0, n), off0, src);
  }

  /** How far the copying may have gone beyond what filewrite counts: not at all, or to the end of what can be read of
      the source, less than a block further. */
  ghost predicate Overrun(cnt: int, len: nat, k: nat, reach: nat) {
    reach == k || (len < cnt && reach == len < k + BSIZE)
  }

  /** filewrite has counted the first k of cnt bytes. */
  ghost predicate FileLeft(d0: Disk, i0: Inodes, d: Disk, i: Inodes, n: nat, off0: nat, cnt: int, src: seq<Byte>,
                           k: nat) {
    exists reach: nat :: Overrun(cnt, |src|, k, reach) && FileIs(d0, i0, d, i, n, off0, src, k, reach)
  }

  /** What a chunk of filewrite does, as Overrun says it. */
  lemma ChunkOverrun(sb: Super, d0: Disk, i0: Inodes, o0: Owners, d: Disk, i: Inodes, o: Owners, l: set<nat>, n: nat,
                     off: nat, cnt: nat, src: seq<Byte>, r: nat, reach: nat, data: set<nat>)
    requires Written(sb, d0, i0, o0, {}, d, i, o, l, n, off, cnt, src, r, reach, data)
    ensures |i| == |i0| && r <= reach <= |src| && r <= cnt
            && (reach == r || (|src| < cnt && reach == |src| < r + BSIZE))
    ensures r < cnt ==> (Full(sb, o) && off + r >= i0[n].size) || (|src| < cnt && |src| < r + BSIZE)
  {
  }

  /** Why filewrite counts only the first k of cnt bytes, of which `len` can be read: a byte that cannot be read comes
      less than a block further on; or the disk is full and the file at its old end or past it; or writei refuses, past
      the end of the file, or because the next chunk, of at most `max` bytes, would make it too large. */
  ghost predicate CutShort(sb: Super, o: Owners, size: nat, off: nat, cnt: int, len: nat, k: nat, max: nat) {
    || (len < cnt && len < k + BSIZE)
    || (Full(sb, o) && off + k >= size)
    || (off > size && k == 0)
    || (off + cnt > MAXFILE * BSIZE && off + k + max > MAXFILE * BSIZE)
  }

  /** The inode case of filewrite for cnt bytes, of which those in src can be read. The offset moves over the bytes
      that the writes counted, and the result is cnt if those are all of them and -1 otherwise. */
  method Filewrite(fs: Fs, f: File, cnt: int, src: seq<Byte>, maxop: nat) returns (ret: int)
    requires fs.Ok() && f.n < |fs.inodes| && FileOk(fs.disk, fs.inodes, f.n) && f.off < U32 && maxop >= 6
    requires -0x8000_0000 <= cnt < 0x8000_0000 && (src == [] || |src| <= cnt)
    modifies fs, f`off
    ensures fs.Ok() && MapKept(old(fs.disk), old(fs.inodes), fs.disk, fs.inodes)
    ensures ret == if f.off == old(f.off) + cnt then cnt else -1
    ensures old(f.off) <= f.off <= old(f.off) + |src|
    ensures f.off < old(f.off) + cnt ==>
              CutShort(fs.sb, fs.owner, old(fs.inodes)[f.n].size, old(f.off), cnt, |src|, f.off - old(f.off),
                       (maxop - 4) / 2 * BSIZE)
    ensures ret == cnt == |src| && old(f.off) <= old(fs.inodes)[f.n].size ==>
              |fs.inodes| == |old(fs.inodes)|
              && FileBytes(fs.disk, fs.inodes, f.n)
                  == Overwrite(old(FileBytes(fs.disk, fs.inodes, f.n)), old(f.off), src)
    ensures old(f.off) <= old(fs.inodes)[f.n].size ==>
              FileLeft(old(fs.disk), old(fs.inodes), fs.disk, fs.inodes, f.n, old(f.off), cnt, src, f.off - old(f.off))
    ensures old(f.off) > old(fs.inodes)[f.n].size ==>
              fs.disk == old(fs.disk) && fs.inodes == old(fs.inodes) && f.off == old(f.off)
  {
    hide Inv, FileOk, FileIs, Full, FileBytes, Overwrite, FileSoFar, CutShort, FileLeft;
    ghost var d0, i0, off0 := fs.disk, fs.inodes, f.off;
    if off0 <= i0[f.n].size { FileIsStart(d0, i0, f.n, off0, src); }
    StartSoFar(d0, i0, f.n, off0, src);
    var i := 0;
    while i < cnt
      invariant 0 <= i <= |src| && (i <= cnt || i == 0) && fs.Ok() && f.off == off0 + i && f.off < U32
      invariant MapKept(d0, i0, fs.disk, fs.inodes) && FileSoFar(d0, i0, fs.disk, fs.inodes, f.n, off0, src, i)
    {
      var r, n1 := WriteNext(fs, f, cnt, src, i, maxop, d0, i0, off0);
      if r != n1 {
        ret := -1;
        return;
      }
      i := i + r;
    }
    ret := if i == cnt then cnt else -1;
    EndSoFar(d0, i0, fs.disk, fs.inodes, f.n, off0, cnt, src, i);
    if off0 <= i0[f.n].size && i == cnt == |src| { FileIsWhole(d0, i0, fs.disk, fs.inodes, f.n, off0, src); }
  }

  /** The first k bytes are in the file; past the end of the file there are none, and nothing has changed. */
  ghost predicate FileSoFar(d0: Disk, i0: Inodes, d: Disk, i: Inodes, n: nat, off0: nat, src: seq<Byte>, k: nat) {
    && n < |i0| == |i|
    && (off0 <= i0[n].size ==>
          FileIs(d0, i0, d, i, n, off0, src, k, k) && i[n].size == Max(i0[n].size, off0 + k))
    && (off0 > i0[n].size ==> d == d0 && i == i0 && k == 0)
  }

  lemma StartSoFar(d0: Disk, i0: Inodes, n: nat, off0: nat, src: seq<Byte>)
    requires n < |i0| && (off0 <= i0[n].size ==> FileIs(d0, i0, d0, i0, n, off0, src, 0, 0))
    ensures FileSoFar(d0, i0, d0, i0, n, off0, src, 0)
  {
  }

  lemma EndSoFar(d0: Disk, i0: Inodes, d: Disk, i: Inodes, n: nat, off0: nat, cnt: int, src: seq<Byte>, k: nat)
    requires FileSoFar(d0, i0, d, i, n, off0, src, k)
    ensures |i| == |i0| && (off0 > i0[n].size ==> d == d0 && i == i0 && k == 0)
    ensures off0 <= i0[n].size ==>
              FileIs(d0, i0, d, i, n, off0, src, k, k) && FileLeft(d0, i0, d, i, n, off0, cnt, src, k)
  {
    assert Overrun(cnt, |src|, k, k);
  }

  /** One chunk: all of its n1 bytes, or why not. */
  method WriteNext(fs: Fs, f: File, cnt: int, src: seq<Byte>, i: nat, maxop: nat, ghost d0: Disk, ghost i0: Inodes,
                   ghost off0: nat)
    returns (r: int, n1: nat)
    requires fs.Ok() && f.n < |i0| && FileOk(d0, i0, f.n) && maxop >= 6 && i < cnt < 0x8000_0000 && i <= |src| <= cnt
    requires f.off == off0 + i < U32 && MapKept(d0, i0, fs.disk, fs.inodes)
    requires FileSoFar(d0, i0, fs.disk, fs.inodes, f.n, off0, src, i)
    modifies fs, f`off
    ensures fs.Ok() && MapKept(d0, i0, fs.disk, fs.inodes) && 0 < n1 <= cnt - i && r <= n1
    ensures f.off == old(f.off) + (if r > 0 then r else 0) && f.off - off0 <= |src|
    ensures r == n1 ==> f.off < U32 && FileSoFar(d0, i0, fs.disk, fs.inodes, f.n, off0, src, i + r)
    ensures r != n1 ==> CutShort(fs.sb, fs.owner, i0[f.n].size, off0, cnt, |src|, f.off - off0, (maxop - 4) / 2 * BSIZE)
    ensures |fs.inodes| == |i0|
    ensures off0 <= i0[f.n].size ==> FileLeft(d0, i0, fs.disk, fs.inodes, f.n, off0, cnt, src, f.off - off0)
    ensures off0 > i0[f.n].size ==> i == 0 && r < 0 && fs.disk == d0 && fs.inodes == i0
  {
    hide Inv, FileOk, FileIs, Written, Full, FileBytes, Overwrite;
    var max := (maxop - 4) / 2 * BSIZE;
    n1 := if cnt - i > max then max else cnt - i;
    var len := if n1 < |src| - i then n1 else |src| - i;
    ghost var d1, i1, o1 := fs.disk, fs.inodes, fs.owner;
    r := WriteOp(fs, f.n, f.off, n1, src[i..i + len], maxop);
    MapKeptTransitive(d0, i0, d1, i1, fs.disk, fs.inodes);
    if r < 0 {
      if off0 <= i0[f.n].size { EndSoFar(d0, i0, d1, i1, f.n, off0, cnt, src, i); }
      return;
    }
    ghost var reach, data :| Written(fs.sb, d1, i1, o1, {}, fs.disk, fs.inodes, fs.owner, fs.logged, f.n, f.off, n1,
                                     src[i..i + len], r, reach, data);
    ChunkOverrun(fs.sb, d1, i1, o1, fs.disk, fs.inodes, fs.owner, fs.logged, f.n, f.off, n1, src[i..i + len], r, reach,
                 data);
    FileIsMore(fs.sb, d0, i0, d1, i1, o1, fs.disk, fs.inodes, fs.owner, fs.logged, f.n, off0, src, i, n1, len, r, reach,
               data);
    FileIsLonger(d0, i0, fs.disk, fs.inodes, f.n, off0, src, i + r, i + reach);
    assert Overrun(cnt, |src|, i + r, i + reach);
    f.off := f.off + r;
  }
}
