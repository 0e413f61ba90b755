/** mkfs/mkfs.c: the image it makes is a file system that satisfies the invariant of the kernel's block layer, with one
    exception, in the size it gives the root directory. */
module Mkfs {
  import opened Std
  import opened FileSystem
  import opened Files

  /** Blocks are handed out in order: those from nmeta up to freeblock are owned, and the rest is
      still zero, as is the bitmap. */
  ghost predicate Laid(sb: Super, disk: Disk, inodes: Inodes, owner: Owners, freeblock: nat) {
    && OwnInv(sb, disk, inodes, owner) && 0 < sb.nmeta <= freeblock <= sb.size
    && (forall b :: b in owner <==> sb.nmeta <= b < freeblock)
    && (forall b :: freeblock <= b < |disk| || sb.bmapstart <= b < sb.nmeta ==> disk[b] == ZeroBlock())
  }

  /** The blocks of file n are those of its first `end` bytes, and there is an indirect block if they need one. */
  ghost predicate Reaches(disk: Disk, inodes: Inodes, n: nat, end: nat) {
    && (forall bn: nat {:trigger FilePlace(n, bn)} :: Holds(disk, inodes, FilePlace(n, bn)) != 0 <==> bn * BSIZE < end)
    && (Holds(disk, inodes, Indirect(n)) != 0 <==> NDIRECT * BSIZE < end)
  }

  /** What is left of the last block is zero. */
  ghost predicate ZeroAfter(disk: Disk, inodes: Inodes, n: nat, end: nat) {
    forall o: nat {:trigger ByteAt(disk, inodes, n, o)} :: end <= o ==> ByteAt(disk, inodes, n, o) == 0
  }

  ghost predicate AllReach(disk: Disk, inodes: Inodes) {
    forall n: nat :: n < |inodes| ==>
      && inodes[n].size <= MAXFILE * BSIZE
      && Reaches(disk, inodes, n, inodes[n].size) && ZeroAfter(disk, inodes, n, inodes[n].size)
  }

  /** No byte of any file has changed. */
  ghost predicate SameBytes(d0: Disk, i0: Inodes, d: Disk, i: Inodes) {
    forall m: nat, o: nat {:trigger ByteAt(d, i, m, o)} :: ByteAt(d, i, m, o) == ByteAt(d0, i0, m, o)
  }

  /** Place pl now holds b, and if it is in an indirect block there is one; every other place holds what it did, and the
      sizes stay. */
  ghost predicate Gained(d0: Disk, i0: Inodes, d: Disk, i: Inodes, pl: Place, b: nat) {
    && |i| == |i0| && (forall n :: 0 <= n < |i| ==> i[n].size == i0[n].size)
    && (forall q: Place {:trigger Holds(d, i, q)} :: q != pl && !(pl.Entry? && q == Indirect(pl.n)) ==>
          Holds(d, i, q) == Holds(d0, i0, q))
    && Holds(d, i, pl) == b && (pl.Entry? ==> Holds(d, i, Indirect(pl.n)) != 0)
  }

  // ---- How many blocks an append takes ----

  /** The blocks of the first x bytes. */
  function BlocksOf(x: nat): nat { (x + BSIZE - 1) / BSIZE }

  /** The blocks that cnt more bytes at off take: those of the bytes, and the indirect block with the first that it
      lists. */
  function Need(off: nat, cnt: nat): nat {
    BlocksOf(off + cnt) - BlocksOf(off) + if BlocksOf(off) <= NDIRECT < BlocksOf(off + cnt) then 1 else 0
  }

  /** The blocks that the piece in the block of index off / BSIZE takes. */
  function Extra(off: nat): nat {
    if off % BSIZE != 0 then 0 else if off / BSIZE == NDIRECT then 2 else 1
  }

  /** The blocks that the block of index bn of file n lacks: itself, and the indirect block that would list it. */
  function Missing(disk: Disk, inodes: Inodes, n: nat, bn: nat): nat {
    if Holds(disk, inodes, FilePlace(n, bn)) != 0 then 0
    else if bn >= NDIRECT && Holds(disk, inodes, Indirect(n)) == 0 then 2 else 1
  }

  lemma MissingExtra(disk: Disk, inodes: Inodes, n: nat, off: nat)
    requires Reaches(disk, inodes, n, off)
    ensures Missing(disk, inodes, n, off / BSIZE) == Extra(off)
  {
    assert Holds(disk, inodes, FilePlace(n, off / BSIZE)) != 0 <==> off / BSIZE * BSIZE < off;
  }

  lemma BlocksGrow(x: nat, m: nat)
    requires 0 < m && x % BSIZE + m <= BSIZE
    ensures BlocksOf(x + m) == BlocksOf(x) + (if x % BSIZE == 0 then 1 else 0)
    ensures x % BSIZE == 0 ==> BlocksOf(x) == x / BSIZE
  {
  }

  lemma NeedMore(off: nat, done: nat, m: nat)
    requires 0 < m && (off + done) % BSIZE + m <= BSIZE
    ensures Need(off, done + m) == Need(off, done) + Extra(off + done)
  {
    BlocksGrow(off + done, m);
  }

  lemma NeedMonotone(off: nat, a: nat, b: nat)
    requires a <= b
    ensures Need(off, a) <= Need(off, b)
  {
  }

  // ---- One block for a file ----

  lemma StoredBytes(sb: Super, disk: Disk, inodes: Inodes, n: nat, i: nat, b: nat)
    requires DiskOk(sb, disk) && InodesOk(sb, inodes) && n < |inodes| && i <= NDIRECT && 0 < b < sb.size
    requires inodes[n].addrs[i] == 0 && disk[b] == ZeroBlock()
    ensures SameBytes(disk, inodes, disk, StoreAddr(inodes, n, i, b))
  {
    forall m: nat, o: nat ensures ByteAt(disk, StoreAddr(inodes, n, i, b), m, o) == ByteAt(disk, inodes, m, o) {
      StoredHolds(sb, disk, inodes, n, i, b, FilePlace(m, o / BSIZE));
    }
  }

  lemma StoredGained(sb: Super, disk: Disk, inodes: Inodes, n: nat, i: nat, b: nat)
    requires DiskOk(sb, disk) && InodesOk(sb, inodes) && n < |inodes| && i <= NDIRECT && 0 < b < sb.size
    requires inodes[n].addrs[i] == 0 && disk[b] == ZeroBlock()
    ensures Gained(disk, inodes, disk, StoreAddr(inodes, n, i, b), AddrPlace(n, i), b)
  {
    forall q ensures Holds(disk, StoreAddr(inodes, n, i, b), q) ==
        if q == AddrPlace(n, i) then b else Holds(disk, inodes, q) {
      StoredHolds(sb, disk, inodes, n, i, b, q);
    }
  }

  /** The next block becomes addrs[i] of inode n. */
  lemma StoredLaid(sb: Super, disk: Disk, inodes: Inodes, owner: Owners, b: nat, n: nat, i: nat)
    requires Laid(sb, disk, inodes, owner, b) && b < sb.size && n < |inodes| && i <= NDIRECT
             && |inodes[n].addrs| == NDIRECT + 1
    requires inodes[n].addrs[i] == 0
    ensures Laid(sb, disk, StoreAddr(inodes, n, i, b), owner[b := AddrPlace(n, i)], b + 1)
    ensures Holds(disk, StoreAddr(inodes, n, i, b), AddrPlace(n, i)) == b
    ensures SameBytes(disk, inodes, disk, StoreAddr(inodes, n, i, b))
    ensures Gained(disk, inodes, disk, StoreAddr(inodes, n, i, b), AddrPlace(n, i), b)
  {
    StoredOwnInv(sb, disk, inodes, owner, n, i, b);
    StoredBytes(sb, disk, inodes, n, i, b);
    StoredGained(sb, disk, inodes, n, i, b);
    StoredHolds(sb, disk, inodes, n, i, b, AddrPlace(n, i));
  }

  lemma EntryBytes(sb: Super, disk: Disk, inodes: Inodes, owner: Owners, n: nat, j: nat, b: nat, m: nat, o: nat)
    requires OwnInv(sb, disk, inodes, owner) && n < |inodes| && j < NINDIRECT && sb.nmeta <= b < sb.size && b !in owner
             && 0 < b
    requires Holds(disk, inodes, Indirect(n)) != 0 && Holds(disk, inodes, Entry(n, j)) == 0 && disk[b] == ZeroBlock()
    ensures var a := Holds(disk, inodes, Indirect(n));
      a < |disk| && |disk[a]| == BSIZE
          && ByteAt(disk[a := PutWord(disk[a], j, b)], inodes, m, o) == ByteAt(disk, inodes, m, o)
  {
    var pl := FilePlace(m, o / BSIZE);
    EntryHolds(sb, disk, inodes, owner, n, j, b, pl);
    var a, x := Holds(disk, inodes, Indirect(n)), Holds(disk, inodes, pl);
    assert a in owner && owner[a] == Indirect(n);
    assert x != 0 ==> x in owner && owner[x] == pl;
  }

  /** The next block becomes entry j of the indirect block of inode n. */
  lemma EntryLaid(sb: Super, disk: Disk, inodes: Inodes, owner: Owners, b: nat, n: nat, j: nat)
    requires Laid(sb, disk, inodes, owner, b) && b < sb.size && n < |inodes| && j < NINDIRECT
    requires Holds(disk, inodes, Indirect(n)) != 0 && Holds(disk, inodes, Entry(n, j)) == 0
    ensures var a := Holds(disk, inodes, Indirect(n));
      && a < |disk| && |disk[a]| == BSIZE
      && var disk' := disk[a := PutWord(disk[a], j, b)];
        && Laid(sb, disk', inodes, owner[b := Entry(n, j)], b + 1) && SameBytes(disk, inodes, disk', inodes)
        && Gained(disk, inodes, disk', inodes, Entry(n, j), b) && Holds(disk', inodes, Entry(n, j)) == b
  {
    var a := Holds(disk, inodes, Indirect(n));
    EntryOwnInv(sb, disk, inodes, owner, n, j, b);
    assert a in owner;
    var disk' := disk[a := PutWord(disk[a], j, b)];
    forall m: nat, o: nat ensures ByteAt(disk', inodes, m, o) == ByteAt(disk, inodes, m, o) {
      EntryBytes(sb, disk, inodes, owner, n, j, b, m, o);
    }
    forall q ensures Holds(disk', inodes, q) == if q == Entry(n, j) then b else Holds(disk, inodes, q) {
      EntryHolds(sb, disk, inodes, owner, n, j, b, q);
    }
  }

  // ---- Appending ----

  /** So far `done` bytes of src have been put at off0 of file n; (d0, i0) is the image before. */
  ghost predicate Appending(d0: Disk, i0: Inodes, d: Disk, i: Inodes, n: nat, off0: nat, src: seq<Byte>, done: nat) {
    && |i| == |i0| && n < |i| && done <= |src| && (forall m :: 0 <= m < |i| ==> i[m].size == i0[m].size)
    && Reaches(d, i, n, off0 + done) && (forall m: nat :: m < |i| && m != n ==> Reaches(d, i, m, i0[m].size))
    && forall m: nat, o: nat {:trigger ByteAt(d, i, m, o)} ::
         ByteAt(d, i, m, o) == if m == n && off0 <= o < off0 + done then src[o - off0] else ByteAt(d0, i0, m, o)
  }

  /** The next n1 bytes go into block x, which now is the file's block of index fbn. */
  lemma AppendedMore(sb: Super, d0: Disk, i0: Inodes, d1: Disk, i1: Inodes, d2: Disk, i2: Inodes, owner: Owners,
                     n: nat, off0: nat, src: seq<Byte>, done: nat, x: nat, n1: nat)
    requires Appending(d0, i0, d1, i1, n, off0, src, done) && OwnInv(sb, d2, i2, owner)
    requires SameBytes(d1, i1, d2, i2) && 0 < n1 && done + n1 <= |src| && (off0 + done) % BSIZE + n1 <= BSIZE
    requires x != 0 && Gained(d1, i1, d2, i2, FilePlace(n, (off0 + done) / BSIZE), x)
    ensures x == Holds(d2, i2, FilePlace(n, (off0 + done) / BSIZE)) && sb.nmeta <= x < sb.size && x < |d2|
            && |d2[x]| == BSIZE
    ensures x in owner
    ensures var d3 := d2[x := Splice(d2[x], (off0 + done) % BSIZE, src[done..done + n1])];
      OwnInv(sb, d3, i2, owner) && Appending(d0, i0, d3, i2, n, off0, src, done + n1)
  {
    var off := off0 + done;
    var piece := src[done..done + n1];
    WrittenBytes(sb, d2, i2, owner, n, off, piece, 0, 0);
    var d3 := d2[x := Splice(d2[x], off % BSIZE, piece)];
    forall m: nat, o: nat
      ensures ByteAt(d3, i2, m, o) ==
              if m == n && off0 <= o < off0 + done + n1 then src[o - off0] else ByteAt(d0, i0, m, o)
    {
      WrittenBytes(sb, d2, i2, owner, n, off, piece, m, o);
    }
    forall pl ensures Holds(d3, i2, pl) == Holds(d2, i2, pl) {
      SpliceHolds(sb, d2, i2, owner, x, d3, FilePlace(n, off / BSIZE), pl);
    }
    ReachMore(d1, i1, d3, i2, n, off, n1, x);
    forall m: nat | m < |i2| && m != n ensures Reaches(d3, i2, m, i0[m].size) {
      ReachOther(d1, i1, d3, i2, n, off / BSIZE, x, m, i0[m].size);
    }
  }

  lemma SpliceHolds(sb: Super, d: Disk, i: Inodes, owner: Owners, x: nat, d': Disk, at: Place, pl: Place)
    requires OwnInv(sb, d, i, owner) && DiskOk(sb, d') && !at.Indirect? && x == Holds(d, i, at) != 0
    requires forall c :: 0 <= c < |d| && c != x ==> d'[c] == d[c]
    ensures Holds(d', i, pl) == Holds(d, i, pl)
  {
    assert owner[x] == at;
    SameHolds(sb, d, i, owner, d', pl);
  }

  lemma ReachMore(d1: Disk, i1: Inodes, d3: Disk, i2: Inodes, n: nat, off: nat, n1: nat, x: nat)
    requires Reaches(d1, i1, n, off) && Gained(d1, i1, d3, i2, FilePlace(n, off / BSIZE), x) && x != 0
    requires 0 < n1 && off % BSIZE + n1 <= BSIZE
    ensures Reaches(d3, i2, n, off + n1)
  {
    forall bn: nat ensures Holds(d3, i2, FilePlace(n, bn)) != 0 <==> bn * BSIZE < off + n1 {
      assert FilePlace(n, bn) == FilePlace(n, off / BSIZE) <==> bn == off / BSIZE;
      assert Holds(d1, i1, FilePlace(n, bn)) != 0 <==> bn * BSIZE < off;
    }
    assert Holds(d3, i2, Indirect(n)) != 0 <==> NDIRECT * BSIZE < off + n1;
  }

  lemma ReachOther(d1: Disk, i1: Inodes, d3: Disk, i2: Inodes, n: nat, fbn: nat, x: nat, m: nat, end: nat)
    requires Reaches(d1, i1, m, end) && Gained(d1, i1, d3, i2, FilePlace(n, fbn), x) && m != n
    ensures Reaches(d3, i2, m, end)
  {
    forall bn: nat ensures Holds(d3, i2, FilePlace(m, bn)) != 0 <==> bn * BSIZE < end {
      assert Holds(d1, i1, FilePlace(m, bn)) != 0 <==> bn * BSIZE < end;
    }
  }

  lemma AppendStarts(disk: Disk, inodes: Inodes, n: nat, src: seq<Byte>)
    requires AllReach(disk, inodes) && n < |inodes|
    ensures Appending(disk, inodes, disk, inodes, n, inodes[n].size, src, 0) && Need(inodes[n].size, 0) == 0
  {
  }

  /** din.size = off ends the append: the file is src longer, and no other file has changed. */
  lemma AppendEnds(d0: Disk, i0: Inodes, d: Disk, i: Inodes, n: nat, src: seq<Byte>)
    requires n < |i0| && AllReach(d0, i0) && Appending(d0, i0, d, i, n, i0[n].size, src, |src|)
    requires i0[n].size + |src| <= MAXFILE * BSIZE
    ensures var i' := Resize(i, n, i0[n].size + |src|);
      && AllReach(d, i') && FileBytes(d, i', n) == FileBytes(d0, i0, n) + src
      && forall m: nat :: m < |i0| && m != n ==> FileBytes(d, i', m) == FileBytes(d0, i0, m)
  {
    var i' := Resize(i, n, i0[n].size + |src|);
    ResizedHolds(d, i, n, i0[n].size + |src|);
    forall m: nat | m < |i'|
      ensures i'[m].size <= MAXFILE * BSIZE && Reaches(d, i', m, i'[m].size) && ZeroAfter(d, i', m, i'[m].size)
    {
      ResizedReach(d, i, i', m, i'[m].size);
      assert ZeroAfter(d0, i0, m, i0[m].size);
    }
  }

  lemma ResizedReach(d: Disk, i: Inodes, i': Inodes, m: nat, end: nat)
    requires Reaches(d, i, m, end) && forall pl {:trigger Holds(d, i', pl)} :: Holds(d, i', pl) == Holds(d, i, pl)
    ensures Reaches(d, i', m, end)
  {
    forall bn: nat ensures Holds(d, i', FilePlace(m, bn)) != 0 <==> bn * BSIZE < end {
      assert Holds(d, i, FilePlace(m, bn)) != 0 <==> bn * BSIZE < end;
    }
  }

  lemma ResizedLaid(sb: Super, disk: Disk, inodes: Inodes, owner: Owners, freeblock: nat, n: nat, size: nat)
    requires Laid(sb, disk, inodes, owner, freeblock) && n < |inodes|
    ensures Laid(sb, disk, Resize(inodes, n, size), owner, freeblock)
  {
    ResizedHolds(disk, inodes, n, size);
  }

  // ---- The bitmap ----

  /** The first `used` bits set, in one block. */
  ghost predicate FirstBits(data: Block, used: nat) {
    |data| == BSIZE && forall j: nat :: j < BPB ==> (Bit(data, j) <==> j < used)
  }

  lemma ZeroBits(j: nat)
    requires j < BPB
    ensures !Bit(ZeroBlock(), j)
  {
    NoBit(j % 8);
  }

  lemma {:induction false} NoBit(k: nat)
    ensures !HasBit(0, k)
  {
    if k > 0 {
      NoBit(k - 1);
    }
  }

  /** With that block as the first of the bitmap, the image is a file system. */
  lemma BitmapWritten(sb: Super, disk: Disk, inodes: Inodes, owner: Owners, used: nat, data: Block)
    requires Laid(sb, disk, inodes, owner, used) && used < BPB && FirstBits(data, used)
    ensures sb.bmapstart < |disk| && Inv(sb, disk[sb.bmapstart := data], inodes, owner)
    ensures forall pl {:trigger Holds(disk[sb.bmapstart := data], inodes, pl)} ::
            Holds(disk[sb.bmapstart := data], inodes, pl) == Holds(disk, inodes, pl)
  {
    BitmapIsMeta(sb, 0);
    var disk' := disk[sb.bmapstart := data];
    SameOwnInv(sb, disk, inodes, owner, disk');
    forall pl ensures Holds(disk', inodes, pl) == Holds(disk, inodes, pl) {
      SameHolds(sb, disk, inodes, owner, disk', pl);
    }
    forall b: nat | b < sb.size ensures BitSet(sb, disk', b) <==> b < used {
      BitmapIsMeta(sb, b);
      if b >= BPB {
        assert disk'[BitmapBlock(sb, b)] == ZeroBlock();
        ZeroBits(b % BPB);
      }
    }
  }

  // ---- The root directory ----

  /** mkfs rounds the root directory's size up to the next block boundary, and adds a block when it is at one already.
      Every block below the size is then mapped if and only if it was not. */
  lemma RootSize(disk: Disk, inodes: Inodes, n: nat)
    requires AllReach(disk, inodes) && n < |inodes|
    ensures var off := inodes[n].size; MapInv(disk, Resize(inodes, n, (off / BSIZE + 1) * BSIZE)) <==> off % BSIZE != 0
  {
    var off := inodes[n].size;
    var size := (off / BSIZE + 1) * BSIZE;
    var i' := Resize(inodes, n, size);
    ResizedHolds(disk, inodes, n, size);
    assert Holds(disk, inodes, FilePlace(n, off / BSIZE)) != 0 <==> off / BSIZE * BSIZE < off;
    if off % BSIZE == 0 {
      assert off / BSIZE * BSIZE < size && Holds(disk, i', FilePlace(n, off / BSIZE)) == 0;
      assert !FileOk(disk, i', n);
    } else {
      forall m: nat | m < |i'| ensures FileOk(disk, i', m) {
        forall bn: nat | bn * BSIZE < i'[m].size ensures Holds(disk, i', FilePlace(m, bn)) != 0 {
          assert Holds(disk, inodes, FilePlace(m, bn)) != 0 <==> bn * BSIZE < inodes[m].size;
        }
      }
    }
  }

  /** It fails for a root directory of 64 entries of 16 bytes, in one block. */
  lemma SixtyFourEntries()
    ensures var d, i := [ZeroBlock(), ZeroBlock()], [Ino(64 * 16, [1] + seq(NDIRECT, _ => 0))];
      AllReach(d, i) && MapInv(d, i) && !MapInv(d, Resize(i, 0, (i[0].size / BSIZE + 1) * BSIZE))
  {
    var d, i := [ZeroBlock(), ZeroBlock()], [Ino(64 * 16, [1] + seq(NDIRECT, _ => 0))];
    forall bn: nat ensures Holds(d, i, FilePlace(0, bn)) != 0 <==> bn * BSIZE < 64 * 16 {
    }
    assert AllReach(d, i);
    RootSize(d, i, 0);
  }

  // ---- The program ----

  class Image {
    const sb: Super
    var disk: Disk
    var inodes: Inodes
    var freeblock: nat
    ghost var owner: Owners

    ghost predicate Ok()
      reads this
    {
      Laid(sb, disk, inodes, owner, freeblock)
    }

    /** A disk of zeroes and `n` empty inodes. */
    constructor (sb: Super, n: nat)
      requires SuperOk(sb) && n <= 16 * (sb.bmapstart - sb.inodestart)
      ensures Ok() && AllReach(disk, inodes) && |inodes| == n && this.sb == sb && freeblock == sb.nmeta
    {
      this.sb := sb;
      disk := seq(sb.size, _ => ZeroBlock());
      inodes := seq(n, _ => Ino(0, seq(NDIRECT + 1, _ => 0)));
      freeblock := sb.nmeta;
      owner := map[];
    }

    /** The block of index fbn of inode n, the next free one if there was none; 0 if the image has no more. */
    method BlockFor(n: nat, fbn: nat) returns (x: nat)
      requires Ok() && n < |inodes| && fbn < MAXFILE
      modifies this
      ensures x != 0 ==> Ok() && SameBytes(old(disk), old(inodes), disk, inodes)
      ensures x != 0 ==> Gained(old(disk), old(inodes), disk, inodes, FilePlace(n, fbn), x)
      ensures var more := Missing(old(disk), old(inodes), n, fbn);
        && (x == 0 <==> old(freeblock) + more > sb.size) && (x != 0 ==> freeblock == old(freeblock) + more)
    {
      if fbn < NDIRECT {
        x := inodes[n].addrs[fbn];
        if x == 0 {
          if freeblock == sb.size { return 0; }
          StoredLaid(sb, disk, inodes, owner, freeblock, n, fbn);
          x := freeblock;
          inodes, owner, freeblock := StoreAddr(inodes, n, fbn, x), owner[x := Direct(n, fbn)], freeblock + 1;
        }
      } else {
        x := EntryFor(n, fbn - NDIRECT);
      }
    }

    method EntryFor(n: nat, j: nat) returns (x: nat)
      requires Ok() && n < |inodes| && j < NINDIRECT
      modifies this
      ensures x != 0 ==> Ok() && SameBytes(old(disk), old(inodes), disk, inodes)
      ensures x != 0 ==> Gained(old(disk), old(inodes), disk, inodes, Entry(n, j), x)
      ensures var more := Missing(old(disk), old(inodes), n, NDIRECT + j);
        && (x == 0 <==> old(freeblock) + more > sb.size) && (x != 0 ==> freeblock == old(freeblock) + more)
    {
      if inodes[n].addrs[NDIRECT] == 0 {
        if freeblock == sb.size { return 0; }
        StoredLaid(sb, disk, inodes, owner, freeblock, n, NDIRECT);
        inodes, owner, freeblock := StoreAddr(inodes, n, NDIRECT, freeblock), owner[freeblock := Indirect(n)],
            freeblock + 1;
      }
      var a := inodes[n].addrs[NDIRECT];
      assert a == Holds(disk, inodes, Indirect(n)) && a in owner;
      x := Word(disk[a], j);
      assert x == Holds(disk, inodes, Entry(n, j));
      if x == 0 {
        if freeblock == sb.size { return 0; }
        EntryLaid(sb, disk, inodes, owner, freeblock, n, j);
        x := freeblock;
        disk, owner, freeblock := disk[a := PutWord(disk[a], j, x)], owner[x := Entry(n, j)], freeblock + 1;
      }
    }

    /** iappend: false when the file or the image has no room, which ends the program. */
    method Iappend(n: nat, src: seq<Byte>) returns (ok: bool)
      requires Ok() && AllReach(disk, inodes) && n < |inodes|
      modifies this
      ensures ok <==> && old(inodes)[n].size + |src| <= MAXFILE * BSIZE
                      && old(freeblock) + Need(old(inodes)[n].size, |src|) <= sb.size
      ensures ok ==> freeblock == old(freeblock) + Need(old(inodes)[n].size, |src|)
      ensures ok ==> Ok() && AllReach(disk, inodes) && |inodes| == |old(inodes)|
      ensures ok ==> FileBytes(disk, inodes, n) == FileBytes(old(disk), old(inodes), n) + src
      ensures ok ==> forall m: nat :: m < |inodes| && m != n ==>
                FileBytes(disk, inodes, m) == FileBytes(old(disk), old(inodes), m)
    {
      hide Laid, AllReach, Appending, Gained, SameBytes, Reaches, Need, Extra, Missing;
      ghost var d0, i0 := disk, inodes;
      var off0, done := inodes[n].size, 0;
      AppendStarts(disk, inodes, n, src);
      FitsAll(d0, i0, n);
      LaidOwn(sb, disk, inodes, owner, freeblock);
      ok := true;
      while done < |src|
        invariant Ok() && n < |inodes| && done <= |src| && Appending(d0, i0, disk, inodes, n, off0, src, done)
        invariant off0 + done <= MAXFILE * BSIZE && freeblock == old(freeblock) + Need(off0, done) <= sb.size
      {
        var fbn := (off0 + done) / BSIZE;
        if fbn >= MAXFILE { return false; }
        var n1 := if |src| - done < (fbn + 1) * BSIZE - (off0 + done) then |src| - done
            else (fbn + 1) * BSIZE - (off0 + done);
        ghost var d1, i1 := disk, inodes;
        NeedFor(d0, i0, disk, inodes, n, off0, src, done, n1);
        var x := BlockFor(n, fbn);
        if x == 0 { return false; }
        LaidOwn(sb, disk, inodes, owner, freeblock);
        AppendedMore(sb, d0, i0, d1, i1, disk, inodes, owner, n, off0, src, done, x, n1);
        WrittenLaid(sb, disk, inodes, owner, freeblock, x, (off0 + done) % BSIZE, src[done..done + n1]);
        AppendingShape(d0, i0, disk[x := Splice(disk[x], (off0 + done) % BSIZE, src[done..done + n1])], inodes, n,
                       off0, src, done + n1);
        disk := disk[x := Splice(disk[x], (off0 + done) % BSIZE, src[done..done + n1])];
        done := done + n1;
      }
      AppendingShape(d0, i0, disk, inodes, n, off0, src, done);
      AppendEnds(d0, i0, disk, inodes, n, src);
      ResizedLaid(sb, disk, inodes, owner, freeblock, n, off0 + done);
      inodes := Resize(inodes, n, off0 + done);
    }

    /** The end of mkfs: the size of the root directory, inode n, and the bitmap; false when one bitmap block is not
        enough. The image satisfies the kernel's invariant; every file has the bytes it was given, and the root
        directory zeroes after them; and every block below a size is mapped if and only if the root directory did not
        end at a block boundary. */
    method Finish(n: nat) returns (ok: bool)
      requires Ok() && AllReach(disk, inodes) && n < |inodes|
      modifies this
      ensures ok <==> freeblock < BPB
      ensures freeblock == old(freeblock) && |inodes| == |old(inodes)|
      ensures ok ==> Inv(sb, disk, inodes, owner) && (MapInv(disk, inodes) <==> old(inodes)[n].size % BSIZE != 0)
      ensures ok ==> forall m: nat :: m < |inodes| && m != n ==>
                FileBytes(disk, inodes, m) == FileBytes(old(disk), old(inodes), m)
      ensures ok ==> FileBytes(disk, inodes, n) == FileBytes(old(disk), old(inodes), n)
                                                   + seq(BSIZE - old(inodes)[n].size % BSIZE, _ => 0)
    {
      hide Inv, MapInv, Laid, AllReach, FirstBits;
      var off := inodes[n].size;
      RootSize(disk, inodes, n);
      ResizedLaid(sb, disk, inodes, owner, freeblock, n, (off / BSIZE + 1) * BSIZE);
      RootBytes(disk, inodes, n);
      inodes := Resize(inodes, n, (off / BSIZE + 1) * BSIZE);
      if freeblock >= BPB { return false; }
      var data := BitmapData(freeblock);
      BitmapWritten(sb, disk, inodes, owner, freeblock, data);
      SameMapInv(disk, disk[sb.bmapstart := data], inodes);
      BitmapBytes(sb, disk, inodes, owner, freeblock, data);
      disk := disk[sb.bmapstart := data];
      ok := true;
    }
  }

  /** The root directory with its new size has zeroes after what it had. */
  lemma RootBytes(disk: Disk, inodes: Inodes, n: nat)
    requires AllReach(disk, inodes) && n < |inodes|
    ensures var i' := Resize(inodes, n, (inodes[n].size / BSIZE + 1) * BSIZE);
      && FileBytes(disk, i', n) == FileBytes(disk, inodes, n) + seq(BSIZE - inodes[n].size % BSIZE, _ => 0)
      && forall m: nat :: m < |inodes| && m != n ==> FileBytes(disk, i', m) == FileBytes(disk, inodes, m)
  {
    ResizedHolds(disk, inodes, n, (inodes[n].size / BSIZE + 1) * BSIZE);
    assert ZeroAfter(disk, inodes, n, inodes[n].size);
  }

  /** No byte of a file is in the bitmap. */
  lemma BitmapBytes(sb: Super, disk: Disk, inodes: Inodes, owner: Owners, freeblock: nat, data: Block)
    requires Laid(sb, disk, inodes, owner, freeblock) && sb.bmapstart < |disk|
    requires forall pl {:trigger Holds(disk[sb.bmapstart := data], inodes, pl)} ::
               Holds(disk[sb.bmapstart := data], inodes, pl) == Holds(disk, inodes, pl)
    ensures forall m: nat :: m < |inodes| ==>
              FileBytes(disk[sb.bmapstart := data], inodes, m) == FileBytes(disk, inodes, m)
  {
    BitmapIsMeta(sb, 0);
    var disk' := disk[sb.bmapstart := data];
    forall m: nat, o: nat ensures ByteAt(disk', inodes, m, o) == ByteAt(disk, inodes, m, o) {
      var a := Holds(disk, inodes, FilePlace(m, o / BSIZE));
      assert Holds(disk', inodes, FilePlace(m, o / BSIZE)) == a;
      assert a != 0 ==> a in owner;
    }
  }

  /** mkfs' balloc, on the block it writes. */
  method BitmapData(used: nat) returns (data: Block)
    requires used < BPB
    ensures FirstBits(data, used)
  {
    hide Bit, SetBit;
    data := ZeroBlock();
    forall j: nat | j < BPB ensures !Bit(data, j) {
      ZeroBits(j);
    }
    var i := 0;
    while i < used
      invariant i <= used && FirstBits(data, i)
    {
      var next := SetBit(data, i);
      forall j: nat | j < BPB ensures Bit(next, j) <==> j < i + 1 {
        BitChanged(data, i, j);
      }
      data := next;
      i := i + 1;
    }
  }

  lemma SameMapInv(d: Disk, d': Disk, i: Inodes)
    requires forall pl {:trigger Holds(d', i, pl)} :: Holds(d', i, pl) == Holds(d, i, pl)
    ensures MapInv(d', i) <==> MapInv(d, i)
  {
    forall n: nat | n < |i| ensures FileOk(d', i, n) <==> FileOk(d, i, n) {
      assert forall bn: nat :: Holds(d', i, FilePlace(n, bn)) == Holds(d, i, FilePlace(n, bn));
    }
  }

  lemma LaidOwn(sb: Super, disk: Disk, inodes: Inodes, owner: Owners, freeblock: nat)
    requires Laid(sb, disk, inodes, owner, freeblock)
    ensures OwnInv(sb, disk, inodes, owner) && freeblock <= sb.size
  {
  }

  lemma WrittenLaid(sb: Super, disk: Disk, inodes: Inodes, owner: Owners, freeblock: nat, x: nat, at: nat,
                    src: seq<Byte>)
    requires Laid(sb, disk, inodes, owner, freeblock) && x < |disk| && at + |src| <= |disk[x]|
    requires OwnInv(sb, disk[x := Splice(disk[x], at, src)], inodes, owner) && x in owner
    ensures Laid(sb, disk[x := Splice(disk[x], at, src)], inodes, owner, freeblock)
  {
  }

  lemma AppendingShape(d0: Disk, i0: Inodes, d: Disk, i: Inodes, n: nat, off0: nat, src: seq<Byte>, done: nat)
    requires Appending(d0, i0, d, i, n, off0, src, done)
    ensures |i| == |i0| && n < |i| && i[n].size == i0[n].size
  {
  }

  /** What the next piece lacks is what the whole append needs from here. */
  lemma NeedFor(d0: Disk, i0: Inodes, d: Disk, i: Inodes, n: nat, off0: nat, src: seq<Byte>, done: nat, n1: nat)
    requires Appending(d0, i0, d, i, n, off0, src, done)
    requires 0 < n1 && (off0 + done) % BSIZE + n1 <= BSIZE && done + n1 <= |src|
    ensures Need(off0, done + n1) == Need(off0, done) + Missing(d, i, n, (off0 + done) / BSIZE) <= Need(off0, |src|)
  {
    MissingExtra(d, i, n, off0 + done);
    NeedMore(off0, done, n1);
    NeedMonotone(off0, done + n1, |src|);
  }

  lemma FitsAll(d: Disk, i: Inodes, n: nat)
    requires AllReach(d, i) && n < |i|
    ensures i[n].size <= MAXFILE * BSIZE
  {
  }
}
