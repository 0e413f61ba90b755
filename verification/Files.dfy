/** The operations of kernel/fs.c on blocks and file contents: balloc, bfree, bmap, itrunc, readi and writei.  Each call
    is one holder of the inode's lock at work; `logged` collects the blocks given to log_write. */
module Files {
  import opened Std
  import opened FileSystem

  // ---- What bmap does to a file system ----

  /** Blocks may have gained owners, and places that were empty block numbers; nothing has changed hands. */
  ghost predicate PlacesKept(d0: Disk, i0: Inodes, o0: Owners, d1: Disk, i1: Inodes, o1: Owners) {
    && (forall b :: b in o0 ==> b in o1 && o1[b] == o0[b])
    && (forall pl :: Holds(d0, i0, pl) != 0 ==> Holds(d1, i1, pl) == Holds(d0, i0, pl))
  }

  /** And no size has changed. */
  ghost predicate Kept(d0: Disk, i0: Inodes, o0: Owners, d1: Disk, i1: Inodes, o1: Owners) {
    PlacesKept(d0, i0, o0, d1, i1, o1) && |i1| == |i0| && (forall n :: 0 <= n < |i0| ==> i1[n].size == i0[n].size)
  }

  /** And no byte of any file has changed. */
  ghost predicate Extended(d0: Disk, i0: Inodes, o0: Owners, d1: Disk, i1: Inodes, o1: Owners) {
    Kept(d0, i0, o0, d1, i1, o1) && (forall n, o :: ByteAt(d1, i1, n, o) == ByteAt(d0, i0, n, o))
  }

  lemma ExtendedSame(d: Disk, i: Inodes, o: Owners)
    ensures Extended(d, i, o, d, i, o)
  {
  }

  lemma ExtendedTransitive(d0: Disk, i0: Inodes, o0: Owners, d1: Disk, i1: Inodes, o1: Owners, d2: Disk, i2: Inodes,
                           o2: Owners)
    requires Extended(d0, i0, o0, d1, i1, o1) && Extended(d1, i1, o1, d2, i2, o2)
    ensures Extended(d0, i0, o0, d2, i2, o2)
  {
  }

  /** Giving one empty place a zero block. */
  lemma GainedExtends(sb: Super, d0: Disk, i0: Inodes, o0: Owners, d1: Disk, i1: Inodes, b: nat, pl: Place)
    requires OwnInv(sb, d0, i0, o0) && DiskOk(sb, d1) && b !in o0 && sb.nmeta <= b < sb.size && d1[b] == ZeroBlock()
    requires Holds(d0, i0, pl) == 0
             && forall q {:trigger Holds(d1, i1, q)} :: Holds(d1, i1, q) == if q == pl then b else Holds(d0, i0, q)
    requires forall c :: c in o0 && !o0[c].Indirect? && c < |d0| && c < |d1| ==> d1[c] == d0[c]
    requires |i1| == |i0| && (forall n :: 0 <= n < |i0| ==> i1[n].size == i0[n].size)
    ensures Extended(d0, i0, o0, d1, i1, o0[b := pl])
  {
    forall n: nat, o: nat ensures ByteAt(d1, i1, n, o) == ByteAt(d0, i0, n, o) {
      var q := FilePlace(n, o / BSIZE);
      assert Holds(d1, i1, q) == if q == pl then b else Holds(d0, i0, q);
      var a := Holds(d0, i0, q);
      assert a != 0 ==> a in o0 && o0[a] == q;
    }
  }

  // ---- Files as byte sequences ----

  /** Every block that a file's size covers is mapped. */
  ghost predicate MapInv(disk: Disk, inodes: Inodes) {
    forall n: nat :: n < |inodes| ==> FileOk(disk, inodes, n)
  }

  ghost predicate FileOk(disk: Disk, inodes: Inodes, n: nat)
    requires n < |inodes|
  {
    inodes[n].size <= MAXFILE * BSIZE && forall bn: nat :: bn * BSIZE < inodes[n].size ==>
          Holds(disk, inodes, FilePlace(n, bn)) != 0
  }

  function FileBytes(disk: Disk, inodes: Inodes, n: nat): (r: seq<Byte>)
    requires n < |inodes|
    ensures |r| == inodes[n].size && forall o :: 0 <= o < |r| ==> r[o] == ByteAt(disk, inodes, n, o)
  {
    seq(inodes[n].size, o requires 0 <= o => ByteAt(disk, inodes, n, o))
  }

  /** Every file that was mapped as far as its size goes still is; so MapInv is kept too. */
  ghost predicate MapKept(d0: Disk, i0: Inodes, d1: Disk, i1: Inodes) {
    |i1| == |i0| && forall n: nat :: n < |i0| && FileOk(d0, i0, n) ==> FileOk(d1, i1, n)
  }

  lemma MapKeptInv(d0: Disk, i0: Inodes, d1: Disk, i1: Inodes)
    requires MapKept(d0, i0, d1, i1) && MapInv(d0, i0)
    ensures MapInv(d1, i1)
  {
  }

  lemma MapKeptTransitive(d0: Disk, i0: Inodes, d1: Disk, i1: Inodes, d2: Disk, i2: Inodes)
    requires MapKept(d0, i0, d1, i1) && MapKept(d1, i1, d2, i2)
    ensures MapKept(d0, i0, d2, i2)
  {
  }

  lemma KeptMapped(d0: Disk, i0: Inodes, o0: Owners, d1: Disk, i1: Inodes, o1: Owners)
    requires Kept(d0, i0, o0, d1, i1, o1)
    ensures MapKept(d0, i0, d1, i1)
  {
  }

  function Resize(inodes: Inodes, n: nat, size: nat): Inodes
    requires n < |inodes|
  {
    inodes[n := inodes[n].(size := size)]
  }

  /** A size holds no block number. */
  lemma ResizedHolds(disk: Disk, inodes: Inodes, n: nat, size: nat)
    requires n < |inodes|
    ensures forall pl {:trigger Holds(disk, Resize(inodes, n, size), pl)} ::
            Holds(disk, Resize(inodes, n, size), pl) == Holds(disk, inodes, pl)
    ensures forall m, p {:trigger ByteAt(disk, Resize(inodes, n, size), m, p)} ::
              ByteAt(disk, Resize(inodes, n, size), m, p) == ByteAt(disk, inodes, m, p)
  {
  }

  lemma ResizedInv(sb: Super, disk: Disk, inodes: Inodes, owner: Owners, n: nat, size: nat)
    requires Inv(sb, disk, inodes, owner) && n < |inodes|
    ensures Inv(sb, disk, Resize(inodes, n, size), owner)
  {
    hide Holds, BitsInv;
    ResizedHolds(disk, inodes, n, size);
  }

  /** The part of a read or write at off that lies in its first block. */
  function Chunk(off: nat, left: nat): (m: nat)
    ensures m <= left && off % BSIZE + m <= BSIZE && (left > 0 ==> m > 0)
  {
    if left < BSIZE - off % BSIZE then left else BSIZE - off % BSIZE
  }

  /** The bytes of one block, as bytes of the file. */
  lemma BlockBytes(sb: Super, disk: Disk, inodes: Inodes, owner: Owners, n: nat, off: nat, m: nat)
    requires OwnInv(sb, disk, inodes, owner) && n < |inodes| && off % BSIZE + m <= BSIZE && off + m <= inodes[n].size
    requires Holds(disk, inodes, FilePlace(n, off / BSIZE)) != 0
    ensures var a := Holds(disk, inodes, FilePlace(n, off / BSIZE));
      a < |disk| && |disk[a]| == BSIZE
          && disk[a][off % BSIZE..off % BSIZE + m] == FileBytes(disk, inodes, n)[off..off + m]
  {
    var a := Holds(disk, inodes, FilePlace(n, off / BSIZE));
    assert a in owner;
    forall o: nat | off <= o < off + m ensures ByteAt(disk, inodes, n, o) == disk[a][off % BSIZE + (o - off)] {
      assert o / BSIZE == off / BSIZE && o % BSIZE == off % BSIZE + (o - off);
    }
  }

  lemma SameFile(d0: Disk, i0: Inodes, o0: Owners, d1: Disk, i1: Inodes, o1: Owners, n: nat)
    requires Extended(d0, i0, o0, d1, i1, o1) && n < |i0|
    ensures |i1| == |i0| && i1[n].size == i0[n].size && FileBytes(d1, i1, n) == FileBytes(d0, i0, n)
    ensures forall pl :: Holds(d0, i0, pl) != 0 ==> Holds(d1, i1, pl) != 0
  {
    assert forall o: nat :: o < i0[n].size ==> ByteAt(d1, i1, n, o) == ByteAt(d0, i0, n, o);
  }

  /** Every byte of the range lies in a block of the file. */
  ghost predicate Mapped(d: Disk, i: Inodes, n: nat, from: nat, to: nat) {
    forall o: nat :: from <= o < to ==> Holds(d, i, FilePlace(n, o / BSIZE)) != 0
  }

  /** What readi gives for `want` bytes at off, with room for some: the bytes of the file, all of them, or those before
      the first that has no room and -1, or those before a block that is missing on a full disk. */
  ghost predicate ReadResult(sb: Super, d0: Disk, i0: Inodes, o: Owners, n: nat, off: nat, want: nat, room: nat, r: int,
                             dst: seq<Byte>)
    requires n < |i0|
  {
    && |dst| <= want && |dst| <= room
        && (dst != [] ==> off + |dst| <= i0[n].size && dst == FileBytes(d0, i0, n)[off..off + |dst|])
    && (|| r == want == |dst|
        || (r == -1 && room < want && room - |dst| < BSIZE)
        || (r == |dst| < want && Full(sb, o) && Holds(d0, i0, FilePlace(n, (off + r) / BSIZE)) == 0))
  }

  // ---- What an operation logs ----

  ghost function BitmapBlocks(sb: Super, t: set<nat>): (r: set<nat>) {
    set b | b in t :: BitmapBlock(sb, b)
  }

  /** The blocks that allocating the blocks of t logs: each block, its bitmap block, and the indirect block if it got
      an entry. */
  ghost function AllocLog(sb: Super, owner: Owners, t: set<nat>, ind: nat): set<nat> {
    t + BitmapBlocks(sb, t) + if exists b :: b in t && b in owner && owner[b].Entry? then {ind} else {}
  }

  ghost function Taken(o0: Owners, o1: Owners): set<nat> {
    o1.Keys - o0.Keys
  }

  lemma AllocLogMore(sb: Super, o0: Owners, o1: Owners, o2: Owners, ind: nat)
    requires forall b :: b in o0 ==> b in o1
    requires forall b :: b in o1 ==> b in o2 && o2[b] == o1[b]
    ensures AllocLog(sb, o1, Taken(o0, o1), ind) + AllocLog(sb, o2, Taken(o1, o2), ind)
            == AllocLog(sb, o2, Taken(o0, o2), ind)
  {
    assert Taken(o0, o2) == Taken(o0, o1) + Taken(o1, o2);
    assert BitmapBlocks(sb, Taken(o0, o2)) == BitmapBlocks(sb, Taken(o0, o1)) + BitmapBlocks(sb, Taken(o1, o2));
  }

  lemma AllocLogOne(sb: Super, owner: Owners, b: nat, pl: Place, ind: nat)
    requires b !in owner
    ensures Taken(owner, owner[b := pl]) == {b}
    ensures AllocLog(sb, owner[b := pl], {b}, ind) == {b, BitmapBlock(sb, b)} + if pl.Entry? then {ind} else {}
  {
    assert BitmapBlocks(sb, {b}) == {BitmapBlock(sb, b)};
    var o1 := owner[b := pl];
    assert b in o1 && o1[b] == pl;
  }

  lemma AllocLogNone(sb: Super, owner: Owners, ind: nat)
    ensures Taken(owner, owner) == {} && AllocLog(sb, owner, Taken(owner, owner), ind) == {}
  {
  }

  /** No data block is free. */
  ghost predicate Full(sb: Super, owner: Owners) {
    forall b: nat :: sb.nmeta <= b < sb.size ==> b in owner
  }

  /** balloc followed by ip->addrs[i] = b. */
  lemma TookAddr(sb: Super, d0: Disk, i0: Inodes, o0: Owners, n: nat, i: nat, b: nat)
    requires Inv(sb, d0, i0, o0) && n < |i0| && i <= NDIRECT && i0[n].addrs[i] == 0 && sb.nmeta <= b < sb.size
             && b !in o0
    ensures 0 < b
    ensures var d1, i1, o1 := Allocate(sb, d0, b), StoreAddr(i0, n, i, b), o0[b := AddrPlace(n, i)];
            Inv(sb, d1, i1, o1) && Extended(d0, i0, o0, d1, i1, o1) && Holds(d1, i1, AddrPlace(n, i)) == b
  {
    var pl := AddrPlace(n, i);
    var d1, i1 := Allocate(sb, d0, b), StoreAddr(i0, n, i, b);
    AllocatedOwnInv(sb, d0, i0, o0, b);
    BitsAllocated(sb, d0, o0, b, pl);
    DataSame(sb, d0, b, b);
    StoredOwnInv(sb, d1, i0, o0, n, i, b);
    forall c | c in o0 ensures c < |d0| && d1[c] == d0[c] {
      DataSame(sb, d0, b, c);
    }
    forall q ensures Holds(d1, i1, q) == if q == pl then b else Holds(d0, i0, q) {
      StoredHolds(sb, d1, i0, n, i, b, q);
      SameHolds(sb, d0, i0, o0, d1, q);
    }
    GainedExtends(sb, d0, i0, o0, d1, i1, b, pl);
  }

  /** balloc followed by a[j] = b in the indirect block. */
  lemma TookEntry(sb: Super, d0: Disk, i0: Inodes, o0: Owners, n: nat, j: nat, b: nat)
    requires Inv(sb, d0, i0, o0) && n < |i0| && j < NINDIRECT && sb.nmeta <= b < sb.size && b !in o0
    requires Holds(d0, i0, Indirect(n)) != 0 && Holds(d0, i0, Entry(n, j)) == 0
    ensures 0 < b
    ensures var a := Holds(d0, i0, Indirect(n));
      && sb.nmeta <= a < sb.size && DiskOk(sb, Allocate(sb, d0, b))
      && var d1, o1 := Allocate(sb, d0, b)[a := PutWord(Allocate(sb, d0, b)[a], j, b)], o0[b := Entry(n, j)];
         Inv(sb, d1, i0, o1) && Extended(d0, i0, o0, d1, i0, o1) && Holds(d1, i0, Entry(n, j)) == b
  {
    hide BitsInv, Extended, Allocate, Word, PutWord;
    var pl, a := Entry(n, j), Holds(d0, i0, Indirect(n));
    var d := Allocate(sb, d0, b);
    AllocatedOwnInv(sb, d0, i0, o0, b);
    BitsAllocated(sb, d0, o0, b, pl);
    forall c | c in o0 ensures c < |d0| && d[c] == d0[c] {
      DataSame(sb, d0, b, c);
    }
    DataSame(sb, d0, b, b);
    forall q ensures Holds(d, i0, q) == Holds(d0, i0, q) {
      SameHolds(sb, d0, i0, o0, d, q);
    }
    EntryOwnInv(sb, d, i0, o0, n, j, b);
    var d1 := d[a := PutWord(d[a], j, b)];
    BitsSame(sb, d, o0[b := pl], {}, d1);
    forall q ensures Holds(d1, i0, q) == if q == pl then b else Holds(d0, i0, q) {
      EntryHolds(sb, d, i0, o0, n, j, b, q);
    }
    GainedExtends(sb, d0, i0, o0, d1, i0, b, pl);
  }

  /** What bmap promises for place pl of an inode: no byte changes, the place holds what is returned, a place that
      held something before keeps it and nothing changes, 0 means a full disk, and what is logged is what allocation
      needs. */
  ghost predicate MappedTo(sb: Super, d0: Disk, i0: Inodes, o0: Owners, l0: set<nat>, d1: Disk, i1: Inodes, o1: Owners,
                           l1: set<nat>, pl: Place, addr: nat) {
    && Extended(d0, i0, o0, d1, i1, o1)
    && (addr != 0 ==> Holds(d1, i1, pl) == addr)
    && (addr == 0 ==> Full(sb, o1) && Holds(d0, i0, pl) == 0)
    && (Holds(d0, i0, pl) != 0 ==> d1 == d0 && i1 == i0 && o1 == o0 && l1 == l0)
    && (forall b :: b in Taken(o0, o1) ==> o1[b] == pl || o1[b] == Indirect(pl.n))
    && l1 == l0 + AllocLog(sb, o1, Taken(o0, o1), Holds(d1, i1, Indirect(pl.n)))
  }

  lemma HoldsAddr(sb: Super, disk: Disk, inodes: Inodes, owner: Owners, n: nat, i: nat)
    requires OwnInv(sb, disk, inodes, owner) && n < |inodes| && i <= NDIRECT
    ensures |inodes[n].addrs| == NDIRECT + 1 && Holds(disk, inodes, AddrPlace(n, i)) == inodes[n].addrs[i]
  {
  }

  lemma HoldsEntry(sb: Super, disk: Disk, inodes: Inodes, owner: Owners, n: nat, j: nat, a: nat)
    requires OwnInv(sb, disk, inodes, owner) && n < |inodes| && j < NINDIRECT
             && a == Holds(disk, inodes, Indirect(n)) != 0
    ensures a < |disk| && |disk[a]| == BSIZE && Holds(disk, inodes, Entry(n, j)) == Word(disk[a], j)
  {
    assert a in owner;
  }

  lemma MappedAlready(sb: Super, disk: Disk, inodes: Inodes, owner: Owners, logged: set<nat>, pl: Place)
    requires Holds(disk, inodes, pl) != 0
    ensures MappedTo(sb, disk, inodes, owner, logged, disk, inodes, owner, logged, pl, Holds(disk, inodes, pl))
  {
    AllocLogNone(sb, owner, Holds(disk, inodes, Indirect(pl.n)));
  }

  /** One balloc whose block goes to place pl, or none. */
  lemma TookMapped(sb: Super, d0: Disk, i0: Inodes, o0: Owners, l0: set<nat>, d1: Disk, i1: Inodes, o1: Owners,
                   l1: set<nat>, pl: Place, b: nat)
    requires Extended(d0, i0, o0, d1, i1, o1) && Holds(d0, i0, pl) == 0
    requires b == 0 ==> o1 == o0 && l1 == l0 && Full(sb, o1)
    requires b != 0 ==>
               && b !in o0 && o1 == o0[b := pl] && Holds(d1, i1, pl) == b
               && l1 == l0 + {b, BitmapBlock(sb, b)} + if pl.Entry? then {Holds(d1, i1, Indirect(pl.n))} else {}
    ensures MappedTo(sb, d0, i0, o0, l0, d1, i1, o1, l1, pl, b)
  {
    if b == 0 {
      AllocLogNone(sb, o0, Holds(d1, i1, Indirect(pl.n)));
    } else {
      AllocLogOne(sb, o0, b, pl, Holds(d1, i1, Indirect(pl.n)));
    }
  }

  lemma MappedKeeps(sb: Super, d0: Disk, i0: Inodes, o0: Owners, l0: set<nat>, d1: Disk, i1: Inodes, o1: Owners,
                    l1: set<nat>, pl: Place, addr: nat)
    requires MappedTo(sb, d0, i0, o0, l0, d1, i1, o1, l1, pl, addr)
    ensures |i1| == |i0| && (addr != 0 ==> Holds(d1, i1, pl) == addr)
  {
  }

  lemma FullAtIndirect(sb: Super, d0: Disk, i0: Inodes, o0: Owners, l0: set<nat>, d1: Disk, i1: Inodes, o1: Owners,
                       l1: set<nat>, n: nat, j: nat)
    requires MappedTo(sb, d0, i0, o0, l0, d1, i1, o1, l1, Indirect(n), 0)
    ensures MappedTo(sb, d0, i0, o0, l0, d1, i1, o1, l1, Entry(n, j), 0)
  {
  }

  /** The indirect block first, then its entry. */
  lemma MappedMore(sb: Super, d0: Disk, i0: Inodes, o0: Owners, l0: set<nat>, d1: Disk, i1: Inodes, o1: Owners,
                   l1: set<nat>, d2: Disk, i2: Inodes, o2: Owners, l2: set<nat>, n: nat, j: nat, addr: nat)
    requires Holds(d1, i1, Indirect(n)) != 0
    requires MappedTo(sb, d0, i0, o0, l0, d1, i1, o1, l1, Indirect(n), Holds(d1, i1, Indirect(n)))
    requires MappedTo(sb, d1, i1, o1, l1, d2, i2, o2, l2, Entry(n, j), addr)
    ensures MappedTo(sb, d0, i0, o0, l0, d2, i2, o2, l2, Entry(n, j), addr)
  {
    var ind := Holds(d1, i1, Indirect(n));
    assert Holds(d2, i2, Indirect(n)) == ind;
    ExtendedTransitive(d0, i0, o0, d1, i1, o1, d2, i2, o2);
    AllocLogMore(sb, o0, o1, o2, ind);
    if Holds(d0, i0, Entry(n, j)) != 0 {
      assert Holds(d0, i0, Indirect(n)) != 0;
    }
  }

  class Fs {
    const sb: Super
    var disk: Disk
    var inodes: Inodes
    ghost var owner: Owners
    ghost var logged: set<nat>

    ghost predicate Ok()
      reads this
    {
      Inv(sb, disk, inodes, owner)
    }

    constructor (sb: Super, disk: Disk, inodes: Inodes, ghost owner: Owners)
      requires Inv(sb, disk, inodes, owner)
      ensures Ok() && this.sb == sb && this.disk == disk && this.inodes == inodes && this.owner == owner && logged == {}
    {
      this.sb, this.disk, this.inodes, this.owner, this.logged := sb, disk, inodes, owner, {};
    }

    /** One bitmap block of balloc's scan, from block `base` on: the first clear bit, or all are set. */
    method ScanBitmap(base: nat) returns (b: nat)
      requires Ok() && base % BPB == 0 && base < sb.size
      ensures b <= sb.size && base <= b <= base + BPB && forall c: nat :: base <= c < b ==> BitSet(sb, disk, c)
      ensures b < base + BPB && b < sb.size ==> !BitSet(sb, disk, b)
    {
      var bi := 0;
      while bi < BPB && base + bi < sb.size
        invariant 0 <= bi <= BPB && base + bi <= sb.size
        invariant forall c: nat :: base <= c < base + bi ==> BitSet(sb, disk, c)
      {
        var c := base + bi;
        assert c / BPB == base / BPB && c % BPB == bi;
        BitmapIsMeta(sb, c);
        if !Bit(disk[base / BPB + sb.bmapstart], bi) { return base + bi; }
        bi := bi + 1;
      }
      b := base + bi;
    }

    /** balloc: the first free block, marked and zeroed; 0 when there is none. */
    method Balloc() returns (b: nat)
      requires Ok()
      modifies this`disk, this`logged
      ensures b == 0 ==> disk == old(disk) && logged == old(logged) && Full(sb, owner)
      ensures b != 0 ==>
                && sb.nmeta <= b < sb.size && b !in owner && (forall c: nat :: sb.nmeta <= c < b ==> c in owner)
                && disk == Allocate(sb, old(disk), b) && logged == old(logged) + {BitmapBlock(sb, b), b}
    {
      var base := 0;
      while base < sb.size
        invariant base % BPB == 0 && disk == old(disk) && logged == old(logged)
        invariant forall c: nat :: c < base && c < sb.size ==> BitSet(sb, disk, c)
      {
        b := ScanBitmap(base);
        if b < base + BPB && b < sb.size {
          BitmapIsMeta(sb, b);
          disk := disk[BitmapBlock(sb, b) := SetBit(disk[BitmapBlock(sb, b)], b % BPB)];
          logged := logged + {BitmapBlock(sb, b)};
          disk := disk[b := ZeroBlock()];
          logged := logged + {b};
          return;
        }
        base := base + BPB;
      }
      b := 0;
    }

    /** bfree; a clear bit would be the panic "freeing free block". */
    method Bfree(b: nat)
      requires DiskOk(sb, disk) && sb.nmeta <= b < sb.size && BitSet(sb, disk, b)
      modifies this`disk, this`logged
      ensures disk == Release(sb, old(disk), b) && logged == old(logged) + {BitmapBlock(sb, b)}
    {
      BitmapIsMeta(sb, b);
      var data := disk[BitmapBlock(sb, b)];
      if !Bit(data, b % BPB) { assert false; }
      disk := disk[BitmapBlock(sb, b) := ClearBit(data, b % BPB)];
      logged := logged + {BitmapBlock(sb, b)};
    }

    // ---- bmap ----

    method TakeAddr(n: nat, i: nat) returns (b: nat)
      requires Ok() && n < |inodes| && i <= NDIRECT && inodes[n].addrs[i] == 0
      modifies this
      ensures Ok() && Extended(old(disk), old(inodes), old(owner), disk, inodes, owner)
      ensures b == 0 ==> disk == old(disk) && inodes == old(inodes) && owner == old(owner) && logged == old(logged)
                         && Full(sb, owner)
      ensures b != 0 ==>
                && b !in old(owner) && owner == old(owner)[b := AddrPlace(n, i)]
                    && Holds(disk, inodes, AddrPlace(n, i)) == b
                && logged == old(logged) + {BitmapBlock(sb, b), b}
    {
      assert |inodes[n].addrs| == NDIRECT + 1;
      hide OwnInv, BitsInv, Extended, Holds, Allocate;
      ExtendedSame(disk, inodes, owner);
      b := Balloc();
      if b == 0 { return; }
      TookAddr(sb, old(disk), inodes, owner, n, i, b);
      inodes := StoreAddr(inodes, n, i, b);
      owner := owner[b := AddrPlace(n, i)];
    }

    method TakeEntry(n: nat, j: nat) returns (b: nat)
      requires Ok() && n < |inodes| && j < NINDIRECT && Holds(disk, inodes, Indirect(n)) != 0
               && Holds(disk, inodes, Entry(n, j)) == 0
      modifies this
      ensures Ok() && Extended(old(disk), old(inodes), old(owner), disk, inodes, owner) && inodes == old(inodes)
      ensures b == 0 ==> disk == old(disk) && owner == old(owner) && logged == old(logged) && Full(sb, owner)
      ensures b != 0 ==>
                && b !in old(owner) && owner == old(owner)[b := Entry(n, j)] && Holds(disk, inodes, Entry(n, j)) == b
                && logged == old(logged) + {BitmapBlock(sb, b), b, Holds(disk, inodes, Indirect(n))}
    {
      hide BitsInv, Extended, Allocate;
      ExtendedSame(disk, inodes, owner);
      b := Balloc();
      if b == 0 { return; }
      TookEntry(sb, old(disk), inodes, owner, n, j, b);
      var a := inodes[n].addrs[NDIRECT];
      disk := disk[a := PutWord(disk[a], j, b)];
      logged := logged + {a};
      owner := owner[b := Entry(n, j)];
    }

    /** bmap: the block of index bn, allocated if need be; 0 when the disk is full. */
    method Bmap(n: nat, bn: nat) returns (addr: nat)
      requires Ok() && n < |inodes| && bn < MAXFILE
      modifies this
      ensures Ok()
      ensures MappedTo(sb, old(disk), old(inodes), old(owner), old(logged), disk, inodes, owner, logged,
                       FilePlace(n, bn), addr)
    {
      hide Inv, MappedTo;
      if bn < NDIRECT {
        addr := LoadAddr(n, bn);
      } else {
        addr := BmapIndirect(n, bn - NDIRECT);
      }
    }

    /** The block at ip->addrs[i], allocated if need be. */
    method LoadAddr(n: nat, i: nat) returns (addr: nat)
      requires Ok() && n < |inodes| && i <= NDIRECT
      modifies this
      ensures Ok()
      ensures MappedTo(sb, old(disk), old(inodes), old(owner), old(logged), disk, inodes, owner, logged,
                       AddrPlace(n, i), addr)
    {
      hide OwnInv, BitsInv, Holds, Kept, Extended, AllocLog, MappedTo, Full;
      HoldsAddr(sb, disk, inodes, owner, n, i);
      addr := inodes[n].addrs[i];
      if addr == 0 {
        addr := TakeAddr(n, i);
        TookMapped(sb, old(disk), old(inodes), old(owner), old(logged), disk, inodes, owner, logged, AddrPlace(n, i),
                   addr);
      } else {
        MappedAlready(sb, disk, inodes, owner, logged, AddrPlace(n, i));
      }
    }

    /** The part of bmap for the blocks listed in the indirect block. */
    method BmapIndirect(n: nat, j: nat) returns (addr: nat)
      requires Ok() && n < |inodes| && j < NINDIRECT
      modifies this
      ensures Ok()
      ensures MappedTo(sb, old(disk), old(inodes), old(owner), old(logged), disk, inodes, owner, logged, Entry(n, j),
                       addr)
    {
      hide OwnInv, BitsInv, Holds, Kept, Extended, AllocLog, MappedTo, Full;
      var a := LoadAddr(n, NDIRECT);
      MappedKeeps(sb, old(disk), old(inodes), old(owner), old(logged), disk, inodes, owner, logged, Indirect(n), a);
      if a == 0 {
        FullAtIndirect(sb, old(disk), old(inodes), old(owner), old(logged), disk, inodes, owner, logged, n, j);
        return 0;
      }
      ghost var d1, i1, o1, l1 := disk, inodes, owner, logged;
      HoldsEntry(sb, disk, inodes, owner, n, j, a);
      addr := Word(disk[a], j);
      if addr == 0 {
        addr := TakeEntry(n, j);
        TookMapped(sb, d1, i1, o1, l1, disk, inodes, owner, logged, Entry(n, j), addr);
      } else {
        MappedAlready(sb, disk, inodes, owner, logged, Entry(n, j));
      }
      MappedMore(sb, old(disk), old(inodes), old(owner), old(logged), d1, i1, o1, l1, disk, inodes, owner, logged, n,
                 j, addr);
    }

    // ---- readi ----

    /** bmap of a block of the file, and the bytes in it; 0 when it has none and the disk is full. */
    method ReadChunk(n: nat, off: nat, m: nat) returns (addr: nat, data: seq<Byte>)
      requires Ok() && n < |inodes| && 0 < m && off % BSIZE + m <= BSIZE && off + m <= inodes[n].size <= MAXFILE * BSIZE
      modifies this
      ensures Ok() && Extended(old(disk), old(inodes), old(owner), disk, inodes, owner)
      ensures Holds(old(disk), old(inodes), FilePlace(n, off / BSIZE)) != 0 ==>
                addr != 0 && disk == old(disk) && inodes == old(inodes) && owner == old(owner) && logged == old(logged)
      ensures addr == 0 ==> Full(sb, owner)
      ensures addr != 0 ==> data == FileBytes(old(disk), old(inodes), n)[off..off + m]
    {
      hide Holds;
      addr := Bmap(n, off / BSIZE);
      data := [];
      if addr != 0 {
        SameFile(old(disk), old(inodes), old(owner), disk, inodes, owner, n);
        BlockBytes(sb, disk, inodes, owner, n, off, m);
        data := disk[addr][off % BSIZE..off % BSIZE + m];
      }
    }

    /** readi of cnt bytes at off, to a destination whose first `room` bytes can be written; the result is readi's,
        and dst the bytes copied out.  Past the end, or where the sum wraps, there is nothing to read.  Otherwise it is
        asked for the cnt bytes at off, or for those up to the end of the file if that comes first: it gives them all,
        if there is room.  A block that the file lacks below its size reads as zeroes and is allocated on the way, so
        that only a full disk can cut the reading short. */
    method Readi(n: nat, off: nat, cnt: nat, room: nat) returns (r: int, dst: seq<Byte>)
      requires Ok() && n < |inodes| && inodes[n].size <= MAXFILE * BSIZE && off < U32 && cnt < U32
      modifies this
      ensures Ok() && Extended(old(disk), old(inodes), old(owner), disk, inodes, owner)
      ensures off > old(inodes)[n].size || off + cnt >= U32 ==>
                r == 0 && dst == [] && disk == old(disk) && inodes == old(inodes) && owner == old(owner)
      ensures off <= old(inodes)[n].size && off + cnt < U32 ==>
                var end := if off + cnt <= old(inodes)[n].size then off + cnt else old(inodes)[n].size;
                && ReadResult(sb, old(disk), old(inodes), owner, n, off, end - off, room, r, dst)
                && (Mapped(old(disk), old(inodes), n, off, end) ==>
                      && disk == old(disk) && inodes == old(inodes) && owner == old(owner) && logged == old(logged)
                      && (end - off <= room ==>
                            r == end - off && dst == FileBytes(old(disk), old(inodes), n)[off..end])
                      && (end - off > room ==> r == -1))
    {
      hide Inv, Extended, Holds, FileBytes, Full, Mapped;
      ExtendedSame(disk, inodes, owner);
      if off > inodes[n].size || (off + cnt) % U32 < off { return 0, []; }
      var want := if off + cnt > inodes[n].size then inodes[n].size - off else cnt;
      r, dst := ReadLoop(n, off, want, room);
    }

    method ReadLoop(n: nat, off: nat, want: nat, room: nat) returns (r: int, dst: seq<Byte>)
      requires Ok() && n < |inodes| && off + want <= inodes[n].size <= MAXFILE * BSIZE
      modifies this
      ensures Ok() && Extended(old(disk), old(inodes), old(owner), disk, inodes, owner)
      ensures ReadResult(sb, old(disk), old(inodes), owner, n, off, want, room, r, dst)
      ensures Mapped(old(disk), old(inodes), n, off, off + want) ==>
                && disk == old(disk) && inodes == old(inodes) && owner == old(owner) && logged == old(logged)
                && r == if want <= room then want else -1
    {
      hide Inv, Extended, Holds, FileBytes, Full;
      ghost var d0, i0, o0, l0 := disk, inodes, owner, logged;
      ghost var f := FileBytes(d0, i0, n);
      ExtendedSame(d0, i0, o0);
      dst := [];
      while |dst| < want
        invariant Ok() && Extended(d0, i0, o0, disk, inodes, owner) && |inodes| == |i0| && inodes[n].size == i0[n].size
        invariant |dst| <= want && |dst| <= room && dst == f[off..off + |dst|]
        invariant Mapped(d0, i0, n, off, off + want) ==> disk == d0 && inodes == i0 && owner == o0 && logged == l0
      {
        ghost var d1, i1, o1 := disk, inodes, owner;
        var at := off + |dst|;
        var m := Chunk(at, want - |dst|);
        SameFile(d0, i0, o0, d1, i1, o1, n);
        var addr, data := ReadChunk(n, at, m);
        SameFile(d1, i1, o1, disk, inodes, owner, n);
        ExtendedTransitive(d0, i0, o0, d1, i1, o1, disk, inodes, owner);
        if addr == 0 { return |dst|, dst; }
        if |dst| + m > room { return -1, dst; }
        assert f[off..at + m] == f[off..at] + f[at..at + m];
        dst := dst + data;
      }
      r := want;
    }
  }
}
