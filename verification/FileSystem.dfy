/** The block and file layer (kernel/fs.c) as values: the free bitmap, the places where block numbers are kept, who
    owns which block, and the bytes of a file.  Blocks are what the log and the buffer cache show to one operation. */
module FileSystem {
  import opened Std

  const BSIZE: nat := 1024
  /** Bitmap bits per block. */
  const BPB: nat := 8192
  const NDIRECT: nat := 12
  const NINDIRECT: nat := 256
  const MAXFILE: nat := 268

  type Block = seq<Byte>

  // ---- Bits ----

  function Power(n: nat): (p: nat)
    ensures p > 0
  {
    if n == 0 then 1 else 2 * Power(n - 1)
  }

  /** x & (1 << k) != 0. */
  predicate HasBit(x: nat, k: nat) {
    if k == 0 then x % 2 == 1 else HasBit(x / 2, k - 1)
  }

  /** x | (1 << k). */
  function WithBit(x: nat, k: nat): nat {
    if k == 0 then x / 2 * 2 + 1 else WithBit(x / 2, k - 1) * 2 + x % 2
  }

  /** x & ~(1 << k). */
  function WithoutBit(x: nat, k: nat): nat {
    if k == 0 then x / 2 * 2 else WithoutBit(x / 2, k - 1) * 2 + x % 2
  }

  lemma {:induction false} BitOf(x: nat, k: nat, j: nat)
    ensures HasBit(WithBit(x, k), j) <==> j == k || HasBit(x, j)
    ensures HasBit(WithoutBit(x, k), j) <==> j != k && HasBit(x, j)
  {
    if k > 0 && j > 0 { BitOf(x / 2, k - 1, j - 1); }
  }

  /** Bits within a word of n bits stay in it. */
  lemma {:induction false} BitFits(x: nat, k: nat, n: nat)
    requires k < n && x < Power(n)
    ensures WithBit(x, k) < Power(n) && WithoutBit(x, k) < Power(n)
  {
    if k > 0 { BitFits(x / 2, k - 1, n - 1); }
  }

  lemma ByteBit(x: Byte, k: nat)
    requires k < 8
    ensures WithBit(x as int, k) < 256 && WithoutBit(x as int, k) < 256
  {
    assert Power(8) == 256 by { assert Power(4) == 16; }
    BitFits(x as int, k, 8);
  }

  /** Bit i of a bitmap block. */
  predicate Bit(data: Block, i: nat)
    requires |data| == BSIZE && i < BPB
  {
    HasBit(data[i / 8] as int, i % 8)
  }

  function SetBit(data: Block, i: nat): (r: Block)
    requires |data| == BSIZE && i < BPB
    ensures |r| == BSIZE
  {
    ByteBit(data[i / 8], i % 8);
    data[i / 8 := WithBit(data[i / 8] as int, i % 8) as Byte]
  }

  function ClearBit(data: Block, i: nat): (r: Block)
    requires |data| == BSIZE && i < BPB
    ensures |r| == BSIZE
  {
    ByteBit(data[i / 8], i % 8);
    data[i / 8 := WithoutBit(data[i / 8] as int, i % 8) as Byte]
  }

  lemma BitChanged(data: Block, i: nat, j: nat)
    requires |data| == BSIZE && i < BPB && j < BPB
    ensures Bit(SetBit(data, i), j) <==> j == i || Bit(data, j)
    ensures Bit(ClearBit(data, i), j) <==> j != i && Bit(data, j)
  {
    hide HasBit, WithBit, WithoutBit;
    ByteBit(data[i / 8], i % 8);
    BitOf(data[i / 8] as int, i % 8, j % 8);
    assert i == i / 8 * 8 + i % 8 && j == j / 8 * 8 + j % 8;
  }

  // ---- Words of an indirect block ----

  /** a[j], for the block read as an array of little-endian 32-bit words. */
  function Word(data: Block, j: nat): (w: nat)
    requires |data| == BSIZE && j < NINDIRECT
  {
    data[4 * j] as int + 256 * data[4 * j + 1] as int + 65536 * data[4 * j + 2] as int
        + 16777216 * data[4 * j + 3] as int
  }

  /** a[j] = v. */
  function PutWord(data: Block, j: nat, v: nat): (r: Block)
    requires |data| == BSIZE && j < NINDIRECT && v < U32
    ensures |r| == BSIZE
  {
    data[4 * j := (v % 256) as Byte][4 * j + 1 := (v / 256 % 256) as Byte]
        [4 * j + 2 := (v / 65536 % 256) as Byte][4 * j + 3 := (v / 16777216 % 256) as Byte]
  }

  lemma WordPut(data: Block, j: nat, v: nat, i: nat)
    requires |data| == BSIZE && j < NINDIRECT && v < U32 && i < NINDIRECT
    ensures Word(PutWord(data, j, v), i) == if i == j then v else Word(data, i)
  {
    if i == j { Digits(v); }
  }

  lemma Digits(v: nat)
    requires v < U32
    ensures v == v % 256 + 256 * (v / 256 % 256) + 65536 * (v / 65536 % 256) + 16777216 * (v / 16777216 % 256)
  {
    var a := v / 256;
    var b := v / 65536;
    var c := v / 16777216;
    assert v == 256 * a + v % 256;
    assert a == 256 * b + a % 256;
    assert b == 256 * c + b % 256;
    assert c < 256;
  }

  function ZeroBlock(): (z: Block)
    ensures |z| == BSIZE && forall i :: 0 <= i < BSIZE ==> z[i] == 0
  {
    seq(BSIZE, i => 0)
  }

  // ---- Layout ----

  /** The superblock; `nmeta` blocks come before the data blocks and are marked in use for good. */
  datatype Super = Super(size: nat, inodestart: nat, bmapstart: nat, nmeta: nat)

  ghost predicate SuperOk(sb: Super) {
    sb.inodestart < sb.bmapstart && sb.bmapstart + (sb.size + BPB - 1) / BPB <= sb.nmeta <= sb.size < U32
  }

  /** BBLOCK(b, sb). */
  function BitmapBlock(sb: Super, b: nat): nat {
    b / BPB + sb.bmapstart
  }

  /** IBLOCK(n, sb), with 16 inodes of 64 bytes to a block. */
  function InodeBlock(sb: Super, n: nat): nat {
    n / 16 + sb.inodestart
  }

  lemma BitmapIsMeta(sb: Super, b: nat)
    requires SuperOk(sb) && b < sb.size
    ensures sb.bmapstart <= BitmapBlock(sb, b) < sb.nmeta
  {
  }

  /** An inode: its size and its NDIRECT + 1 block numbers, 0 for none. */
  datatype Ino = Ino(size: nat, addrs: seq<nat>)

  type Disk = seq<Block>
  type Inodes = seq<Ino>

  ghost predicate DiskOk(sb: Super, disk: Disk) {
    SuperOk(sb) && |disk| == sb.size && forall b :: 0 <= b < |disk| ==> |disk[b]| == BSIZE
  }

  ghost predicate InodesOk(sb: Super, inodes: Inodes) {
    |inodes| <= 16 * (sb.bmapstart - sb.inodestart) && forall n :: 0 <= n < |inodes| ==>
          |inodes[n].addrs| == NDIRECT + 1
  }

  predicate Marked(sb: Super, disk: Disk, b: nat)
    requires BitmapBlock(sb, b) < |disk| && |disk[BitmapBlock(sb, b)]| == BSIZE
  {
    Bit(disk[BitmapBlock(sb, b)], b % BPB)
  }

  /** balloc's effect: the bit set and the block zero. */
  ghost function Allocate(sb: Super, disk: Disk, b: nat): Disk
    requires DiskOk(sb, disk) && b < sb.size
  {
    BitmapIsMeta(sb, b);
    disk[BitmapBlock(sb, b) := SetBit(disk[BitmapBlock(sb, b)], b % BPB)][b := ZeroBlock()]
  }

  /** bfree's effect. */
  ghost function Release(sb: Super, disk: Disk, b: nat): Disk
    requires DiskOk(sb, disk) && b < sb.size
  {
    BitmapIsMeta(sb, b);
    disk[BitmapBlock(sb, b) := ClearBit(disk[BitmapBlock(sb, b)], b % BPB)]
  }

  lemma MarkedAfter(sb: Super, disk: Disk, b: nat, c: nat)
    requires DiskOk(sb, disk) && sb.nmeta <= b < sb.size && c < sb.size
    ensures DiskOk(sb, Allocate(sb, disk, b)) && DiskOk(sb, Release(sb, disk, b))
    ensures BitmapBlock(sb, c) < sb.nmeta
    ensures Marked(sb, Allocate(sb, disk, b), c) <==> c == b || Marked(sb, disk, c)
    ensures Marked(sb, Release(sb, disk, b), c) <==> c != b && Marked(sb, disk, c)
  {
    BitmapIsMeta(sb, b);
    BitmapIsMeta(sb, c);
    BitChanged(disk[BitmapBlock(sb, b)], b % BPB, c % BPB);
    assert b == b / BPB * BPB + b % BPB && c == c / BPB * BPB + c % BPB;
  }

  // ---- Places that hold block numbers ----

  datatype Place = Direct(n: nat, i: nat) | Indirect(n: nat) | Entry(n: nat, j: nat)

  /** The block number that a place holds; 0 for none. */
  function Holds(disk: Disk, inodes: Inodes, pl: Place): nat {
    if pl.n >= |inodes| || |inodes[pl.n].addrs| != NDIRECT + 1 then 0
    else
      var addrs := inodes[pl.n].addrs;
      match pl
      case Direct(_, i) => if i < NDIRECT then addrs[i] else 0
      case Indirect(_) => addrs[NDIRECT]
      case Entry(_, j) =>
        var a := addrs[NDIRECT];
        if 0 < a < |disk| && |disk[a]| == BSIZE && j < NINDIRECT then Word(disk[a], j) else 0
  }

  /** The place of the bn-th block of a file. */
  function FilePlace(n: nat, bn: nat): Place {
    if bn < NDIRECT then Direct(n, bn) else Entry(n, bn - NDIRECT)
  }

  type Owners = map<nat, Place>

  /** Every block number in use is held by exactly one place, its owner, and is a data block. */
  ghost predicate OwnInv(sb: Super, disk: Disk, inodes: Inodes, owner: Owners) {
    && DiskOk(sb, disk) && InodesOk(sb, inodes)
    && (forall pl {:trigger Holds(disk, inodes, pl)} ::
          Holds(disk, inodes, pl) != 0 ==> Holds(disk, inodes, pl) in owner && owner[Holds(disk, inodes, pl)] == pl)
    && (forall b :: b in owner ==> sb.nmeta <= b < sb.size && Holds(disk, inodes, owner[b]) == b)
  }

  /** The bitmap marks the blocks before the data blocks, and the owned blocks but for those in `gone`. */
  ghost predicate BitsInv(sb: Super, disk: Disk, owner: Owners, gone: set<nat>) {
    && DiskOk(sb, disk)
    && forall b: nat :: b < sb.size ==> (BitSet(sb, disk, b) <==> b < sb.nmeta || (b in owner && b !in gone))
  }

  ghost predicate BitSet(sb: Super, disk: Disk, b: nat) {
    BitmapBlock(sb, b) < |disk| && |disk[BitmapBlock(sb, b)]| == BSIZE && Marked(sb, disk, b)
  }

  ghost predicate Inv(sb: Super, disk: Disk, inodes: Inodes, owner: Owners) {
    OwnInv(sb, disk, inodes, owner) && BitsInv(sb, disk, owner, {})
  }

  // ---- Allocating and freeing ----

  lemma BitsAllocated(sb: Super, disk: Disk, owner: Owners, b: nat, pl: Place)
    requires BitsInv(sb, disk, owner, {}) && sb.nmeta <= b < sb.size
    ensures BitsInv(sb, Allocate(sb, disk, b), owner[b := pl], {})
  {
    var disk' := Allocate(sb, disk, b);
    MarkedAfter(sb, disk, b, b);
    forall c: nat | c < sb.size ensures BitSet(sb, disk', c) <==> c == b || BitSet(sb, disk, c) {
      MarkedAfter(sb, disk, b, c);
    }
  }

  lemma BitsReleased(sb: Super, disk: Disk, owner: Owners, gone: set<nat>, b: nat)
    requires BitsInv(sb, disk, owner, gone) && sb.nmeta <= b < sb.size
    ensures BitsInv(sb, Release(sb, disk, b), owner, gone + {b})
  {
    var disk' := Release(sb, disk, b);
    MarkedAfter(sb, disk, b, b);
    forall c: nat | c < sb.size ensures BitSet(sb, disk', c) <==> c != b && BitSet(sb, disk, c) {
      MarkedAfter(sb, disk, b, c);
    }
  }

  /** Data blocks other than b come through balloc and bfree of b unchanged. */
  lemma DataSame(sb: Super, disk: Disk, b: nat, c: nat)
    requires DiskOk(sb, disk) && sb.nmeta <= b < sb.size && sb.nmeta <= c < sb.size
    ensures c != b ==> Allocate(sb, disk, b)[c] == disk[c]
    ensures Allocate(sb, disk, b)[b] == ZeroBlock() && Release(sb, disk, b)[c] == disk[c]
  {
    BitmapIsMeta(sb, b);
  }

  /** A disk with the same data blocks where it matters holds the same block numbers. */
  lemma SameHolds(sb: Super, disk: Disk, inodes: Inodes, owner: Owners, disk': Disk, pl: Place)
    requires OwnInv(sb, disk, inodes, owner) && DiskOk(sb, disk')
    requires forall c :: c in owner && owner[c].Indirect? && c < |disk| && c < |disk'| ==> disk'[c] == disk[c]
    ensures Holds(disk', inodes, pl) == Holds(disk, inodes, pl)
  {
    if pl.Entry? {
      var a := Holds(disk, inodes, Indirect(pl.n));
      assert a != 0 ==> a in owner && owner[a] == Indirect(pl.n);
    }
  }

  lemma SameOwnInv(sb: Super, disk: Disk, inodes: Inodes, owner: Owners, disk': Disk)
    requires OwnInv(sb, disk, inodes, owner) && DiskOk(sb, disk')
    requires forall c :: c in owner && owner[c].Indirect? && c < |disk| && c < |disk'| ==> disk'[c] == disk[c]
    ensures OwnInv(sb, disk', inodes, owner)
  {
    forall pl ensures Holds(disk', inodes, pl) == Holds(disk, inodes, pl) {
      SameHolds(sb, disk, inodes, owner, disk', pl);
    }
  }

  lemma AllocatedOwnInv(sb: Super, disk: Disk, inodes: Inodes, owner: Owners, b: nat)
    requires OwnInv(sb, disk, inodes, owner) && sb.nmeta <= b < sb.size && b !in owner
    ensures OwnInv(sb, Allocate(sb, disk, b), inodes, owner)
  {
    var disk' := Allocate(sb, disk, b);
    MarkedAfter(sb, disk, b, b);
    forall c | c in owner && owner[c].Indirect? && c < |disk| ensures disk'[c] == disk[c] {
      DataSame(sb, disk, b, c);
    }
    SameOwnInv(sb, disk, inodes, owner, disk');
  }

  lemma ReleasedOwnInv(sb: Super, disk: Disk, inodes: Inodes, owner: Owners, b: nat)
    requires OwnInv(sb, disk, inodes, owner) && sb.nmeta <= b < sb.size
    ensures OwnInv(sb, Release(sb, disk, b), inodes, owner)
  {
    var disk' := Release(sb, disk, b);
    MarkedAfter(sb, disk, b, b);
    forall c | c in owner && owner[c].Indirect? && c < |disk| ensures disk'[c] == disk[c] {
      DataSame(sb, disk, b, c);
    }
    SameOwnInv(sb, disk, inodes, owner, disk');
  }

  /** ip->addrs[i] = b. */
  function StoreAddr(inodes: Inodes, n: nat, i: nat, b: nat): Inodes
    requires n < |inodes| && i < |inodes[n].addrs|
  {
    inodes[n := inodes[n].(addrs := inodes[n].addrs[i := b])]
  }

  function AddrPlace(n: nat, i: nat): Place {
    if i < NDIRECT then Direct(n, i) else Indirect(n)
  }

  lemma ZeroWord(j: nat)
    requires j < NINDIRECT
    ensures Word(ZeroBlock(), j) == 0
  {
  }

  /** A fresh zero block stored in the inode is held there, and nothing else changes hands. */
  lemma StoredHolds(sb: Super, disk: Disk, inodes: Inodes, n: nat, i: nat, b: nat, pl: Place)
    requires DiskOk(sb, disk) && InodesOk(sb, inodes) && n < |inodes| && i <= NDIRECT && 0 < b < sb.size
    requires inodes[n].addrs[i] == 0 && disk[b] == ZeroBlock()
    ensures Holds(disk, StoreAddr(inodes, n, i, b), pl) == if pl == AddrPlace(n, i) then b else Holds(disk, inodes, pl)
  {
    if pl.Entry? && pl.j < NINDIRECT { ZeroWord(pl.j); }
  }

  lemma StoredOwnInv(sb: Super, disk: Disk, inodes: Inodes, owner: Owners, n: nat, i: nat, b: nat)
    requires OwnInv(sb, disk, inodes, owner) && n < |inodes| && i <= NDIRECT && sb.nmeta <= b < sb.size && b !in owner
             && 0 < b
    requires inodes[n].addrs[i] == 0 && disk[b] == ZeroBlock()
    ensures OwnInv(sb, disk, StoreAddr(inodes, n, i, b), owner[b := AddrPlace(n, i)])
  {
    var inodes' := StoreAddr(inodes, n, i, b);
    forall pl ensures Holds(disk, inodes', pl) == if pl == AddrPlace(n, i) then b else Holds(disk, inodes, pl) {
      StoredHolds(sb, disk, inodes, n, i, b, pl);
    }
    assert Holds(disk, inodes, AddrPlace(n, i)) == 0;
  }

  /** a[j] = b in the indirect block of inode n. */
  lemma EntryHolds(sb: Super, disk: Disk, inodes: Inodes, owner: Owners, n: nat, j: nat, b: nat, pl: Place)
    requires OwnInv(sb, disk, inodes, owner) && n < |inodes| && j < NINDIRECT && b < sb.size
             && Holds(disk, inodes, Indirect(n)) != 0
    ensures var a := Holds(disk, inodes, Indirect(n));
      && sb.nmeta <= a < sb.size && DiskOk(sb, disk[a := PutWord(disk[a], j, b)])
      && Holds(disk[a := PutWord(disk[a], j, b)], inodes, pl) ==
          if pl == Entry(n, j) then b else Holds(disk, inodes, pl)
  {
    var a := Holds(disk, inodes, Indirect(n));
    if pl.Entry? && pl.j < NINDIRECT {
      var a' := Holds(disk, inodes, Indirect(pl.n));
      assert a' == a ==> pl.n == n;
      if pl.n == n { WordPut(disk[a], j, b, pl.j); }
    }
  }

  lemma EntryOwnInv(sb: Super, disk: Disk, inodes: Inodes, owner: Owners, n: nat, j: nat, b: nat)
    requires OwnInv(sb, disk, inodes, owner) && n < |inodes| && j < NINDIRECT && sb.nmeta <= b < sb.size && b !in owner
             && 0 < b
    requires Holds(disk, inodes, Indirect(n)) != 0 && Holds(disk, inodes, Entry(n, j)) == 0
    ensures var a := Holds(disk, inodes, Indirect(n));
      sb.nmeta <= a < sb.size && OwnInv(sb, disk[a := PutWord(disk[a], j, b)], inodes, owner[b := Entry(n, j)])
  {
    var a := Holds(disk, inodes, Indirect(n));
    EntryHolds(sb, disk, inodes, owner, n, j, b, Entry(n, j));
    var disk' := disk[a := PutWord(disk[a], j, b)];
    forall pl ensures Holds(disk', inodes, pl) == if pl == Entry(n, j) then b else Holds(disk, inodes, pl) {
      EntryHolds(sb, disk, inodes, owner, n, j, b, pl);
    }
  }

  /** Writing to indirect blocks does not touch the bitmap. */
  lemma BitsSame(sb: Super, disk: Disk, owner: Owners, gone: set<nat>, disk': Disk)
    requires BitsInv(sb, disk, owner, gone) && DiskOk(sb, disk') && forall c :: 0 <= c < sb.nmeta ==>
               disk'[c] == disk[c]
    ensures BitsInv(sb, disk', owner, gone)
  {
    forall b: nat | b < sb.size ensures BitSet(sb, disk', b) <==> BitSet(sb, disk, b) {
      BitmapIsMeta(sb, b);
    }
  }

  // ---- The bytes of a file ----

  /** Byte o of file n; the places past the mapped blocks read as zero. */
  function ByteAt(disk: Disk, inodes: Inodes, n: nat, o: nat): Byte {
    var a := Holds(disk, inodes, FilePlace(n, o / BSIZE));
    if 0 < a < |disk| && |disk[a]| == BSIZE then disk[a][o % BSIZE] else 0
  }

  lemma SpliceAt(data: Block, off: nat, src: seq<Byte>, i: nat)
    requires off + |src| <= |data| && i < |data|
    ensures Splice(data, off, src)[i] == if off <= i < off + |src| then src[i - off] else data[i]
  {
  }

  /** Two offsets in the same place of the same block are the same offset of the same file. */
  lemma SameOffset(n: nat, o: nat, m: nat, p: nat)
    requires FilePlace(n, o / BSIZE) == FilePlace(m, p / BSIZE)
    ensures n == m && o / BSIZE == p / BSIZE
  {
  }

  /** A write within one mapped block changes exactly the bytes it covers, of that file only. */
  lemma WrittenBytes(sb: Super, disk: Disk, inodes: Inodes, owner: Owners, n: nat, off: nat, src: seq<Byte>, m: nat,
                     o: nat)
    requires OwnInv(sb, disk, inodes, owner) && off % BSIZE + |src| <= BSIZE
             && Holds(disk, inodes, FilePlace(n, off / BSIZE)) != 0
    ensures var a := Holds(disk, inodes, FilePlace(n, off / BSIZE));
      && sb.nmeta <= a < sb.size
      && var disk' := disk[a := Splice(disk[a], off % BSIZE, src)];
         && OwnInv(sb, disk', inodes, owner)
         && ByteAt(disk', inodes, m, o) ==
             if m == n && off <= o < off + |src| then src[o - off] else ByteAt(disk, inodes, m, o)
  {
    var a := Holds(disk, inodes, FilePlace(n, off / BSIZE));
    var disk' := disk[a := Splice(disk[a], off % BSIZE, src)];
    SameOwnInv(sb, disk, inodes, owner, disk');
    var q := FilePlace(m, o / BSIZE);
    SameHolds(sb, disk, inodes, owner, disk', q);
    var a' := Holds(disk, inodes, q);
    SpliceAt(disk[a], off % BSIZE, src, o % BSIZE);
    if a' == a { SameOffset(m, o, n, off); }
  }
}
