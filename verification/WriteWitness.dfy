/** Disks on which writei does its worst: one where it logs as many blocks as it can, and one where it copies more
    than it reports. */
module WriteWitness {
  import opened Std
  import opened FileSystem
  import opened Files
  import opened FileWrite
  import opened WriteBound

  // ---- One free block in each bitmap block ----

  const BMAP: nat := 12000
  const META: nat := 16384

  /** k + 4 bitmap blocks' worth of disk, the first two of it metadata. */
  function CrowdedSuper(k: nat): Super { Super((k + 4) * BPB, 0, BMAP, META) }

  /** The blocks left free: the last of each stretch of BPB. */
  predicate Spare(b: nat) { b % BPB == BPB - 1 }

  /** Every other data block belongs to some file, twelve to each. */
  function CrowdedAddr(k: nat, m: nat, i: nat): nat {
    var b := META + 12 * m + i;
    if b < (k + 4) * BPB && !Spare(b) then b else 0
  }

  function CrowdedInode(k: nat, m: nat): Ino {
    Ino(if m == 0 then NDIRECT * BSIZE else 0,
        seq(NDIRECT + 1, i requires i >= 0 => if i < NDIRECT then CrowdedAddr(k, m, i) else 0))
  }

  function CrowdedInodes(k: nat): Inodes {
    seq((k + 2) * BPB / 12 + 1, m requires m >= 0 => CrowdedInode(k, m))
  }

  /** A bitmap block with every bit set, or every bit but the last. */
  function Marks(all: bool): (r: Block)
    ensures |r| == BSIZE
  {
    seq(BSIZE, j => if j == BSIZE - 1 && !all then 127 else 255)
  }

  function CrowdedBlock(k: nat, b: nat): (r: Block)
    ensures |r| == BSIZE
  {
    if BMAP <= b < BMAP + k + 4 then Marks(b < BMAP + 2) else ZeroBlock()
  }

  function CrowdedDisk(k: nat): Disk {
    seq((k + 4) * BPB, b requires b >= 0 => CrowdedBlock(k, b))
  }

  ghost function CrowdedOwners(k: nat): Owners {
    map b | b in Below((k + 4) * BPB) && META <= b && !Spare(b) :: Direct((b - META) / 12, (b - META) % 12)
  }

  lemma MarksBits(all: bool, i: nat)
    requires i < BPB
    ensures Bit(Marks(all), i) <==> all || i != BPB - 1
  {
    var j := i % 8;
    AllSet(j);
    assert i == i / 8 * 8 + j;
  }

  lemma AllSet(j: nat)
    requires j < 8
    ensures HasBit(255, j) && (HasBit(127, j) <==> j != 7)
  {
    assert HasBit(255, 0) && HasBit(127, 0);
    if j >= 1 { assert HasBit(127, j - 1) == HasBit(255, j) && HasBit(63, j - 1) == HasBit(127, j); }
    if j >= 2 { assert HasBit(63, j - 2) == HasBit(127, j - 1) && HasBit(31, j - 2) == HasBit(63, j - 1); }
    if j >= 3 { assert HasBit(31, j - 3) == HasBit(63, j - 2) && HasBit(15, j - 3) == HasBit(31, j - 2); }
    if j >= 4 { assert HasBit(15, j - 4) == HasBit(31, j - 3) && HasBit(7, j - 4) == HasBit(15, j - 3); }
    if j >= 5 { assert HasBit(7, j - 5) == HasBit(15, j - 4) && HasBit(3, j - 5) == HasBit(7, j - 4); }
    if j >= 6 { assert HasBit(3, j - 6) == HasBit(7, j - 5) && HasBit(1, j - 6) == HasBit(3, j - 5); }
    if j == 7 { assert HasBit(1, 0) == HasBit(3, 1) && HasBit(0, 0) == HasBit(1, 1); }
  }

  lemma CrowdedShape(k: nat)
    requires k <= 256
    ensures DiskOk(CrowdedSuper(k), CrowdedDisk(k)) && InodesOk(CrowdedSuper(k), CrowdedInodes(k))
  {
    var d := CrowdedDisk(k);
    forall b | 0 <= b < |d| ensures |d[b]| == BSIZE {
      assert d[b] == CrowdedBlock(k, b);
    }
  }

  lemma CrowdedHolds(k: nat, pl: Place)
    requires k <= 256
    ensures Holds(CrowdedDisk(k), CrowdedInodes(k), pl) ==
      if pl.Direct? && pl.n < |CrowdedInodes(k)| && pl.i < NDIRECT then CrowdedAddr(k, pl.n, pl.i) else 0
  {
    var i := CrowdedInodes(k);
    if pl.n < |i| {
      assert i[pl.n] == CrowdedInode(k, pl.n);
    }
  }

  lemma CrowdedOwned(k: nat)
    requires k <= 256
    ensures OwnInv(CrowdedSuper(k), CrowdedDisk(k), CrowdedInodes(k), CrowdedOwners(k))
  {
    hide Holds;
    CrowdedShape(k);
    var d, i, o := CrowdedDisk(k), CrowdedInodes(k), CrowdedOwners(k);
    forall pl ensures Holds(d, i, pl) != 0 ==> Holds(d, i, pl) in o && o[Holds(d, i, pl)] == pl {
      CrowdedHolds(k, pl);
    }
    forall b | b in o ensures META <= b < (k + 4) * BPB && Holds(d, i, o[b]) == b {
      CrowdedHolds(k, o[b]);
      assert b - META == 12 * ((b - META) / 12) + (b - META) % 12;
    }
  }

  lemma CrowdedBit(k: nat, b: nat)
    requires k <= 256 && b < (k + 4) * BPB
    ensures BitSet(CrowdedSuper(k), CrowdedDisk(k), b) <==> b < META || !Spare(b)
  {
    hide Bit, Marks;
    CrowdedShape(k);
    var r := b / BPB;
    assert r < k + 4 && b == r * BPB + b % BPB;
    assert CrowdedDisk(k)[BMAP + r] == CrowdedBlock(k, BMAP + r) == Marks(r < 2);
    MarksBits(r < 2, b % BPB);
  }

  lemma CrowdedInv(k: nat)
    requires k <= 256
    ensures Inv(CrowdedSuper(k), CrowdedDisk(k), CrowdedInodes(k), CrowdedOwners(k))
    ensures MapInv(CrowdedDisk(k), CrowdedInodes(k)) && CrowdedInodes(k)[0].size == NDIRECT * BSIZE
  {
    hide Holds, BitSet;
    CrowdedOwned(k);
    CrowdedShape(k);
    var d, i, o := CrowdedDisk(k), CrowdedInodes(k), CrowdedOwners(k);
    forall b: nat | b < (k + 4) * BPB ensures BitSet(CrowdedSuper(k), d, b) <==> b < META || b in o {
      CrowdedBit(k, b);
    }
    forall n: nat | n < |i| ensures FileOk(d, i, n) {
      forall bn: nat | bn * BSIZE < i[n].size ensures Holds(d, i, FilePlace(n, bn)) != 0 {
        CrowdedHolds(k, FilePlace(n, bn));
      }
    }
  }

  // ---- A write at the end of the crowded file ----

  /** In the middle of the last direct block of file 0. */
  const MIDDLE: nat := 11 * BSIZE + 512

  lemma OneSpare(r: nat, b: nat)
    requires r * BPB <= b < (r + 1) * BPB
    ensures Spare(b) <==> b == (r + 1) * BPB - 1
    ensures b / BPB == r
  {
  }

  /** The free blocks of the crowded disk: k + 2 of them, each in a bitmap block of its own. */
  ghost function Spares(n: nat): (r: set<nat>)
    ensures |r| == n && forall b: nat :: b in r <==> META <= b < (n + 2) * BPB && Spare(b)
  {
    if n == 0 then {}
    else
      assert forall b: nat :: (n + 1) * BPB <= b < (n + 2) * BPB ==> (Spare(b) <==> b == (n + 2) * BPB - 1) by {
        forall b: nat | (n + 1) * BPB <= b < (n + 2) * BPB ensures Spare(b) <==> b == (n + 2) * BPB - 1 {
          OneSpare(n + 1, b);
        }
      }
      Spares(n - 1) + {(n + 2) * BPB - 1}
  }

  /** What is not owned is spare. */
  lemma SparesAre(k: nat, b: nat)
    requires k <= 256
    ensures b in Spares(k + 2) <==> META <= b < (k + 4) * BPB && b !in CrowdedOwners(k)
  {
  }

  lemma SpareApart(sb: Super, b: nat, c: nat)
    requires Spare(b) && Spare(c) && b != c
    ensures BitmapBlock(sb, b) != BitmapBlock(sb, c)
  {
    assert b == b / BPB * BPB + BPB - 1 && c == c / BPB * BPB + BPB - 1;
  }

  /** Blocks taken from the spares have as many bitmap blocks. */
  lemma {:induction false} SparesApart(sb: Super, t: set<nat>)
    requires forall b :: b in t ==> Spare(b)
    ensures |BitmapBlocks(sb, t)| == |t|
    decreases |t|
  {
    hide Spare, BitmapBlock;
    if t == {} {
      assert BitmapBlocks(sb, t) == {};
    } else {
      var b :| b in t;
      SparesApart(sb, t - {b});
      assert BitmapBlocks(sb, t) == BitmapBlocks(sb, t - {b}) + {BitmapBlock(sb, b)};
      forall c | c in t - {b} ensures BitmapBlock(sb, c) != BitmapBlock(sb, b) {
        SpareApart(sb, c, b);
      }
    }
  }

  /** Such a write takes at most k + 1 blocks, so it does not fill the disk and is not cut short. */
  lemma NotCutShort(k: nat, d: Disk, i: Inodes, o: Owners, l: set<nat>, src: seq<Byte>, r: nat, reach: nat,
                    data: set<nat>)
    requires 0 < k <= 256 && OwnInv(CrowdedSuper(k), d, i, o) && |src| == k * BSIZE
    requires Written(CrowdedSuper(k), CrowdedDisk(k), CrowdedInodes(k), CrowdedOwners(k), {}, d, i, o, l,
                     0, MIDDLE, k * BSIZE, src, r, reach, data)
    ensures r == reach == k * BSIZE && Taken(CrowdedOwners(k), o) <= Spares(k + 2)
  {
    hide Holds, CrowdedDisk, CrowdedInodes, CrowdedOwners, CrowdedSuper, Wrote, PlacesKept, AllLogged, OwnInv, Logged,
      Full, Spares, Taken;
    var sb, o0 := CrowdedSuper(k), CrowdedOwners(k);
    var t := Taken(o0, o);
    TakenSpare(k, d, i, o);
    TakenFew(k, d, i, o, l, src, r, reach, data);
    if Full(sb, o) {
      forall b | b in Spares(k + 2) ensures b in t {
        SpareTaken(k, o, b);
      }
      SubsetCardinality(Spares(k + 2), t);
    }
  }

  lemma SpareTaken(k: nat, o: Owners, b: nat)
    requires k <= 256 && Full(CrowdedSuper(k), o) && b in Spares(k + 2)
    ensures b in Taken(CrowdedOwners(k), o)
  {
    SparesAre(k, b);
  }

  lemma TakenSpare(k: nat, d: Disk, i: Inodes, o: Owners)
    requires k <= 256 && OwnInv(CrowdedSuper(k), d, i, o)
    ensures Taken(CrowdedOwners(k), o) <= Spares(k + 2)
  {
    forall b | b in Taken(CrowdedOwners(k), o) ensures b in Spares(k + 2) {
      SparesAre(k, b);
    }
  }

  lemma TakenFew(k: nat, d: Disk, i: Inodes, o: Owners, l: set<nat>, src: seq<Byte>, r: nat, reach: nat, data: set<nat>)
    requires 0 < k <= 256 && OwnInv(CrowdedSuper(k), d, i, o)
    requires Written(CrowdedSuper(k), CrowdedDisk(k), CrowdedInodes(k), CrowdedOwners(k), {}, d, i, o, l,
                     0, MIDDLE, k * BSIZE, src, r, reach, data)
    ensures |Taken(CrowdedOwners(k), o)| <= k + 1
  {
    hide Holds, CrowdedDisk, CrowdedOwners, CrowdedSuper, Wrote;
    var sb, d0, i0, o0 := CrowdedSuper(k), CrowdedDisk(k), CrowdedInodes(k), CrowdedOwners(k);
    CrowdedInv(k);
    var t, cnt := Taken(o0, o), k * BSIZE;
    var young := BlocksAt(d, i, 0, FirstNew(MIDDLE), EndIndex(MIDDLE, cnt));
    forall b | b in t ensures b in young + {Holds(d, i, Indirect(0))} {
      NewBlock(sb, d0, i0, o0, d, i, o, 0, MIDDLE, cnt, b);
    }
    Spans(MIDDLE, cnt, k);
    BlocksAtSize(d, i, 0, FirstNew(MIDDLE), EndIndex(MIDDLE, cnt));
    SubsetCardinality(t, young + {Holds(d, i, Indirect(0))});
  }

  /** The new places were empty, and the indirect block is there afterwards. */
  lemma NewPlaces(k: nat, d: Disk, i: Inodes, o: Owners, data: set<nat>)
    requires 0 < k <= 256 && OwnInv(CrowdedSuper(k), d, i, o) && (forall a :: a in data ==> a in o)
    requires AllLogged(d, i, 0, MIDDLE, k * BSIZE, data)
    ensures var d0, i0 := CrowdedDisk(k), CrowdedInodes(k);
      && Holds(d0, i0, Indirect(0)) == 0 != Holds(d, i, Indirect(0))
      && forall j: nat :: FirstNew(MIDDLE) <= j < EndIndex(MIDDLE, k * BSIZE) ==> Holds(d0, i0, FilePlace(0, j)) == 0
  {
    hide CrowdedDisk, CrowdedInodes;
    CrowdedHolds(k, Indirect(0));
    forall j: nat | FirstNew(MIDDLE) <= j ensures Holds(CrowdedDisk(k), CrowdedInodes(k), FilePlace(0, j)) == 0 {
      CrowdedHolds(k, FilePlace(0, j));
    }
    assert Holds(d, i, FilePlace(0, 12)) in data;
    assert Holds(d, i, FilePlace(0, 12)) != 0;
  }

  /** The bound is reached, for every k that a file has room for: writei of k blocks' worth of bytes on this disk goes
      from the crowded state to one in which 2k + 4 blocks are logged. */
  method BoundReached(k: nat) returns (fs: Fs, src: seq<Byte>, r: int, ghost reach: nat, ghost data: set<nat>)
    requires 0 < k <= 256
    ensures fs.Ok() && MapInv(fs.disk, fs.inodes) && |src| == r == k * BSIZE && |fs.logged| == 2 * k + 4
    ensures Written(CrowdedSuper(k), CrowdedDisk(k), CrowdedInodes(k), CrowdedOwners(k), {},
                    fs.disk, fs.inodes, fs.owner, fs.logged, 0, MIDDLE, k * BSIZE, src, r, reach, data)
  {
    hide Inv, FileOk, Written, CrowdedDisk, CrowdedInodes, CrowdedOwners, CrowdedSuper;
    CrowdedInv(k);
    fs := new Fs(CrowdedSuper(k), CrowdedDisk(k), CrowdedInodes(k), CrowdedOwners(k));
    src := seq(k * BSIZE, _ => 1);
    CrowdedStart(k);
    r, reach, data := Writei(fs, 0, MIDDLE, k * BSIZE, src);
    MapKeptInv(CrowdedDisk(k), CrowdedInodes(k), fs.disk, fs.inodes);
    CrowdedLog(k, fs.disk, fs.inodes, fs.owner, fs.logged, src, r, reach, data);
  }

  lemma CrowdedStart(k: nat)
    requires 0 < k <= 256
    ensures 0 < |CrowdedInodes(k)| && MIDDLE <= CrowdedInodes(k)[0].size && MIDDLE + k * BSIZE <= MAXFILE * BSIZE
  {
  }

  lemma WrittenData(sb: Super, d0: Disk, i0: Inodes, o0: Owners, d: Disk, i: Inodes, o: Owners, l: set<nat>, cnt: nat,
                    src: seq<Byte>, r: nat, reach: nat, data: set<nat>)
    requires Written(sb, d0, i0, o0, {}, d, i, o, l, 0, MIDDLE, cnt, src, r, reach, data)
    ensures (forall a :: a in data ==> a in o) && AllLogged(d, i, 0, MIDDLE, r, data)
  {
  }

  lemma CrowdedLog(k: nat, d: Disk, i: Inodes, o: Owners, l: set<nat>, src: seq<Byte>, r: nat, reach: nat,
                   data: set<nat>)
    requires 0 < k <= 256 && Inv(CrowdedSuper(k), d, i, o) && |src| == k * BSIZE
    requires Written(CrowdedSuper(k), CrowdedDisk(k), CrowdedInodes(k), CrowdedOwners(k), {}, d, i, o, l,
                     0, MIDDLE, k * BSIZE, src, r, reach, data)
    ensures r == k * BSIZE && |l| == 2 * k + 4
  {
    hide Holds, CrowdedDisk, CrowdedInodes, CrowdedOwners, CrowdedSuper, BitsInv, FileOk, AllLogged, PlacesKept, Wrote,
        Written, Taken, OwnInv, BitmapBlocks, Spare;
    WrittenData(CrowdedSuper(k), CrowdedDisk(k), CrowdedInodes(k), CrowdedOwners(k), d, i, o, l, k * BSIZE, src, r,
                reach, data);
    var sb, d0, i0, o0 := CrowdedSuper(k), CrowdedDisk(k), CrowdedInodes(k), CrowdedOwners(k);
    CrowdedInv(k);
    CrowdedStart(k);
    assert FileOk(d0, i0, 0);
    NotCutShort(k, d, i, o, l, src, r, reach, data);
    NewPlaces(k, d, i, o, data);
    SparesApart(sb, Taken(o0, o));
    BoundAttained(sb, d0, i0, o0, d, i, o, l, 0, MIDDLE, k * BSIZE, src, data, k);
  }

  // ---- A source that cannot be read to the end of a block ----

  /** File 0 of the same disk is twelve blocks of zeroes. */
  lemma CrowdedZero(k: nat)
    requires 0 < k <= 256
    ensures |CrowdedInodes(k)| > 0
    ensures |FileBytes(CrowdedDisk(k), CrowdedInodes(k), 0)| > 0
            && FileBytes(CrowdedDisk(k), CrowdedInodes(k), 0)[0] == 0
  {
    CrowdedHolds(k, FilePlace(0, 0));
    var d := CrowdedDisk(k);
    assert d[META] == CrowdedBlock(k, META);
    assert ByteAt(d, CrowdedInodes(k), 0, 0) == 0;
  }

  /** writei of a block at offset 0, from a source with one readable byte, 1: it returns 0, and the first byte of the
      file is not 0 any more. */
  method UnreportedByte() returns (fs: Fs, src: seq<Byte>, r: int, ghost reach: nat, ghost data: set<nat>)
    ensures fs.Ok() && MapInv(fs.disk, fs.inodes) && src == [1] && r == 0
    ensures Written(CrowdedSuper(1), CrowdedDisk(1), CrowdedInodes(1), CrowdedOwners(1), {},
                    fs.disk, fs.inodes, fs.owner, fs.logged, 0, 0, BSIZE, src, r, reach, data)
    ensures |fs.inodes| > 0 && |FileBytes(fs.disk, fs.inodes, 0)| > 0 && FileBytes(fs.disk, fs.inodes, 0)[0] == 1
    ensures |CrowdedInodes(1)| > 0 && |FileBytes(CrowdedDisk(1), CrowdedInodes(1), 0)| > 0
    ensures FileBytes(CrowdedDisk(1), CrowdedInodes(1), 0)[0] == 0
  {
    hide Inv, FileOk, Written, CrowdedDisk, CrowdedInodes, CrowdedOwners, CrowdedSuper;
    CrowdedInv(1);
    CrowdedZero(1);
    fs := new Fs(CrowdedSuper(1), CrowdedDisk(1), CrowdedInodes(1), CrowdedOwners(1));
    src := [1];
    r, reach, data := Writei(fs, 0, 0, BSIZE, src);
    MapKeptInv(CrowdedDisk(1), CrowdedInodes(1), fs.disk, fs.inodes);
    FirstByte(CrowdedSuper(1), CrowdedDisk(1), CrowdedInodes(1), CrowdedOwners(1),
              fs.disk, fs.inodes, fs.owner, fs.logged, src, r, reach, data);
  }

  lemma FirstByte(sb: Super, d0: Disk, i0: Inodes, o0: Owners, d: Disk, i: Inodes, o: Owners, l: set<nat>,
                  src: seq<Byte>, r: nat, reach: nat, data: set<nat>)
    requires Written(sb, d0, i0, o0, {}, d, i, o, l, 0, 0, BSIZE, src, r, reach, data) && i0[0].size > 0 && src == [1]
    ensures r == 0 && |i| > 0 && |FileBytes(d, i, 0)| > 0 && FileBytes(d, i, 0)[0] == 1
  {
    assert Whole(0, 1) == 0;
  }
}
