/** itrunc (kernel/fs.c): the inode gives back exactly the blocks it owned. */
module Truncate {
  import opened Std
  import opened FileSystem
  import opened Files

  /** The owned blocks without those in t. */
  ghost function Drop(owner: Owners, t: set<nat>): Owners {
    owner - t
  }

  /** Place pl is lost when addrs[k] becomes 0: addrs[k] itself, and with the indirect block all its entries. */
  predicate Lost(n: nat, k: nat, pl: Place) {
    pl == AddrPlace(n, k) || (k == NDIRECT && pl.Entry? && pl.n == n)
  }

  lemma ClearedHolds(d: Disk, i: Inodes, n: nat, k: nat, pl: Place)
    requires n < |i| && k <= NDIRECT && |i[n].addrs| == NDIRECT + 1
    ensures Holds(d, StoreAddr(i, n, k, 0), pl) == if Lost(n, k, pl) then 0 else Holds(d, i, pl)
  {
  }

  lemma ClearedOwnInv(sb: Super, d: Disk, i: Inodes, o: Owners, n: nat, k: nat, t: set<nat>)
    requires OwnInv(sb, d, i, o) && n < |i| && k <= NDIRECT && |i[n].addrs| == NDIRECT + 1
    requires forall b :: b in o ==> (b in t <==> Lost(n, k, o[b]))
    ensures OwnInv(sb, d, StoreAddr(i, n, k, 0), Drop(o, t))
  {
    hide Holds, Lost;
    var i' := StoreAddr(i, n, k, 0);
    forall pl ensures Holds(d, i', pl) == if Lost(n, k, pl) then 0 else Holds(d, i, pl) {
      ClearedHolds(d, i, n, k, pl);
    }
  }

  lemma DroppedBits(sb: Super, d: Disk, o: Owners, t: set<nat>)
    requires BitsInv(sb, d, o, t)
    ensures BitsInv(sb, d, Drop(o, t), {})
  {
  }

  /** ip->addrs[k] = 0 after its block has been freed. */
  lemma DroppedDirect(sb: Super, d: Disk, i: Inodes, o: Owners, n: nat, k: nat)
    requires Inv(sb, d, i, o) && n < |i| && k < NDIRECT && |i[n].addrs| == NDIRECT + 1 && i[n].addrs[k] != 0
    ensures var b := i[n].addrs[k];
      && sb.nmeta <= b < sb.size && b in o && o[b] == Direct(n, k) && BitSet(sb, d, b)
      && Inv(sb, Release(sb, d, b), StoreAddr(i, n, k, 0), Drop(o, {b}))
  {
    var b := i[n].addrs[k];
    assert Holds(d, i, Direct(n, k)) == b;
    assert BitSet(sb, d, b);
    hide Holds, Release, BitSet;
    ReleasedOwnInv(sb, d, i, o, b);
    BitsReleased(sb, d, o, {}, b);
    ClearedOwnInv(sb, Release(sb, d, b), i, o, n, k, {b});
    assert {} + {b} == {b};
    DroppedBits(sb, Release(sb, d, b), o, {b});
  }

  /** The blocks held by the first j entries of the indirect block of inode n. */
  ghost function Entries(owner: Owners, n: nat, j: nat): set<nat> {
    set b | b in owner && owner[b].Entry? && owner[b].n == n && owner[b].j < j
  }

  lemma EntriesNext(sb: Super, d: Disk, i: Inodes, o: Owners, n: nat, j: nat)
    requires OwnInv(sb, d, i, o)
    ensures Holds(d, i, Entry(n, j)) == 0 ==> Entries(o, n, j + 1) == Entries(o, n, j)
    ensures Holds(d, i, Entry(n, j)) != 0 ==> Entries(o, n, j + 1) == Entries(o, n, j) + {Holds(d, i, Entry(n, j))}
                                              && Holds(d, i, Entry(n, j)) !in Entries(o, n, j)
  {
    forall b | b in o && o[b] == Entry(n, j) ensures b == Holds(d, i, Entry(n, j)) {
    }
  }

  /** The end: the indirect block has been freed after its entries, and addrs[NDIRECT] is 0. */
  lemma DroppedIndirect(sb: Super, d: Disk, i: Inodes, o: Owners, n: nat, ind: nat)
    requires OwnInv(sb, d, i, o) && n < |i| && |i[n].addrs| == NDIRECT + 1 && ind == i[n].addrs[NDIRECT] != 0
    requires BitsInv(sb, d, o, Entries(o, n, NINDIRECT) + {ind})
    ensures Inv(sb, d, StoreAddr(i, n, NDIRECT, 0), Drop(o, Entries(o, n, NINDIRECT) + {ind}))
  {
    hide BitsInv;
    var t := Entries(o, n, NINDIRECT) + {ind};
    DroppedBits(sb, d, o, t);
    assert Holds(d, i, Indirect(n)) == ind;
    forall b | b in o ensures b in t <==> Lost(n, NDIRECT, o[b]) {
      assert Holds(d, i, o[b]) == b;
    }
    ClearedOwnInv(sb, d, i, o, n, NDIRECT, t);
  }

  /** The blocks of inode n. */
  ghost function OfInode(owner: Owners, n: nat): set<nat> {
    set b | b in owner && owner[b].n == n
  }

  /** The file's blocks have become free and it is empty; every other inode keeps its blocks, its size and its bytes. */
  ghost predicate Truncated(sb: Super, d0: Disk, i0: Inodes, o0: Owners, l0: set<nat>, d: Disk, i: Inodes, o: Owners,
                            l: set<nat>, n: nat) {
    && n < |i0| && i == i0[n := Ino(0, seq(NDIRECT + 1, _ => 0))]
    && o == Drop(o0, OfInode(o0, n))
    && (forall m: nat, p: nat :: m != n ==> ByteAt(d, i, m, p) == ByteAt(d0, i0, m, p))
    && l == l0 + BitmapBlocks(sb, OfInode(o0, n)) + {InodeBlock(sb, n)}
  }

  // ---- The loops of itrunc ----

  ghost function Directs(owner: Owners, n: nat, k: nat): set<nat> {
    set b | b in owner && owner[b].Direct? && owner[b].n == n && owner[b].i < k
  }

  ghost predicate DataKept(sb: Super, d0: Disk, d: Disk) {
    |d| == |d0| && forall c :: sb.nmeta <= c < |d0| ==> d[c] == d0[c]
  }

  /** The first k direct blocks have been freed. */
  ghost predicate DirectsFreed(sb: Super, d0: Disk, i0: Inodes, o0: Owners, l0: set<nat>, d: Disk, i: Inodes,
                               o: Owners, l: set<nat>, n: nat, k: nat) {
    && n < |i0| && |i| == |i0| && |i0[n].addrs| == NDIRECT + 1 == |i[n].addrs| && k <= NDIRECT
    && (forall m :: 0 <= m < |i0| && m != n ==> i[m] == i0[m])
    && (forall x :: 0 <= x <= NDIRECT ==> i[n].addrs[x] == if x < k then 0 else i0[n].addrs[x])
    && o == Drop(o0, Directs(o0, n, k))
    && DataKept(sb, d0, d)
    && l == l0 + BitmapBlocks(sb, Directs(o0, n, k))
  }

  lemma DirectsNext(sb: Super, d: Disk, i: Inodes, o: Owners, n: nat, k: nat)
    requires OwnInv(sb, d, i, o) && n < |i| && k < NDIRECT && |i[n].addrs| == NDIRECT + 1
    ensures i[n].addrs[k] == 0 ==> Directs(o, n, k + 1) == Directs(o, n, k)
    ensures i[n].addrs[k] != 0 ==> Directs(o, n, k + 1) == Directs(o, n, k) + {i[n].addrs[k]}
  {
    assert Holds(d, i, Direct(n, k)) == i[n].addrs[k];
    forall b | b in o && o[b] == Direct(n, k) ensures b == i[n].addrs[k] {
      assert Holds(d, i, o[b]) == b;
    }
  }

  lemma ReleasedData(sb: Super, d: Disk, b: nat)
    requires DiskOk(sb, d) && sb.nmeta <= b < sb.size
    ensures DataKept(sb, d, Release(sb, d, b))
  {
    forall c | sb.nmeta <= c < |d| ensures Release(sb, d, b)[c] == d[c] {
      DataSame(sb, d, b, c);
    }
  }

  lemma BitmapMore(sb: Super, t: set<nat>, b: nat)
    ensures BitmapBlocks(sb, t + {b}) == BitmapBlocks(sb, t) + {BitmapBlock(sb, b)}
  {
  }

  /** One round of the loop over the direct blocks. */
  method FreeDirect(fs: Fs, n: nat, k: nat, ghost d0: Disk, ghost i0: Inodes, ghost o0: Owners, ghost l0: set<nat>)
    requires fs.Ok() && k < NDIRECT && OwnInv(fs.sb, d0, i0, o0)
    requires DirectsFreed(fs.sb, d0, i0, o0, l0, fs.disk, fs.inodes, fs.owner, fs.logged, n, k)
    modifies fs
    ensures fs.Ok() && DirectsFreed(fs.sb, d0, i0, o0, l0, fs.disk, fs.inodes, fs.owner, fs.logged, n, k + 1)
  {
    hide OwnInv, BitsInv, Holds;
    DirectsNext(fs.sb, d0, i0, o0, n, k);
    var b := fs.inodes[n].addrs[k];
    if b != 0 {
      DroppedDirect(fs.sb, fs.disk, fs.inodes, fs.owner, n, k);
      DiskOf(fs.sb, fs.disk, fs.inodes, fs.owner);
      ReleasedData(fs.sb, fs.disk, b);
      BitmapMore(fs.sb, Directs(o0, n, k), b);
      fs.Bfree(b);
      fs.inodes := StoreAddr(fs.inodes, n, k, 0);
      fs.owner := Drop(fs.owner, {b});
    }
  }

  lemma DiskOf(sb: Super, d: Disk, i: Inodes, o: Owners)
    requires OwnInv(sb, d, i, o)
    ensures DiskOk(sb, d)
  {
  }

  /** The blocks of the first j entries have been freed, though the indirect block still lists them. */
  ghost predicate EntriesFreed(sb: Super, d0: Disk, l0: set<nat>, d: Disk, i: Inodes, o: Owners, l: set<nat>, n: nat,
                               j: nat) {
    && OwnInv(sb, d, i, o) && BitsInv(sb, d, o, Entries(o, n, j)) && DataKept(sb, d0, d)
    && l == l0 + BitmapBlocks(sb, Entries(o, n, j))
  }

  /** A block that a place holds and that has not been freed is marked: bfree does not panic. */
  lemma HeldMarked(sb: Super, d: Disk, i: Inodes, o: Owners, gone: set<nat>, pl: Place)
    requires OwnInv(sb, d, i, o) && BitsInv(sb, d, o, gone) && Holds(d, i, pl) != 0 && Holds(d, i, pl) !in gone
    ensures DiskOk(sb, d) && sb.nmeta <= Holds(d, i, pl) < sb.size && BitSet(sb, d, Holds(d, i, pl))
  {
    assert Holds(d, i, pl) in o;
  }

  lemma EntriesFreedNext(sb: Super, d0: Disk, l0: set<nat>, d: Disk, i: Inodes, o: Owners, l: set<nat>, n: nat, j: nat,
                         b: nat)
    requires EntriesFreed(sb, d0, l0, d, i, o, l, n, j) && b == Holds(d, i, Entry(n, j))
    ensures b == 0 ==> EntriesFreed(sb, d0, l0, d, i, o, l, n, j + 1)
    ensures b != 0 ==> DiskOk(sb, d) && sb.nmeta <= b < sb.size && BitSet(sb, d, b)
                       && EntriesFreed(sb, d0, l0, Release(sb, d, b), i, o, l + {BitmapBlock(sb, b)}, n, j + 1)
  {
    hide OwnInv, BitsInv, Holds, Entries, Release, BitSet, DataKept, BitmapBlocks;
    EntriesNext(sb, d, i, o, n, j);
    if b != 0 {
      HeldMarked(sb, d, i, o, Entries(o, n, j), Entry(n, j));
      ReleasedOwnInv(sb, d, i, o, b);
      BitsReleased(sb, d, o, Entries(o, n, j), b);
      ReleasedData(sb, d, b);
      DataKeptTransitive(sb, d0, d, Release(sb, d, b));
      BitmapMore(sb, Entries(o, n, j), b);
    }
  }

  lemma DataKeptTransitive(sb: Super, d0: Disk, d1: Disk, d2: Disk)
    requires DataKept(sb, d0, d1) && DataKept(sb, d1, d2)
    ensures DataKept(sb, d0, d2)
  {
  }

  lemma EntryWord(sb: Super, d0: Disk, l0: set<nat>, d: Disk, i: Inodes, o: Owners, l: set<nat>, n: nat, j: nat,
                  k: nat, ind: nat)
    requires EntriesFreed(sb, d0, l0, d, i, o, l, n, j) && n < |i| && |i[n].addrs| == NDIRECT + 1
             && ind == i[n].addrs[NDIRECT] != 0 && k < NINDIRECT
    ensures ind < |d| && |d[ind]| == BSIZE && Word(d[ind], k) == Holds(d, i, Entry(n, k))
  {
    assert Holds(d, i, Indirect(n)) == ind;
  }

  lemma EntriesFreedStart(sb: Super, d: Disk, i: Inodes, o: Owners, l: set<nat>, n: nat)
    requires Inv(sb, d, i, o)
    ensures EntriesFreed(sb, d, l, d, i, o, l, n, 0)
  {
    assert Entries(o, n, 0) == {};
    assert BitmapBlocks(sb, {}) == {};
  }

  /** Freeing the indirect block last. */
  lemma EntriesFreedEnd(sb: Super, d0: Disk, l0: set<nat>, d: Disk, i: Inodes, o: Owners, l: set<nat>, n: nat, ind: nat)
    requires EntriesFreed(sb, d0, l0, d, i, o, l, n, NINDIRECT) && n < |i| && |i[n].addrs| == NDIRECT + 1
             && ind == i[n].addrs[NDIRECT] != 0
    ensures DiskOk(sb, d) && sb.nmeta <= ind < sb.size && BitSet(sb, d, ind)
    ensures var d', t := Release(sb, d, ind), Entries(o, n, NINDIRECT) + {ind};
      && Inv(sb, d', StoreAddr(i, n, NDIRECT, 0), Drop(o, t)) && DataKept(sb, d0, d')
      && l + {BitmapBlock(sb, ind)} == l0 + BitmapBlocks(sb, t)
  {
    assert Holds(d, i, Indirect(n)) == ind;
    assert ind in o && o[ind] == Indirect(n);
    assert ind !in Entries(o, n, NINDIRECT);
    HeldMarked(sb, d, i, o, Entries(o, n, NINDIRECT), Indirect(n));
    hide Holds, Entries, BitSet, Release, OwnInv;
    ReleasedOwnInv(sb, d, i, o, ind);
    BitsReleased(sb, d, o, Entries(o, n, NINDIRECT), ind);
    ReleasedData(sb, d, ind);
    BitmapMore(sb, Entries(o, n, NINDIRECT), ind);
    DroppedIndirect(sb, Release(sb, d, ind), i, o, n, ind);
  }

  /** The second half of itrunc: the indirect block with all it lists. */
  method FreeIndirect(fs: Fs, n: nat) returns (ghost t: set<nat>)
    requires fs.Ok() && n < |fs.inodes| && |fs.inodes[n].addrs| == NDIRECT + 1
    modifies fs
    ensures fs.Ok() && fs.inodes == StoreAddr(old(fs.inodes), n, NDIRECT, 0) && fs.owner == Drop(old(fs.owner), t)
    ensures DataKept(fs.sb, old(fs.disk), fs.disk) && fs.logged == old(fs.logged) + BitmapBlocks(fs.sb, t)
    ensures t == Entries(old(fs.owner), n, NINDIRECT) +
            if old(fs.inodes)[n].addrs[NDIRECT] == 0 then {} else {old(fs.inodes)[n].addrs[NDIRECT]}
  {
    hide OwnInv, BitsInv, EntriesFreed, Holds;
    ghost var d0, l0 := fs.disk, fs.logged;
    var ind := fs.inodes[n].addrs[NDIRECT];
    if ind == 0 {
      NoEntries(fs.sb, fs.disk, fs.inodes, fs.owner, n);
      t := {};
      return;
    }
    EntriesFreedStart(fs.sb, fs.disk, fs.inodes, fs.owner, fs.logged, n);
    var j := 0;
    while j < NINDIRECT
      invariant 0 <= j <= NINDIRECT && fs.inodes == old(fs.inodes) && fs.owner == old(fs.owner)
      invariant EntriesFreed(fs.sb, d0, l0, fs.disk, fs.inodes, fs.owner, fs.logged, n, j)
    {
      EntryWord(fs.sb, d0, l0, fs.disk, fs.inodes, fs.owner, fs.logged, n, j, j, ind);
      var b := Word(fs.disk[ind], j);
      EntriesFreedNext(fs.sb, d0, l0, fs.disk, fs.inodes, fs.owner, fs.logged, n, j, b);
      if b != 0 { fs.Bfree(b); }
      j := j + 1;
    }
    EntriesFreedEnd(fs.sb, d0, l0, fs.disk, fs.inodes, fs.owner, fs.logged, n, ind);
    fs.Bfree(ind);
    t := Entries(fs.owner, n, NINDIRECT) + {ind};
    fs.owner := Drop(fs.owner, t);
    fs.inodes := StoreAddr(fs.inodes, n, NDIRECT, 0);
  }

  /** Without an indirect block there are no entries, and clearing addrs[NDIRECT] again changes nothing. */
  lemma NoEntries(sb: Super, d: Disk, i: Inodes, o: Owners, n: nat)
    requires OwnInv(sb, d, i, o) && n < |i| && |i[n].addrs| == NDIRECT + 1 && i[n].addrs[NDIRECT] == 0
    ensures Entries(o, n, NINDIRECT) == {} && StoreAddr(i, n, NDIRECT, 0) == i && Drop(o, {}) == o
            && BitmapBlocks(sb, {}) == {}
    ensures DataKept(sb, d, d)
  {
    forall b | b in o ensures b !in Entries(o, n, NINDIRECT) {
      assert Holds(d, i, o[b]) == b;
    }
    assert i[n].(addrs := i[n].addrs[NDIRECT := 0]) == i[n];
  }

  // ---- itrunc ----

  lemma DirectsFreedStart(sb: Super, d: Disk, i: Inodes, o: Owners, l: set<nat>, n: nat)
    requires OwnInv(sb, d, i, o) && n < |i|
    ensures DirectsFreed(sb, d, i, o, l, d, i, o, l, n, 0)
  {
    assert Directs(o, n, 0) == {} && Drop(o, {}) == o;
    assert BitmapBlocks(sb, {}) == {};
  }

  /** Direct blocks, entries and the indirect block are all the blocks of an inode. */
  lemma AllOfInode(sb: Super, d: Disk, i: Inodes, o: Owners, n: nat, t: set<nat>)
    requires OwnInv(sb, d, i, o) && n < |i| && |i[n].addrs| == NDIRECT + 1
    requires t == Entries(Drop(o, Directs(o, n, NDIRECT)), n, NINDIRECT) +
             if i[n].addrs[NDIRECT] == 0 then {} else {i[n].addrs[NDIRECT]}
    ensures OfInode(o, n) == Directs(o, n, NDIRECT) + t
    ensures Drop(Drop(o, Directs(o, n, NDIRECT)), t) == Drop(o, OfInode(o, n))
    ensures BitmapBlocks(sb, Directs(o, n, NDIRECT)) + BitmapBlocks(sb, t) == BitmapBlocks(sb, OfInode(o, n))
  {
    assert Holds(d, i, Indirect(n)) == i[n].addrs[NDIRECT];
    forall b | b in o ensures o[b].n == n <==> b in Directs(o, n, NDIRECT) + t {
      assert Holds(d, i, o[b]) == b;
    }
    assert OfInode(o, n) == Directs(o, n, NDIRECT) + t;
  }

  lemma OtherBytes(sb: Super, d0: Disk, i0: Inodes, o0: Owners, d: Disk, i: Inodes, n: nat, m: nat, p: nat)
    requires OwnInv(sb, d0, i0, o0) && DataKept(sb, d0, d) && DiskOk(sb, d) && |i| == |i0| && m != n
    requires forall k :: 0 <= k < |i0| && k != n ==> i[k] == i0[k]
    ensures ByteAt(d, i, m, p) == ByteAt(d0, i0, m, p)
  {
    var pl := FilePlace(m, p / BSIZE);
    var ind := Holds(d0, i0, Indirect(m));
    assert ind != 0 ==> ind in o0;
    assert Holds(d, i, pl) == Holds(d0, i0, pl);
    assert Holds(d0, i0, pl) != 0 ==> Holds(d0, i0, pl) in o0;
  }

  lemma FreedInode(sb: Super, d0: Disk, i0: Inodes, o0: Owners, l0: set<nat>, d1: Disk, i1: Inodes, o1: Owners,
                   l1: set<nat>, d: Disk, i: Inodes, n: nat)
    requires DirectsFreed(sb, d0, i0, o0, l0, d1, i1, o1, l1, n, NDIRECT) && DataKept(sb, d1, d)
    requires i == Resize(StoreAddr(i1, n, NDIRECT, 0), n, 0)
    ensures n < |i0| && |i0[n].addrs| == NDIRECT + 1 && i == i0[n := Ino(0, seq(NDIRECT + 1, _ => 0))]
    ensures |i1| == |i0| && |i1[n].addrs| == NDIRECT + 1 && i1[n].addrs[NDIRECT] == i0[n].addrs[NDIRECT]
    ensures o1 == Drop(o0, Directs(o0, n, NDIRECT)) && l1 == l0 + BitmapBlocks(sb, Directs(o0, n, NDIRECT))
    ensures DataKept(sb, d0, d)
  {
    assert i[n].addrs == seq(NDIRECT + 1, _ => 0);
  }

  /** Both halves, the size and iupdate come to Truncated. */
  lemma AllTruncated(sb: Super, d0: Disk, i0: Inodes, o0: Owners, l0: set<nat>, d1: Disk, i1: Inodes, o1: Owners,
                     l1: set<nat>, d: Disk, i: Inodes, o: Owners, l: set<nat>, n: nat, t: set<nat>)
    requires OwnInv(sb, d0, i0, o0) && DirectsFreed(sb, d0, i0, o0, l0, d1, i1, o1, l1, n, NDIRECT)
    requires Inv(sb, d, StoreAddr(i1, n, NDIRECT, 0), o) && o == Drop(o1, t) && DataKept(sb, d1, d)
    requires l == l1 + BitmapBlocks(sb, t) + {InodeBlock(sb, n)}
    requires t == Entries(o1, n, NINDIRECT) + if i1[n].addrs[NDIRECT] == 0 then {} else {i1[n].addrs[NDIRECT]}
    requires i == Resize(StoreAddr(i1, n, NDIRECT, 0), n, 0)
    ensures Truncated(sb, d0, i0, o0, l0, d, i, o, l, n)
  {
    hide OwnInv, BitsInv, Holds, ByteAt, DirectsFreed, DataKept, BitmapBlocks, Directs, Entries;
    FreedInode(sb, d0, i0, o0, l0, d1, i1, o1, l1, d, i, n);
    AllOfInode(sb, d0, i0, o0, n, t);
    DiskOf(sb, d, StoreAddr(i1, n, NDIRECT, 0), o);
    forall m: nat, p: nat ensures m != n ==> ByteAt(d, i, m, p) == ByteAt(d0, i0, m, p) {
      if m != n { OtherBytes(sb, d0, i0, o0, d, i, n, m, p); }
    }
  }

  /** The other files are still mapped as far as they go. */
  lemma TruncatedMapped(sb: Super, d0: Disk, i0: Inodes, o0: Owners, d: Disk, i: Inodes, n: nat)
    requires OwnInv(sb, d0, i0, o0) && DataKept(sb, d0, d) && DiskOk(sb, d) && n < |i| == |i0|
             && i[n].size == 0
    requires forall k :: 0 <= k < |i0| && k != n ==> i[k] == i0[k]
    ensures MapKept(d0, i0, d, i) && FileOk(d, i, n)
  {
    forall m: nat | m < |i0| && FileOk(d0, i0, m) ensures FileOk(d, i, m) {
      if m != n {
        var ind := Holds(d0, i0, Indirect(m));
        assert ind != 0 ==> ind in o0;
        assert forall bn: nat :: Holds(d, i, FilePlace(m, bn)) == Holds(d0, i0, FilePlace(m, bn));
      }
    }
  }

  /** itrunc. */
  method Itrunc(fs: Fs, n: nat)
    requires fs.Ok() && n < |fs.inodes|
    modifies fs
    ensures fs.Ok() && MapKept(old(fs.disk), old(fs.inodes), fs.disk, fs.inodes)
    ensures n < |fs.inodes| && FileOk(fs.disk, fs.inodes, n)
    ensures Truncated(fs.sb, old(fs.disk), old(fs.inodes), old(fs.owner), old(fs.logged), fs.disk, fs.inodes, fs.owner,
                      fs.logged, n)
  {
    hide OwnInv, BitsInv, Holds, ByteAt, MapKept, FileOk;
    ghost var d0, i0, o0, l0 := fs.disk, fs.inodes, fs.owner, fs.logged;
    DirectsFreedStart(fs.sb, d0, i0, o0, l0, n);
    var k := 0;
    while k < NDIRECT
      invariant 0 <= k <= NDIRECT && fs.Ok()
                && DirectsFreed(fs.sb, d0, i0, o0, l0, fs.disk, fs.inodes, fs.owner, fs.logged, n, k)
    {
      FreeDirect(fs, n, k, d0, i0, o0, l0);
      k := k + 1;
    }
    ghost var d1, i1, o1, l1 := fs.disk, fs.inodes, fs.owner, fs.logged;
    ghost var t := FreeIndirect(fs, n);
    DiskOf(fs.sb, fs.disk, fs.inodes, fs.owner);
    ResizedInv(fs.sb, fs.disk, fs.inodes, fs.owner, n, 0);
    fs.inodes := Resize(fs.inodes, n, 0);
    fs.logged := fs.logged + {InodeBlock(fs.sb, n)};
    AllTruncated(fs.sb, d0, i0, o0, l0, d1, i1, o1, l1, fs.disk, fs.inodes, fs.owner, fs.logged, n, t);
    DataKeptTransitive(fs.sb, d0, d1, fs.disk);
    TruncatedMapped(fs.sb, d0, i0, o0, fs.disk, fs.inodes, n);
  }
}
