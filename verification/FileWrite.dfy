/** writei (kernel/fs.c) and the loop of filewrite (kernel/file.c): what a write does to the bytes of its file and of
    all others, and which blocks it logs. */
module FileWrite {
  import opened Std
  import opened FileSystem
  import opened Files

  /** The index in its file of the block a place holds. */
  function Index(pl: Place): nat {
    match pl case Direct(_, i) => i case Entry(_, j) => NDIRECT + j case Indirect(_) => 0
  }

  /** Place pl belongs to a block of file n that [off, end) meets. */
  predicate Touched(n: nat, off: nat, end: nat, pl: Place) {
    !pl.Indirect? && pl.n == n && off / BSIZE <= Index(pl) && Index(pl) * BSIZE < end
  }

  /** The bytes of file n from off on have become the first `done` bytes of src; no other byte of any file has
      changed. */
  ghost predicate Wrote(d0: Disk, i0: Inodes, d: Disk, i: Inodes, n: nat, off: nat, src: seq<Byte>, done: nat)
    requires done <= |src|
  {
    forall m: nat, p: nat :: ByteAt(d, i, m, p) ==
                             if m == n && off <= p < off + done then src[p - off] else ByteAt(d0, i0, m, p)
  }

  /** The blocks that the bytes written so far lie in are mapped. */
  ghost predicate Covered(d: Disk, i: Inodes, n: nat, off: nat, done: nat) {
    forall bn: nat :: off / BSIZE <= bn && bn * BSIZE < off + done ==> Holds(d, i, FilePlace(n, bn)) != 0
  }

  /** What has been logged: what allocation needs, and the blocks in `data`; all of them for the blocks of [off,
      end). */
  ghost predicate Logged(sb: Super, o0: Owners, l0: set<nat>, o: Owners, l: set<nat>, n: nat, off: nat, end: nat,
                         data: set<nat>, ind: nat) {
    && (forall a :: a in data ==> a in o && Touched(n, off, end, o[a]))
    && (forall b :: b in Taken(o0, o) ==> o[b] == Indirect(n) || Touched(n, off, end, o[b]))
    && l == l0 + AllocLog(sb, o, Taken(o0, o), ind) + data
  }

  /** Every block that a byte written so far lies in has been logged. */
  ghost predicate AllLogged(d: Disk, i: Inodes, n: nat, off: nat, done: nat, data: set<nat>) {
    done > 0 ==> forall bn: nat :: off / BSIZE <= bn && bn * BSIZE < off + done ==>
          Holds(d, i, FilePlace(n, bn)) in data
  }

  ghost predicate Writing(sb: Super, d0: Disk, i0: Inodes, o0: Owners, l0: set<nat>, d: Disk, i: Inodes, o: Owners,
                          l: set<nat>, n: nat, off: nat, end: nat, src: seq<Byte>, done: nat, data: set<nat>) {
    && done <= |src| && Kept(d0, i0, o0, d, i, o)
    && Wrote(d0, i0, d, i, n, off, src, done) && Covered(d, i, n, off, done)
    && Logged(sb, o0, l0, o, l, n, off, end, data, Holds(d, i, Indirect(n)))
  }

  lemma WritingStarts(sb: Super, d: Disk, i: Inodes, o: Owners, l: set<nat>, n: nat, off: nat, end: nat, src: seq<Byte>)
    requires off <= end && n < |i| && FileOk(d, i, n) && off <= i[n].size
    ensures Writing(sb, d, i, o, l, d, i, o, l, n, off, end, src, 0, {})
  {
    AllocLogNone(sb, o, Holds(d, i, Indirect(n)));
  }

  /** While there is no indirect block, no block has been taken for an entry of it. */
  lemma EntryNeedsIndirect(sb: Super, d: Disk, i: Inodes, o: Owners, t: set<nat>, n: nat, ind: nat)
    requires OwnInv(sb, d, i, o) && (forall b :: b in t ==> b in o && o[b].n == n)
    requires ind == Holds(d, i, Indirect(n)) || Holds(d, i, Indirect(n)) == 0
    ensures AllocLog(sb, o, t, Holds(d, i, Indirect(n))) == AllocLog(sb, o, t, ind)
  {
    forall b | b in t && o[b].Entry? ensures Holds(d, i, Indirect(n)) != 0 {
      assert Holds(d, i, o[b]) == b;
    }
  }

  lemma LoggedMapped(sb: Super, o0: Owners, l0: set<nat>, d1: Disk, i1: Inodes, o1: Owners, l1: set<nat>, d2: Disk,
                     i2: Inodes, o2: Owners, l2: set<nat>, n: nat, off: nat, end: nat, data: set<nat>, at: nat,
                         addr: nat)
    requires Logged(sb, o0, l0, o1, l1, n, off, end, data, Holds(d1, i1, Indirect(n))) && off <= at < end
    requires OwnInv(sb, d1, i1, o1) && (forall b :: b in o0 ==> b in o1)
    requires MappedTo(sb, d1, i1, o1, l1, d2, i2, o2, l2, FilePlace(n, at / BSIZE), addr)
    ensures Logged(sb, o0, l0, o2, l2, n, off, end, data, Holds(d2, i2, Indirect(n)))
  {
    hide AllocLog, ByteAt, Holds, OwnInv;
    var ind := Holds(d2, i2, Indirect(n));
    EntryNeedsIndirect(sb, d1, i1, o1, Taken(o0, o1), n, ind);
    AllocLogMore(sb, o0, o1, o2, ind);
    forall b | b in Taken(o0, o2) ensures o2[b] == Indirect(n) || Touched(n, off, end, o2[b]) {
      if b in o1 { assert b in Taken(o0, o1); } else { assert b in Taken(o1, o2); }
    }
  }

  /** bmap for the next block. */
  lemma WritingMapped(sb: Super, d0: Disk, i0: Inodes, o0: Owners, l0: set<nat>, d1: Disk, i1: Inodes, o1: Owners,
                      l1: set<nat>, d2: Disk, i2: Inodes, o2: Owners, l2: set<nat>, n: nat, off: nat, end: nat,
                          src: seq<Byte>, done: nat, data: set<nat>, addr: nat)
    requires Writing(sb, d0, i0, o0, l0, d1, i1, o1, l1, n, off, end, src, done, data) && off + done < end
    requires OwnInv(sb, d1, i1, o1)
    requires MappedTo(sb, d1, i1, o1, l1, d2, i2, o2, l2, FilePlace(n, (off + done) / BSIZE), addr)
    ensures Writing(sb, d0, i0, o0, l0, d2, i2, o2, l2, n, off, end, src, done, data)
  {
    hide OwnInv, Logged, AllocLog, ByteAt, Holds, BitSet;
    LoggedMapped(sb, o0, l0, d1, i1, o1, l1, d2, i2, o2, l2, n, off, end, data, off + done, addr);
  }

  lemma WroteMore(sb: Super, d0: Disk, i0: Inodes, d: Disk, i: Inodes, o: Owners, n: nat, off: nat, src: seq<Byte>,
                  done: nat, addr: nat, m: nat)
    requires OwnInv(sb, d, i, o) && done + m <= |src| && Wrote(d0, i0, d, i, n, off, src, done)
    requires addr == Holds(d, i, FilePlace(n, (off + done) / BSIZE)) != 0 && (off + done) % BSIZE + m <= BSIZE
    ensures sb.nmeta <= addr < sb.size && o[addr] == FilePlace(n, (off + done) / BSIZE)
    ensures var d' := d[addr := Splice(d[addr], (off + done) % BSIZE, src[done..done + m])];
            OwnInv(sb, d', i, o) && Wrote(d0, i0, d', i, n, off, src, done + m)
  {
    hide Holds, ByteAt, Splice;
    var at, bytes := off + done, src[done..done + m];
    WrittenBytes(sb, d, i, o, n, at, bytes, n, at);
    var d' := d[addr := Splice(d[addr], at % BSIZE, bytes)];
    forall k: nat, p: nat
      ensures ByteAt(d', i, k, p) == if k == n && off <= p < at + m then src[p - off] else ByteAt(d0, i0, k, p) {
      WrittenBytes(sb, d, i, o, n, at, bytes, k, p);
      assert ByteAt(d, i, k, p) == if k == n && off <= p < off + done then src[p - off] else ByteAt(d0, i0, k, p);
    }
  }

  lemma CoveredMore(d: Disk, i: Inodes, d': Disk, n: nat, off: nat, done: nat, m: nat)
    requires Covered(d, i, n, off, done) && Holds(d, i, FilePlace(n, (off + done) / BSIZE)) != 0
             && (off + done) % BSIZE + m <= BSIZE
    requires forall pl {:trigger Holds(d', i, pl)} :: Holds(d', i, pl) == Holds(d, i, pl)
    ensures Covered(d', i, n, off, done + m)
  {
    forall bn: nat | off / BSIZE <= bn && bn * BSIZE < off + done + m ensures Holds(d', i, FilePlace(n, bn)) != 0 {
      if bn * BSIZE >= off + done { assert bn == (off + done) / BSIZE; }
    }
  }

  lemma LoggedMore(sb: Super, o0: Owners, l0: set<nat>, o: Owners, l: set<nat>, n: nat, off: nat, end: nat,
                   data: set<nat>, ind: nat, at: nat, addr: nat)
    requires Logged(sb, o0, l0, o, l, n, off, end, data, ind) && off <= at < end && addr in o
             && o[addr] == FilePlace(n, at / BSIZE)
    ensures Logged(sb, o0, l0, o, l + {addr}, n, off, end, data + {addr}, ind)
  {
  }

  /** Copying the next bytes of src into their block; with log_write, or without when the copy failed part of the
      way. */
  lemma WritingCopied(sb: Super, d0: Disk, i0: Inodes, o0: Owners, l0: set<nat>, d: Disk, i: Inodes, o: Owners,
                      l: set<nat>, n: nat, off: nat, end: nat, src: seq<Byte>, done: nat, data: set<nat>, addr: nat,
                          m: nat)
    requires Writing(sb, d0, i0, o0, l0, d, i, o, l, n, off, end, src, done, data) && OwnInv(sb, d, i, o)
    requires addr == Holds(d, i, FilePlace(n, (off + done) / BSIZE)) != 0 && (off + done) % BSIZE + m <= BSIZE
             && done + m <= |src|
    requires off + done < end
    ensures sb.nmeta <= addr < sb.size
    ensures var d' := d[addr := Splice(d[addr], (off + done) % BSIZE, src[done..done + m])];
      && OwnInv(sb, d', i, o)
      && Writing(sb, d0, i0, o0, l0, d', i, o, l, n, off, end, src, done + m, data)
      && Writing(sb, d0, i0, o0, l0, d', i, o, l + {addr}, n, off, end, src, done + m, data + {addr})
  {
    hide Wrote, Covered, Logged, Splice, ByteAt, Holds;
    WroteMore(sb, d0, i0, d, i, o, n, off, src, done, addr, m);
    var d' := d[addr := Splice(d[addr], (off + done) % BSIZE, src[done..done + m])];
    CopiedHolds(sb, d, i, o, d', addr, n, (off + done) / BSIZE);
    CoveredMore(d, i, d', n, off, done, m);
    LoggedMore(sb, o0, l0, o, l, n, off, end, data, Holds(d, i, Indirect(n)), off + done, addr);
  }

  lemma CopiedHolds(sb: Super, d: Disk, i: Inodes, o: Owners, d': Disk, addr: nat, n: nat, bn: nat)
    requires OwnInv(sb, d, i, o) && DiskOk(sb, d') && addr == Holds(d, i, FilePlace(n, bn)) != 0
    requires forall c :: 0 <= c < |d| && c != addr ==> d'[c] == d[c]
    ensures forall pl {:trigger Holds(d', i, pl)} :: Holds(d', i, pl) == Holds(d, i, pl)
  {
    forall pl ensures Holds(d', i, pl) == Holds(d, i, pl) {
      SameHolds(sb, d, i, o, d', pl);
    }
  }

  lemma AllLoggedMore(d1: Disk, i1: Inodes, d2: Disk, i2: Inodes, n: nat, off: nat, done: nat, data: set<nat>, m: nat,
                      addr: nat)
    requires AllLogged(d1, i1, n, off, done, data) && Covered(d1, i1, n, off, done)
    requires forall pl {:trigger Holds(d1, i1, pl)} :: Holds(d1, i1, pl) != 0 ==> Holds(d2, i2, pl) == Holds(d1, i1, pl)
    ensures AllLogged(d2, i2, n, off, done, data)
    ensures addr == Holds(d2, i2, FilePlace(n, (off + done) / BSIZE)) && (off + done) % BSIZE + m <= BSIZE ==>
              AllLogged(d2, i2, n, off, done + m, data + {addr})
  {
    if addr == Holds(d2, i2, FilePlace(n, (off + done) / BSIZE)) && (off + done) % BSIZE + m <= BSIZE && done + m > 0 {
      forall bn: nat | off / BSIZE <= bn && bn * BSIZE < off + done + m
        ensures Holds(d2, i2, FilePlace(n, bn)) in data + {addr} {
        if bn != (off + done) / BSIZE {
          assert bn * BSIZE < off + done;
          assert done > 0;
          assert Holds(d1, i1, FilePlace(n, bn)) != 0;
        }
      }
    }
  }

  /** AllLogged through a round of writei: bmap, and perhaps a copy into the block. */
  lemma RoundLogged(sb: Super, d1: Disk, i1: Inodes, o1: Owners, l1: set<nat>, d2: Disk, i2: Inodes, o2: Owners,
                    l2: set<nat>, d3: Disk, n: nat, off: nat, done: nat, data: set<nat>, m: nat, addr: nat)
    requires AllLogged(d1, i1, n, off, done, data) && Covered(d1, i1, n, off, done) && OwnInv(sb, d2, i2, o2)
    requires MappedTo(sb, d1, i1, o1, l1, d2, i2, o2, l2, FilePlace(n, (off + done) / BSIZE), addr)
    requires addr == 0 ==> d3 == d2
    requires addr != 0 ==>
               DiskOk(sb, d3) && (forall c :: 0 <= c < |d2| && c != addr ==> d3[c] == d2[c])
                   && (off + done) % BSIZE + m <= BSIZE
    ensures AllLogged(d3, i2, n, off, done, data)
    ensures addr != 0 ==> AllLogged(d3, i2, n, off, done + m, data + {addr})
  {
    if addr != 0 { CopiedHolds(sb, d2, i2, o2, d3, addr, n, (off + done) / BSIZE); }
    AllLoggedMore(d1, i1, d3, i2, n, off, done, data, m, addr);
  }

  // ---- writei ----

  /** How a round of writei ends: bytes copied and logged, no block to be had, or the source not readable to the end. */
  datatype Round = Copied(m: nat) | NoBlock | BadSource

  /** One round of writei's loop. */
  method WriteRound(fs: Fs, n: nat, off: nat, cnt: nat, src: seq<Byte>, tot: nat,
                    ghost d0: Disk, ghost i0: Inodes, ghost o0: Owners, ghost l0: set<nat>, ghost data: set<nat>)
    returns (r: Round, ghost data': set<nat>)
    requires fs.Ok() && n < |fs.inodes| && tot < cnt && |src| <= cnt && off + cnt <= MAXFILE * BSIZE
    requires Writing(fs.sb, d0, i0, o0, l0, fs.disk, fs.inodes, fs.owner, fs.logged, n, off, off + cnt, src, tot, data)
    requires AllLogged(fs.disk, fs.inodes, n, off, tot, data)
    modifies fs
    ensures fs.Ok() && n < |fs.inodes|
    ensures AllLogged(fs.disk, fs.inodes, n, off, if r.Copied? then tot + r.m else tot, data')
    ensures r.Copied? ==>
              && 0 < r.m && tot + r.m <= |src| && (r.m == cnt - tot || (off + tot + r.m) % BSIZE == 0)
              && Writing(fs.sb, d0, i0, o0, l0, fs.disk, fs.inodes, fs.owner, fs.logged, n, off, off + cnt, src,
                         tot + r.m, data')
    ensures r.NoBlock? ==>
              Full(fs.sb, fs.owner) && Holds(d0, i0, FilePlace(n, (off + tot) / BSIZE)) == 0
                  && Writing(fs.sb, d0, i0, o0, l0, fs.disk, fs.inodes, fs.owner, fs.logged, n, off, off + cnt, src,
                             tot, data')
    ensures r.BadSource? ==>
              && tot <= |src| < cnt && (off + tot) % BSIZE + (|src| - tot) < BSIZE
              && Writing(fs.sb, d0, i0, o0, l0, fs.disk, fs.inodes, fs.owner, fs.logged, n, off, off + cnt, src, |src|,
                         data')
  {
    hide OwnInv, BitsInv, Writing, MappedTo, Holds, AllLogged, Covered;
    data' := data;
    WritingDone(fs.sb, d0, i0, o0, l0, fs.disk, fs.inodes, fs.owner, fs.logged, n, off, off + cnt, src, tot, data);
    var at := off + tot;
    ghost var d1, i1, o1, l1 := fs.disk, fs.inodes, fs.owner, fs.logged;
    var addr := fs.Bmap(n, at / BSIZE);
    MappedEnds(fs.sb, d1, i1, o1, l1, fs.disk, fs.inodes, fs.owner, fs.logged, FilePlace(n, at / BSIZE), addr);
    WritingMapped(fs.sb, d0, i0, o0, l0, d1, i1, o1, l1, fs.disk, fs.inodes, fs.owner, fs.logged, n, off, off + cnt,
                  src, tot, data, addr);
    if addr == 0 {
      WasUnmapped(fs.sb, d0, i0, o0, l0, d1, i1, o1, l1, n, off, off + cnt, src, tot, data, FilePlace(n, at / BSIZE));
      RoundLogged(fs.sb, d1, i1, o1, l1, fs.disk, fs.inodes, fs.owner, fs.logged, fs.disk, n, off, tot, data, 0, addr);
      return NoBlock, data;
    }
    var m := Chunk(at, cnt - tot);
    var k := if tot + m <= |src| then m else |src| - tot;
    WritingCopied(fs.sb, d0, i0, o0, l0, fs.disk, fs.inodes, fs.owner, fs.logged, n, off, off + cnt, src, tot, data,
                  addr, k);
    OwnedDisk(fs.sb, fs.disk, fs.inodes, fs.owner, addr);
    var d3 := fs.disk[addr := Splice(fs.disk[addr], at % BSIZE, src[tot..tot + k])];
    CopyBits(fs.sb, fs.disk, fs.owner, addr, d3);
    RoundLogged(fs.sb, d1, i1, o1, l1, fs.disk, fs.inodes, fs.owner, fs.logged, d3, n, off, tot, data, k, addr);
    fs.disk := d3;
    if k < m { return BadSource, data; }
    fs.logged := fs.logged + {addr};
    return Copied(m), data + {addr};
  }

  lemma WritingDone(sb: Super, d0: Disk, i0: Inodes, o0: Owners, l0: set<nat>, d: Disk, i: Inodes, o: Owners,
                    l: set<nat>, n: nat, off: nat, end: nat, src: seq<Byte>, done: nat, data: set<nat>)
    requires Writing(sb, d0, i0, o0, l0, d, i, o, l, n, off, end, src, done, data)
    ensures done <= |src| && |i| == |i0| && Covered(d, i, n, off, done)
  {
  }

  lemma WasUnmapped(sb: Super, d0: Disk, i0: Inodes, o0: Owners, l0: set<nat>, d: Disk, i: Inodes, o: Owners,
                    l: set<nat>, n: nat, off: nat, end: nat, src: seq<Byte>, done: nat, data: set<nat>, pl: Place)
    requires Writing(sb, d0, i0, o0, l0, d, i, o, l, n, off, end, src, done, data) && Holds(d, i, pl) == 0
    ensures Holds(d0, i0, pl) == 0
  {
  }

  lemma MappedEnds(sb: Super, d0: Disk, i0: Inodes, o0: Owners, l0: set<nat>, d1: Disk, i1: Inodes, o1: Owners,
                   l1: set<nat>, pl: Place, addr: nat)
    requires MappedTo(sb, d0, i0, o0, l0, d1, i1, o1, l1, pl, addr)
    ensures |i1| == |i0| && (if addr == 0 then Full(sb, o1) && Holds(d0, i0, pl) == 0 else Holds(d1, i1, pl) == addr)
  {
  }

  lemma OwnedDisk(sb: Super, disk: Disk, inodes: Inodes, owner: Owners, addr: nat)
    requires OwnInv(sb, disk, inodes, owner)
    ensures DiskOk(sb, disk)
  {
  }

  lemma CopyBits(sb: Super, disk: Disk, owner: Owners, addr: nat, disk': Disk)
    requires BitsInv(sb, disk, owner, {}) && sb.nmeta <= addr < |disk| && |disk'| == |disk| && |disk'[addr]| == BSIZE
    requires forall c :: 0 <= c < |disk| && c != addr ==> disk'[c] == disk[c]
    ensures BitsInv(sb, disk', owner, {})
  {
    BitsSame(sb, disk, owner, {}, disk');
  }

  function Max(a: nat, b: nat): nat { if a < b then b else a }

  /** The most of `len` bytes at off that ends at a block boundary; nothing if they do not reach one. */
  function Whole(off: nat, len: nat): (r: nat)
    ensures r <= len && (r == 0 || (off + r) % BSIZE == 0) && off % BSIZE + len - r < 2 * BSIZE
  {
    var end := (off + len) / BSIZE * BSIZE;
    if end <= off then 0 else end - off
  }

  /** Where writei stops, of cnt bytes at off with `len` readable: at the end; or at the first block that it cannot
      get, on a full disk and at or past the old end of the file; or at the last block boundary below the first
      unreadable byte, with the bytes from there on copied too. */
  ghost predicate Stopped(sb: Super, o: Owners, size: nat, off: nat, cnt: nat, len: nat, r: nat, reach: nat) {
    || r == reach == cnt
    || (r == reach < cnt && r <= len && (r == 0 || (off + r) % BSIZE == 0) && Full(sb, o) && off + r >= size)
    || (len < cnt && reach == len && r == Whole(off, len))
  }

  lemma WholeAt(off: nat, len: nat, r: nat)
    requires r <= len && (r == 0 || (off + r) % BSIZE == 0) && (off + r) % BSIZE + (len - r) < BSIZE
    ensures r == Whole(off, len)
  {
    var q := (off + r) / BSIZE;
    assert off + r == q * BSIZE + (off + r) % BSIZE;
    assert q * BSIZE <= off + len < (q + 1) * BSIZE;
    assert (off + len) / BSIZE == q;
  }

  lemma WholeMost(off: nat, len: nat, r: nat)
    requires 0 < r <= len && (off + r) % BSIZE == 0
    ensures r <= Whole(off, len)
  {
    var q := (off + r) / BSIZE;
    assert off + r == q * BSIZE;
    assert (off + len) / BSIZE >= q;
  }

  /** What a writei that returns r >= 0 has done. `reach` bytes of src are in the file: r, unless the source could not
      be read to the end of a chunk, when its readable part of that chunk is there as well. */
  ghost predicate Written(sb: Super, d0: Disk, i0: Inodes, o0: Owners, l0: set<nat>, d: Disk, i: Inodes, o: Owners,
                          l: set<nat>, n: nat, off: nat, cnt: nat, src: seq<Byte>, r: nat, reach: nat, data: set<nat>) {
    && |i| == |i0| && n < |i0| && r <= reach <= |src| && Stopped(sb, o, i0[n].size, off, cnt, |src|, r, reach)
    && i[n].size == Max(i0[n].size, off + r) && (forall m :: 0 <= m < |i0| && m != n ==> i[m].size == i0[m].size)
    && Wrote(d0, i0, d, i, n, off, src, reach)
    && Logged(sb, o0, l0 + {InodeBlock(sb, n)}, o, l, n, off, off + cnt, data, Holds(d, i, Indirect(n)))
    && PlacesKept(d0, i0, o0, d, i, o) && AllLogged(d, i, n, off, r, data)
  }

  /** The end of writei: the size, and iupdate. */
  lemma WritingEnds(sb: Super, d0: Disk, i0: Inodes, o0: Owners, l0: set<nat>, d: Disk, i: Inodes, o: Owners,
                    l: set<nat>, n: nat, off: nat, cnt: nat, src: seq<Byte>, r: nat, reach: nat, data: set<nat>)
    requires Writing(sb, d0, i0, o0, l0, d, i, o, l, n, off, off + cnt, src, reach, data)
    requires n < |i0| && FileOk(d0, i0, n)
    requires AllLogged(d, i, n, off, r, data)
    requires r <= reach <= |src| <= cnt && Stopped(sb, o, i0[n].size, off, cnt, |src|, r, reach)
    requires off <= i0[n].size && off + cnt <= MAXFILE * BSIZE
    ensures n < |i| && i[n].size == i0[n].size
    ensures var i' := Resize(i, n, Max(i[n].size, off + r));
            MapKept(d0, i0, d, i')
                && Written(sb, d0, i0, o0, l0, d, i', o, l + {InodeBlock(sb, n)}, n, off, cnt, src, r, reach, data)
  {
    hide Holds, ByteAt, AllocLog;
    KeptMapped(d0, i0, o0, d, i, o);
    var size := Max(i[n].size, off + r);
    ResizedHolds(d, i, n, size);
    var i' := Resize(i, n, size);
    forall m: nat | m < |i0| && FileOk(d0, i0, m) ensures FileOk(d, i', m) {
      assert FileOk(d, i, m);
      if m == n { EndCovered(d, i, n, off, r, reach); }
    }
  }

  lemma EndCovered(d: Disk, i: Inodes, n: nat, off: nat, r: nat, reach: nat)
    requires n < |i| && FileOk(d, i, n) && Covered(d, i, n, off, reach) && r <= reach && off <= i[n].size
    ensures forall bn: nat :: bn * BSIZE < Max(i[n].size, off + r) ==> Holds(d, i, FilePlace(n, bn)) != 0
  {
    forall bn: nat | bn * BSIZE < Max(i[n].size, off + r) ensures Holds(d, i, FilePlace(n, bn)) != 0 {
      if bn * BSIZE >= i[n].size { assert off / BSIZE <= bn; }
    }
  }

  /** writei of cnt bytes at off, from a source whose first |src| bytes can be read. */
  method Writei(fs: Fs, n: nat, off: nat, cnt: nat, src: seq<Byte>)
    returns (r: int, ghost reach: nat, ghost data: set<nat>)
    requires fs.Ok() && n < |fs.inodes| && FileOk(fs.disk, fs.inodes, n) && |src| <= cnt && off < U32 && cnt < U32
    modifies fs
    ensures fs.Ok() && MapKept(old(fs.disk), old(fs.inodes), fs.disk, fs.inodes)
    ensures r < 0 <==> off > old(fs.inodes)[n].size || off + cnt > MAXFILE * BSIZE
    ensures r < 0 ==> r == -1 && fs.disk == old(fs.disk) && fs.inodes == old(fs.inodes) && fs.owner == old(fs.owner)
                      && fs.logged == old(fs.logged)
    ensures r >= 0 ==> Written(fs.sb, old(fs.disk), old(fs.inodes), old(fs.owner), old(fs.logged),
                               fs.disk, fs.inodes, fs.owner, fs.logged, n, off, cnt, src, r, reach, data)
  {
    reach, data := 0, {};
    if off > fs.inodes[n].size || (off + cnt) % U32 < off { return -1, 0, {}; }
    if off + cnt > MAXFILE * BSIZE { return -1, 0, {}; }
    r, reach, data := WriteLoop(fs, n, off, cnt, src);
  }

  method WriteLoop(fs: Fs, n: nat, off: nat, cnt: nat, src: seq<Byte>)
    returns (r: nat, ghost reach: nat, ghost data: set<nat>)
    requires fs.Ok() && n < |fs.inodes| && FileOk(fs.disk, fs.inodes, n) && |src| <= cnt && off <= fs.inodes[n].size
             && off + cnt <= MAXFILE * BSIZE
    modifies fs
    ensures fs.Ok() && MapKept(old(fs.disk), old(fs.inodes), fs.disk, fs.inodes)
    ensures Written(fs.sb, old(fs.disk), old(fs.inodes), old(fs.owner), old(fs.logged),
                    fs.disk, fs.inodes, fs.owner, fs.logged, n, off, cnt, src, r, reach, data)
  {
    hide Inv, Writing, Written, MapKept, FileOk;
    ghost var d0, i0, o0, l0 := fs.disk, fs.inodes, fs.owner, fs.logged;
    WritingStarts(fs.sb, d0, i0, o0, l0, n, off, off + cnt, src);
    r, reach, data := 0, 0, {};
    while r < cnt
      invariant fs.Ok() && n < |fs.inodes| && r <= cnt && r == reach <= |src|
      invariant Writing(fs.sb, d0, i0, o0, l0, fs.disk, fs.inodes, fs.owner, fs.logged, n, off, off + cnt, src, r, data)
      invariant AllLogged(fs.disk, fs.inodes, n, off, r, data) && (r == 0 || r == cnt || (off + r) % BSIZE == 0)
    {
      var round;
      round, data := WriteRound(fs, n, off, cnt, src, r, d0, i0, o0, l0, data);
      match round
      case Copied(m) => r, reach := r + m, reach + m;
      case NoBlock =>
        PastEnd(d0, i0, n, off, r);
        break;
      case BadSource =>
        WholeAt(off, |src|, r);
        reach := |src|;
        break;
    }
    FinishWrite(fs, n, off, cnt, src, r, reach, data, d0, i0, o0, l0);
  }

  /** A block boundary whose block is not mapped lies at or past the end of the file. */
  lemma PastEnd(d: Disk, i: Inodes, n: nat, off: nat, r: nat)
    requires n < |i| && FileOk(d, i, n) && off <= i[n].size && (r == 0 || (off + r) % BSIZE == 0)
    requires Holds(d, i, FilePlace(n, (off + r) / BSIZE)) == 0
    ensures off + r >= i[n].size
  {
    assert (off + r) / BSIZE * BSIZE >= i[n].size;
  }

  /** The end of writei: the size, and iupdate. */
  method FinishWrite(fs: Fs, n: nat, off: nat, cnt: nat, ghost src: seq<Byte>, r: nat, ghost reach: nat,
                     ghost data: set<nat>, ghost d0: Disk, ghost i0: Inodes, ghost o0: Owners, ghost l0: set<nat>)
    requires fs.Ok() && Writing(fs.sb, d0, i0, o0, l0, fs.disk, fs.inodes, fs.owner, fs.logged, n, off, off + cnt, src,
                                reach, data)
    requires n < |i0| && FileOk(d0, i0, n) && AllLogged(fs.disk, fs.inodes, n, off, r, data)
    requires r <= reach <= |src| <= cnt && Stopped(fs.sb, fs.owner, i0[n].size, off, cnt, |src|, r, reach)
    requires off <= i0[n].size && off + cnt <= MAXFILE * BSIZE
    modifies fs
    ensures fs.Ok() && MapKept(d0, i0, fs.disk, fs.inodes)
    ensures Written(fs.sb, d0, i0, o0, l0, fs.disk, fs.inodes, fs.owner, fs.logged, n, off, cnt, src, r, reach, data)
  {
    hide Inv, Writing, Written, MapKept;
    WritingEnds(fs.sb, d0, i0, o0, l0, fs.disk, fs.inodes, fs.owner, fs.logged, n, off, cnt, src, r, reach, data);
    ResizedInv(fs.sb, fs.disk, fs.inodes, fs.owner, n, Max(fs.inodes[n].size, off + r));
    if off + r > fs.inodes[n].size {
      fs.inodes := Resize(fs.inodes, n, off + r);
    } else {
      assert fs.inodes == Resize(fs.inodes, n, fs.inodes[n].size);
    }
    fs.logged := fs.logged + {InodeBlock(fs.sb, n)};
  }

  // ---- Files refine byte sequences ----

  /** f with `bytes` from off on, longer if need be. */
  function Overwrite(f: seq<Byte>, off: nat, bytes: seq<Byte>): seq<Byte>
    requires off <= |f|
  {
    f[..off] + bytes + if off + |bytes| <= |f| then f[off + |bytes|..] else []
  }

  /** Writing `cnt` bytes of which the first |src| can be read leaves more in the file than it reports if and only if a
      byte that it copied from beyond the last block boundary, inside the old file, is not the byte that was there. */
  ghost predicate CopiesMore(f: seq<Byte>, off: nat, cnt: nat, src: seq<Byte>) {
    |src| < cnt && exists p: nat :: off + Whole(off, |src|) <= p < off + |src| && p < |f| && src[p - off] != f[p]
  }

  /** What writei leaves in the file, whatever stopped it: the bytes it copied, as far as the size it set lets them be
      seen. */
  lemma WriteLeaves(sb: Super, d0: Disk, i0: Inodes, o0: Owners, l0: set<nat>, d: Disk, i: Inodes, o: Owners,
                    l: set<nat>, n: nat, off: nat, cnt: nat, src: seq<Byte>, r: nat, reach: nat, data: set<nat>)
    requires Written(sb, d0, i0, o0, l0, d, i, o, l, n, off, cnt, src, r, reach, data) && off <= i0[n].size
    ensures var g := Overwrite(FileBytes(d0, i0, n), off, src[..reach]);
      Max(i0[n].size, off + r) <= |g| && FileBytes(d, i, n) == g[..Max(i0[n].size, off + r)]
    ensures forall m: nat :: m < |i0| && m != n ==> FileBytes(d, i, m) == FileBytes(d0, i0, m)
  {
    hide ByteAt, Logged;
    var g := Overwrite(FileBytes(d0, i0, n), off, src[..reach]);
    assert |g| == Max(i0[n].size, off + reach);
    forall p: nat | p < Max(i0[n].size, off + r) ensures FileBytes(d, i, n)[p] == g[p] {
      assert g[p] == if off <= p < off + reach then src[p - off] else FileBytes(d0, i0, n)[p];
    }
    forall m: nat | m < |i0| && m != n ensures FileBytes(d, i, m) == FileBytes(d0, i0, m) {
      assert forall p: nat :: p < i[m].size ==> ByteAt(d, i, m, p) == ByteAt(d0, i0, m, p);
    }
  }

  /** A write that returns r is exactly the overwrite with the first r bytes, if and only if it does not copy more
      than it reports: a condition on the file, the offset, the length and the source before the call. No other file
      changes. */
  lemma WriteRefines(sb: Super, d0: Disk, i0: Inodes, o0: Owners, l0: set<nat>, d: Disk, i: Inodes, o: Owners,
                     l: set<nat>, n: nat, off: nat, cnt: nat, src: seq<Byte>, r: nat, reach: nat, data: set<nat>)
    requires Written(sb, d0, i0, o0, l0, d, i, o, l, n, off, cnt, src, r, reach, data) && off <= i0[n].size
             && |src| <= cnt
    ensures FileBytes(d, i, n) == Overwrite(FileBytes(d0, i0, n), off, src[..r])
            <==> !CopiesMore(FileBytes(d0, i0, n), off, cnt, src)
    ensures FileBytes(d, i, n)[off..off + r] == src[..r]
    ensures forall m: nat :: m < |i0| && m != n ==> FileBytes(d, i, m) == FileBytes(d0, i0, m)
  {
    hide ByteAt, Logged, AllLogged, PlacesKept, Stopped, CopiesMore;
    var f0, f := FileBytes(d0, i0, n), FileBytes(d, i, n);
    var g := Overwrite(f0, off, src[..r]);
    assert |g| == |f|;
    forall p: nat | p < |f|
      ensures f[p] == if off <= p < off + reach then src[p - off] else f0[p]
      ensures g[p] == if off <= p < off + r then src[p - off] else f0[p]
    {
    }
    MoreIs(sb, o, f0, f, g, off, cnt, src, r, reach);
    forall m: nat | m < |i0| && m != n ensures FileBytes(d, i, m) == FileBytes(d0, i0, m) {
      assert forall p: nat :: p < i[m].size ==> ByteAt(d, i, m, p) == ByteAt(d0, i0, m, p);
    }
  }

  lemma MoreIs(sb: Super, o: Owners, f0: seq<Byte>, f: seq<Byte>, g: seq<Byte>, off: nat, cnt: nat, src: seq<Byte>,
               r: nat, reach: nat)
    requires r <= reach <= |src| <= cnt && Stopped(sb, o, |f0|, off, cnt, |src|, r, reach) && off <= |f0|
    requires |f| == |g| == Max(|f0|, off + r)
    requires forall p: nat :: p < |f| ==> f[p] == if off <= p < off + reach then src[p - off] else f0[p]
    requires forall p: nat :: p < |f| ==> g[p] == if off <= p < off + r then src[p - off] else f0[p]
    ensures f == g <==> !CopiesMore(f0, off, cnt, src)
  {
    if CopiesMore(f0, off, cnt, src) {
      var p: nat :| off + Whole(off, |src|) <= p < off + |src| && p < |f0| && src[p - off] != f0[p];
      StopsThere(sb, o, |f0|, off, cnt, |src|, r, reach, p);
      assert f[p] != g[p];
    } else {
      forall p: nat | p < |f| ensures f[p] == g[p] {
        if off + r <= p < off + reach && p < |f0| {
          assert src[p - off] == f0[p];
        }
      }
    }
  }

  /** Inside the old file the disk does not run out. */
  lemma StopsThere(sb: Super, o: Owners, size: nat, off: nat, cnt: nat, len: nat, r: nat, reach: nat, p: nat)
    requires Stopped(sb, o, size, off, cnt, len, r, reach) && len < cnt && reach <= len
    requires off + Whole(off, len) <= p < off + len && p < size
    ensures r == Whole(off, len) && reach == len
  {
    if 0 < r <= len && (off + r) % BSIZE == 0 {
      WholeMost(off, len, r);
    }
  }
}
