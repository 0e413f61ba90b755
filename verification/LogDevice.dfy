/** The loops of kernel/log.c over a disk that records every block write: commit() and recover_from_log()
    as they run, with a crash possible after each write. */
module LogDevice {
  import opened Std
  import opened BufferCache
  import opened LogMachine

  /** `trace` lists the disk after each block write. */
  class Disk {
    var blocks: seq<Block>
    ghost var trace: seq<seq<Block>>

    constructor (blocks: seq<Block>)
      ensures this.blocks == blocks && trace == []
    {
      this.blocks := blocks;
      trace := [];
    }

    /** bwrite. */
    method Write(k: nat, c: Block)
      requires k < |blocks|
      modifies this
      ensures blocks == old(blocks)[k := c] && trace == old(trace) + [blocks]
    {
      blocks := blocks[k := c];
      trace := trace + [blocks];
    }
  }

  /** All disks written since the trace had length `from` recover to `a`. */
  ghost predicate AllRecoverTo(P: Params, trace: seq<seq<Block>>, from: nat, to: nat, a: seq<Block>) {
    && from <= to <= |trace|
    && forall i :: from <= i < to ==> RecoversTo(P, trace[i], a)
  }

  ghost predicate LogHolds(P: Params, disk: seq<Block>, lh: seq<int>, a: seq<Block>, n: nat) {
    && n <= |lh| && GoodEntries(P, lh) && |disk| == |a| == P.size && P.Ok()
    && forall i :: 0 <= i < n ==> disk[P.start + 1 + i] == a[lh[i]]
  }

  ghost predicate HomeHolds(P: Params, disk: seq<Block>, lh: seq<int>, a: seq<Block>, n: nat) {
    && n <= |lh| && GoodEntries(P, lh) && |disk| == |a| == P.size
    && (forall i :: 0 <= i < n ==> disk[lh[i]] == a[lh[i]])
    && (forall k :: P.Home(k) && k !in lh ==> disk[k] == a[k])
  }

  /** The transaction is in the log and its header on disk. */
  ghost predicate Committed(P: Params, disk: seq<Block>, lh: seq<int>, a: seq<Block>, n: nat) {
    LogHolds(P, disk, lh, a, |lh|) && HomeHolds(P, disk, lh, a, n) && Blocks(P, disk) && Entries(disk[P.start]) == lh
  }

  lemma CommittedRecovers(P: Params, disk: seq<Block>, lh: seq<int>, a: seq<Block>, n: nat)
    requires Committed(P, disk, lh, a, n)
    ensures RecoversTo(P, disk, a)
  {
    forall k | P.Home(k) ensures Recovered(P, disk, k) == a[k] {
      var i := IndexOf(lh, k);
      if i < |lh| { assert lh[i] == k; }
    }
  }

  /** log_write's search: the slot of a block, or the next free slot. */
  method FindSlot(lh: seq<int>, k: int) returns (i: nat)
    ensures i <= |lh| && (i < |lh| ==> lh[i] == k) && (i == |lh| <==> k !in lh)
    ensures NoDup(lh) ==> NoDup(if i == |lh| then lh + [k] else lh[i := k])
  {
    i := 0;
    while i < |lh|
      invariant 0 <= i <= |lh| && k !in lh[..i]
    {
      if lh[i] == k { break; }
      i := i + 1;
    }
  }

  /** write_log: the cached blocks go to the log; every home block stays. */
  method WriteLog(P: Params, d: Disk, lh: seq<int>, cache: seq<Block>)
    requires LogHolds(P, d.blocks, lh, cache, 0) && Blocks(P, d.blocks) && Blocks(P, cache)
    requires Entries(d.blocks[P.start]) == []
    modifies d
    ensures LogHolds(P, d.blocks, lh, cache, |lh|) && Blocks(P, d.blocks)
    ensures SameHome(P, d.blocks, old(d.blocks)) && d.blocks[P.start] == old(d.blocks)[P.start]
    ensures old(d.trace) <= d.trace && AllRecoverTo(P, d.trace, |old(d.trace)|, |d.trace|, old(d.blocks))
  {
    var tail := 0;
    while tail < |lh|
      invariant 0 <= tail <= |lh|
      invariant LogHolds(P, d.blocks, lh, cache, tail) && Blocks(P, d.blocks)
      invariant SameHome(P, d.blocks, old(d.blocks)) && d.blocks[P.start] == old(d.blocks)[P.start]
      invariant old(d.trace) <= d.trace && AllRecoverTo(P, d.trace, |old(d.trace)|, |d.trace|, old(d.blocks))
    {
      d.Write(P.start + 1 + tail, cache[lh[tail]]);
      EmptyLogRecovers(P, d.blocks, old(d.blocks));
      tail := tail + 1;
    }
  }

  /** install_trans: the log goes to the home blocks; the disk recovers to the same content throughout. */
  method InstallTrans(P: Params, d: Disk, lh: seq<int>, ghost a: seq<Block>)
    requires Committed(P, d.blocks, lh, a, 0) && Blocks(P, a)
    modifies d
    ensures Committed(P, d.blocks, lh, a, |lh|)
    ensures old(d.trace) <= d.trace && AllRecoverTo(P, d.trace, |old(d.trace)|, |d.trace|, a)
  {
    var tail := 0;
    while tail < |lh|
      invariant 0 <= tail <= |lh| && Committed(P, d.blocks, lh, a, tail)
      invariant old(d.trace) <= d.trace && AllRecoverTo(P, d.trace, |old(d.trace)|, |d.trace|, a)
    {
      InstallStep(P, d.blocks, lh, a, tail);
      d.Write(lh[tail], d.blocks[P.start + 1 + tail]);
      CommittedRecovers(P, d.blocks, lh, a, tail + 1);
      tail := tail + 1;
    }
  }

  lemma InstallStep(P: Params, disk: seq<Block>, lh: seq<int>, a: seq<Block>, t: nat)
    requires Committed(P, disk, lh, a, t) && t < |lh|
    ensures P.Home(lh[t]) && Committed(P, disk[lh[t] := disk[P.start + 1 + t]], lh, a, t + 1)
  {
    var disk' := disk[lh[t] := disk[P.start + 1 + t]];
    assert P.Home(lh[t]);
    assert disk'[P.start] == disk[P.start];
  }

  /** write_head. */
  method WriteHead(P: Params, d: Disk, lh: seq<int>)
    requires P.Ok() && Blocks(P, d.blocks) && |lh| <= P.logBlocks
    modifies d
    ensures Blocks(P, d.blocks) && Entries(d.blocks[P.start]) == lh
    ensures d.blocks == old(d.blocks)[P.start := d.blocks[P.start]] && d.trace == old(d.trace) + [d.blocks]
  {
    EntriesOfPut(d.blocks[P.start], lh);
    d.Write(P.start, PutEntries(d.blocks[P.start], lh));
  }

  lemma AllHome(P: Params, disk: seq<Block>, lh: seq<int>, a: seq<Block>)
    requires HomeHolds(P, disk, lh, a, |lh|)
    ensures SameHome(P, disk, a)
  {
    forall k | P.Home(k) ensures disk[k] == a[k] {
      if k in lh { var i :| 0 <= i < |lh| && lh[i] == k; }
    }
  }

  /** commit: after every write the disk recovers to the old home blocks up to the header write, and to the
      cached ones from then on. */
  method Commit(P: Params, d: Disk, lh: seq<int>, cache: seq<Block>) returns (ghost point: nat)
    requires LogHolds(P, d.blocks, lh, cache, 0) && HomeHolds(P, d.blocks, lh, cache, 0)
    requires Blocks(P, d.blocks) && Blocks(P, cache) && Entries(d.blocks[P.start]) == []
    modifies d
    ensures SameHome(P, d.blocks, cache) && Entries(d.blocks[P.start]) == [] && old(d.trace) <= d.trace
    ensures AllRecoverTo(P, d.trace, |old(d.trace)|, point, old(d.blocks))
    ensures AllRecoverTo(P, d.trace, point, |d.trace|, cache)
  {
    if |lh| > 0 {
      WriteLog(P, d, lh, cache);
      point := |d.trace|;
      assert HomeHolds(P, d.blocks, lh, cache, 0);
      WriteHead(P, d, lh);
      CommittedRecovers(P, d.blocks, lh, cache, 0);
      InstallTrans(P, d, lh, cache);
      AllHome(P, d.blocks, lh, cache);
      WriteHead(P, d, []);
      EmptyLogRecovers(P, d.blocks, cache);
    } else {
      point := |d.trace|;
    }
  }

  /** recover_from_log, from any disk a crash can leave: `a` is what it must restore, before every write,
      after every write and at the end. */
  method RecoverFromLog(P: Params, d: Disk, ghost a: seq<Block>)
    requires GoodDisk(P, d.blocks) && Blocks(P, a) && RecoversTo(P, d.blocks, a)
    modifies d
    ensures SameHome(P, d.blocks, a) && Entries(d.blocks[P.start]) == [] && GoodDisk(P, d.blocks)
    ensures old(d.trace) <= d.trace && AllRecoverTo(P, d.trace, |old(d.trace)|, |d.trace|, a)
  {
    var lh := Entries(d.blocks[P.start]);
    ReadHeadCommitted(P, d.blocks, lh, a);
    InstallTrans(P, d, lh, a);
    AllHome(P, d.blocks, lh, a);
    WriteHead(P, d, []);
    EmptyLogRecovers(P, d.blocks, a);
  }

  lemma ReadHeadCommitted(P: Params, disk: seq<Block>, lh: seq<int>, a: seq<Block>)
    requires GoodDisk(P, disk) && lh == Entries(disk[P.start]) && RecoversTo(P, disk, a)
    ensures Committed(P, disk, lh, a, 0)
  {
    forall k | P.Home(k) && k !in lh ensures disk[k] == a[k] {
      assert Recovered(P, disk, k) == a[k];
    }
    forall i | 0 <= i < |lh| ensures disk[P.start + 1 + i] == a[lh[i]] {
      assert lh[i] in lh && Recovered(P, disk, lh[i]) == a[lh[i]];
    }
  }
}
