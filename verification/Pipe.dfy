/** A pipe (kernel/pipe.c): a ring of bytes with two 32-bit counters that wrap, and one critical section of pipewrite or
    piperead at a time.  `size` is PIPESIZE. */
module Pipe {
  import opened Std
  import opened Counters

  datatype Pipe = Pipe(data: seq<Byte>, nread: nat, nwrite: nat, readopen: bool, writeopen: bool)

  // ---- The ring ----

  /** Bytes in the pipe: the difference of the counters as 32-bit numbers. */
  function Occupancy(p: Pipe): nat
    requires p.nread < U32 && p.nwrite < U32
  {
    Count(p.nread, p.nwrite, U32)
  }

  ghost predicate RingOk(p: Pipe, size: nat) {
    |p.data| == size && WindowOk(p.data, p.nread, p.nwrite, U32)
  }

  /** The bytes in the pipe, oldest first. */
  ghost function Content(p: Pipe, size: nat): (c: seq<Byte>)
    requires RingOk(p, size)
    ensures |c| == Occupancy(p)
  {
    Window(p.data, p.nread, p.nwrite, U32)
  }

  /** pi->nwrite == pi->nread + PIPESIZE, in 32-bit arithmetic. */
  predicate IsFull(p: Pipe, size: nat) {
    p.nwrite == (p.nread + size) % U32
  }

  /** pi->data[pi->nwrite++ % PIPESIZE] = ch. */
  function Put(p: Pipe, b: Byte): Pipe
    requires |p.data| > 0
  {
    p.(data := p.data[p.nwrite % |p.data| := b], nwrite := (p.nwrite + 1) % U32)
  }

  /** ch = pi->data[pi->nread % PIPESIZE]; pi->nread++. */
  function Get(p: Pipe): (Byte, Pipe)
    requires |p.data| > 0
  {
    (p.data[p.nread % |p.data|], p.(nread := (p.nread + 1) % U32))
  }

  lemma FullIs(p: Pipe, size: nat)
    requires RingOk(p, size)
    ensures IsFull(p, size) <==> Occupancy(p) == size
    ensures p.nread == p.nwrite <==> Occupancy(p) == 0
  {
    hide RingOk, Count;
    RingBounds(p, size);
    CountCases(p.nread, p.nwrite, U32);
    Around(p.nread, p.nwrite, size);
  }

  lemma RingBounds(p: Pipe, size: nat)
    requires RingOk(p, size)
    ensures 0 < size < U32 && p.nread < U32 && p.nwrite < U32
  {
  }

  lemma Around(lo: nat, hi: nat, size: nat)
    requires lo < U32 && hi < U32 && 0 < size < U32
    ensures hi == (lo + size) % U32 <==> size == if hi >= lo then hi - lo else hi + U32 - lo
  {
  }

  lemma PutAppends(p: Pipe, size: nat, b: Byte)
    requires RingOk(p, size) && !IsFull(p, size)
    ensures RingOk(Put(p, b), size) && Content(Put(p, b), size) == Content(p, size) + [b]
  {
    FullIs(p, size);
    WindowPush(p.data, p.nread, p.nwrite, U32, b);
  }

  lemma GetTakes(p: Pipe, size: nat)
    requires RingOk(p, size) && p.nread != p.nwrite
    ensures RingOk(Get(p).1, size) && Content(p, size) == [Get(p).0] + Content(Get(p).1, size)
  {
    WindowPop(p.data, p.nread, p.nwrite, U32);
  }

  // ---- The critical sections ----

  /** How a stretch of pipewrite under the lock ends: finished, given up with -1, or asleep on nwrite. */
  datatype WriteEnd = WriteDone | WriteKilled | WriteSleeps

  /** pipewrite's loop from byte i on. The writer is seen to be killed once i reaches killAt, and byte `bad` is the
      first that copyin cannot read. */
  function WriteRun(p: Pipe, size: nat, src: seq<Byte>, i: nat, killAt: nat, bad: nat): (r: (Pipe, nat, WriteEnd))
    requires i <= |src| && |p.data| > 0
    decreases |src| - i
  {
    if i == |src| then (p, i, WriteDone)
    else if !p.readopen || i >= killAt then (p, i, WriteKilled)
    else if IsFull(p, size) then (p, i, WriteSleeps)
    else if i >= bad then (p, i, WriteDone)
    else WriteRun(Put(p, src[i]), size, src, i + 1, killAt, bad)
  }

  /** Where pipewrite stops, of src from byte i on, in a pipe with room for `room` bytes: at the first byte that it is
      not to write, and for which reason. */
  ghost predicate WriteStops(src: seq<Byte>, i: nat, readopen: bool, room: nat, killAt: nat, bad: nat, j: nat,
                             e: WriteEnd) {
    && i <= j <= |src|
    && (j > i ==> readopen && j <= killAt && j <= bad && j - i <= room)
    && (j < |src| ==> !readopen || j >= killAt || j >= bad || j - i == room)
    && (e == WriteKilled <==> j < |src| && (!readopen || j >= killAt))
    && (e == WriteSleeps <==> j < |src| && readopen && j < killAt && j - i == room)
  }

  lemma {:induction false} WriteRunStops(p: Pipe, size: nat, src: seq<Byte>, i: nat, killAt: nat, bad: nat)
    requires RingOk(p, size) && |p.data| > 0 && i <= |src|
    ensures Occupancy(p) <= size
    ensures var (q, j, e) := WriteRun(p, size, src, i, killAt, bad);
      WriteStops(src, i, p.readopen, size - Occupancy(p), killAt, bad, j, e)
    decreases |src| - i
  {
    FullIs(p, size);
    hide RingOk, Content, IsFull, Occupancy;
    if i < |src| && p.readopen && i < killAt && !IsFull(p, size) && i < bad {
      PutAppends(p, size, src[i]);
      WriteRunStops(Put(p, src[i]), size, src, i + 1, killAt, bad);
    }
  }

  lemma {:induction false} WriteRunAppends(p: Pipe, size: nat, src: seq<Byte>, i: nat, killAt: nat, bad: nat)
    requires RingOk(p, size) && |p.data| > 0 && i <= |src|
    ensures var (q, j, e) := WriteRun(p, size, src, i, killAt, bad);
      && i <= j <= |src| && RingOk(q, size) && Content(q, size) == Content(p, size) + src[i..j]
      && q.readopen == p.readopen && q.writeopen == p.writeopen
      && (e == WriteSleeps ==> IsFull(q, size) && q.readopen && j < |src|)
      && (e == WriteDone ==> j == |src| || j >= bad)
      && (IsFull(p, size) ==> q == p)
    decreases |src| - i
  {
    hide RingOk, Content, IsFull;
    if i < |src| && p.readopen && i < killAt && !IsFull(p, size) && i < bad {
      PutAppends(p, size, src[i]);
      WriteRunAppends(Put(p, src[i]), size, src, i + 1, killAt, bad);
      var j := WriteRun(p, size, src, i, killAt, bad).1;
      assert Content(p, size) + [src[i]] + src[i + 1..j] == Content(p, size) + src[i..j];
    } else {
      assert src[i..i] == [];
    }
  }

  function Least(a: nat, b: nat, c: nat): nat {
    if a <= b && a <= c then a else if b <= c then b else c
  }

  datatype ReadEnd = ReadDone | ReadKilled | ReadSleeps

  /** piperead's copy loop: up to n bytes, to a destination whose byte `bad` cannot be written. */
  function TakeRun(p: Pipe, n: nat, bad: nat): (r: (Pipe, seq<Byte>))
    requires |p.data| > 0
    decreases n
  {
    if n == 0 || p.nread == p.nwrite || bad == 0 then (p, [])
    else
      var (q, bytes) := TakeRun(Get(p).1, n - 1, bad - 1);
      (q, [Get(p).0] + bytes)
  }

  function ReadRun(p: Pipe, n: nat, killed: bool, bad: nat): (r: (Pipe, seq<Byte>, ReadEnd))
    requires |p.data| > 0
  {
    if p.nread == p.nwrite && p.writeopen then (p, [], if killed then ReadKilled else ReadSleeps)
    else var (q, bytes) := TakeRun(p, n, bad); (q, bytes, ReadDone)
  }

  lemma {:induction false} TakeRunTakes(p: Pipe, size: nat, n: nat, bad: nat)
    requires RingOk(p, size) && |p.data| > 0
    ensures var (q, bytes) := TakeRun(p, n, bad);
      && RingOk(q, size) && Content(p, size) == bytes + Content(q, size) && q.readopen == p.readopen
      && q.writeopen == p.writeopen && |bytes| == Least(n, bad, Occupancy(p))
    decreases n
  {
    FullIs(p, size);
    hide RingOk, Content, Occupancy;
    if n > 0 && p.nread != p.nwrite && bad > 0 {
      GetTakes(p, size);
      TakeRunTakes(Get(p).1, size, n - 1, bad - 1);
      var (q, bytes) := TakeRun(Get(p).1, n - 1, bad - 1);
      assert [Get(p).0] + (bytes + Content(q, size)) == [Get(p).0] + bytes + Content(q, size);
    } else {
      assert [] + Content(p, size) == Content(p, size);
    }
  }

  /** A read of n bytes sleeps or gives up exactly on an empty pipe that is open for writing, and otherwise takes as
      many bytes as are asked for, there, and writable at the destination. */
  lemma ReadRunTakes(p: Pipe, size: nat, n: nat, killed: bool, bad: nat)
    requires RingOk(p, size)
    ensures var (q, bytes, e) := ReadRun(p, n, killed, bad);
      && RingOk(q, size) && Content(p, size) == bytes + Content(q, size) && Occupancy(p) == |bytes| + Occupancy(q)
      && q.readopen == p.readopen && q.writeopen == p.writeopen
      && (e != ReadDone <==> Occupancy(p) == 0 && p.writeopen) && (e != ReadDone ==> q == p && bytes == [])
      && (e == ReadKilled ==> killed) && (e == ReadSleeps ==> !killed)
      && (e == ReadDone ==> |bytes| == Least(n, bad, Occupancy(p)))
  {
    TakeRunTakes(p, size, n, bad);
    FullIs(p, size);
    assert [] + Content(p, size) == Content(p, size);
  }

  // ---- The same on an array ----

  /** struct pipe. */
  class Buffer {
    const size: nat
    const data: array<Byte>
    var nread: nat
    var nwrite: nat
    var readopen: bool
    var writeopen: bool

    ghost function View(): Pipe
      reads this, data
    {
      Pipe(data[..], nread, nwrite, readopen, writeopen)
    }

    ghost predicate Valid()
      reads this, data
    {
      RingOk(View(), size)
    }

    constructor (size: nat)
      requires 0 < size < U32 && U32 % size == 0
      ensures Valid() && fresh(data) && this.size == size && View().readopen && View().writeopen
              && Occupancy(View()) == 0
    {
      this.size := size;
      data := new Byte[size](_ => 0);
      nread, nwrite, readopen, writeopen := 0, 0, true, true;
    }

    /** pipewrite's loop, up to the point where it sleeps or ends. */
    method WriteLoop(src: seq<Byte>, i0: nat, killAt: nat, bad: nat) returns (i: nat, e: WriteEnd)
      requires Valid() && i0 <= |src|
      modifies this`nwrite, data
      ensures Valid() && (View(), i, e) == old(WriteRun(View(), size, src, i0, killAt, bad))
    {
      assert data.Length == size > 0;
      hide RingOk, Occupancy, Content;
      i := i0;
      while i < |src|
        invariant i0 <= i <= |src| && Valid() && data.Length == size > 0
        invariant WriteRun(View(), size, src, i, killAt, bad) == old(WriteRun(View(), size, src, i0, killAt, bad))
      {
        if !readopen || i >= killAt { return i, WriteKilled; }
        if nwrite == (nread + size) % U32 { return i, WriteSleeps; }
        if i >= bad { return i, WriteDone; }
        PutAppends(View(), size, src[i]);
        ghost var p := View();
        data[nwrite % size] := src[i];
        nwrite := (nwrite + 1) % U32;
        assert View() == Put(p, src[i]);
        i := i + 1;
      }
      e := WriteDone;
    }

    /** piperead from waking up, or from its start, to its end or to sleep. */
    method Read(n: nat, killed: bool, bad: nat) returns (bytes: seq<Byte>, e: ReadEnd)
      requires Valid()
      modifies this`nread
      ensures Valid() && (View(), bytes, e) == old(ReadRun(View(), n, killed, bad))
      ensures e == ReadDone ==>
                |bytes| == Least(n, bad, old(Occupancy(View())))
                    && old(Content(View(), size)) == bytes + Content(View(), size)
    {
      ReadRunTakes(View(), size, n, killed, bad);
      if nread == nwrite && writeopen { return [], if killed then ReadKilled else ReadSleeps; }
      bytes := ReadLoop(n, bad);
      e := ReadDone;
    }

    /** piperead's copy loop. */
    method ReadLoop(n: nat, bad: nat) returns (bytes: seq<Byte>)
      requires Valid()
      modifies this`nread
      ensures Valid() && (View(), bytes) == old(TakeRun(View(), n, bad))
    {
      assert data.Length == size > 0;
      hide RingOk, Occupancy, Content;
      bytes := [];
      assert [] + TakeRun(View(), n, bad).1 == TakeRun(View(), n, bad).1;
      var i := 0;
      while i < n
        invariant 0 <= i <= n && i <= bad && Valid() && data.Length == size > 0
        invariant var (q, rest) := TakeRun(View(), n - i, bad - i); (q, bytes + rest) == old(TakeRun(View(), n, bad))
      {
        if nread == nwrite || i == bad { break; }
        GetTakes(View(), size);
        var ch := data[nread % size];
        ghost var rest := TakeRun(Get(View()).1, n - i - 1, bad - i - 1).1;
        assert bytes + ([ch] + rest) == bytes + [ch] + rest;
        bytes := bytes + [ch];
        nread := (nread + 1) % U32;
        i := i + 1;
      }
      assert bytes + [] == bytes;
    }
  }
}
