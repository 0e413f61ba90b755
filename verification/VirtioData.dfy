/** What the requests of kernel/virtio_disk.c transfer: the queue with the contents of descriptors and request
    headers, the buffers, and a device that does what a chain of descriptors says (section 5.2.6 of VIRTIO 1.1). */
module VirtioData {
  import opened Std
  import opened Counters
  import opened Virtio

  const BSIZE: nat := 1024
  const SECTOR: nat := 512

  /** b->blockno * (BSIZE / 512), which C computes in 32 bits. */
  function SectorOf(k: nat): nat { k * (BSIZE / SECTOR) % U32 }

  /** struct virtio_blk_req: whether it writes the disk, and where. */
  datatype Header = Header(out: bool, sector: nat)

  /** What the address in a descriptor points to: a request header, the data of a buffer, or a status byte. */
  datatype Addr = ToHeader(i: nat) | ToData(b: nat) | ToStatus(i: nat)

  /** A descriptor's other fields: address, length, and whether the device may write there. */
  datatype Cell = Cell(addr: Addr, len: nat, writable: bool)

  /** What virtio_disk_rw was called for. */
  datatype Want = Want(write: bool, block: nat)

  /** The queue; disk.ops, the descriptors and disk.info's status bytes; the buffers' block numbers and data; the
      bytes of the disk; and for each live request, by its first descriptor, what it was made for. */
  datatype World = World(q: State, ops: seq<Header>, cells: seq<Cell>, status: seq<nat>,
                         blockno: seq<nat>, data: seq<seq<Byte>>, bytes: seq<Byte>, want: map<nat, Want>)

  /** As in Virtio; Set and Assign are what a buffer's holder does to it when no request has it. */
  datatype Move =
    | Start(b: nat, write: bool, i0: nat, i1: nat, i2: nat)
    | Fetch
    | Serve(h: nat)
    | Notice
    | Finish(h: nat)
    | Fill(b: nat, d: seq<Byte>)
    | Assign(b: nat, k: nat)

  ghost predicate OnDisk(w: World, k: nat) { k < U32 && (k + 1) * BSIZE <= |w.bytes| }

  /** The chain from h is a request that the device can serve: header, data and status, with room for the data on the
      disk and with leave to write what it has to write. */
  ghost predicate Serviceable(w: World, h: nat) {
    && h < |w.q.desc| == |w.cells| && w.q.desc[h].more && w.q.desc[h].next < |w.cells|
    && var d := w.q.desc[h].next;
    && w.q.desc[d].more && w.q.desc[d].next < |w.cells|
    && var e := w.q.desc[d].next;
    && !w.q.desc[e].more
    && w.cells[h].addr.ToHeader? && w.cells[h].addr.i < |w.ops| && w.cells[h].len == 16
    && w.cells[d].addr.ToData? && w.cells[d].addr.b < |w.data| && w.cells[d].len == |w.data[w.cells[d].addr.b]|
    && w.cells[e].addr.ToStatus? && w.cells[e].addr.i < |w.status| && w.cells[e].len == 1 && w.cells[e].writable
    && var r := w.ops[w.cells[h].addr.i];
    && w.cells[d].writable == !r.out
    && r.sector * SECTOR + w.cells[d].len <= |w.bytes|
  }

  /** The device serves the chain. */
  ghost function Served(w: World, h: nat): World
    requires Serviceable(w, h)
  {
    var d := w.q.desc[h].next;
    var e := w.q.desc[d].next;
    var r, b, n := w.ops[w.cells[h].addr.i], w.cells[d].addr.b, w.cells[d].len;
    var at := r.sector * SECTOR;
    var t := w.(status := w.status[w.cells[e].addr.i := 0]);
    if r.out then t.(bytes := Splice(w.bytes, at, w.data[b]))
    else t.(data := w.data[b := w.bytes[at..at + n]])
  }

  ghost predicate Idle(w: World, b: nat) { b < |w.data| && forall h :: h in w.q.live ==> w.q.live[h].buf != b }

  function OfQueue(m: Move): Step
    requires !m.Fill? && !m.Assign?
  {
    match m
    case Start(b, _, i0, i1, i2) => Submit(b, i0, i1, i2)
    case Fetch => Take
    case Serve(h) => Complete(h)
    case Notice => Interrupt
    case Finish(h) => Release(h)
  }

  /** A request that the device cannot serve stays as it is, and the interrupt panics at a status other than 0. */
  ghost predicate Can(w: World, m: Move) {
    match m
    case Fill(b, d) => Idle(w, b) && |d| == BSIZE
    case Assign(b, k) => Idle(w, b) && b < |w.blockno|
    case Start(b, _, _, _, _) => Enabled(w.q, OfQueue(m)) && b < |w.blockno| && b < |w.data| && OnDisk(w, w.blockno[b])
                                 && |w.ops| == |w.cells| == |w.status| == |w.q.free|
    case Serve(h) => Enabled(w.q, OfQueue(m)) && Serviceable(w, h)
    case Notice => Enabled(w.q, OfQueue(m)) && w.q.used[w.q.usedSeen % |w.q.used|] < |w.status|
                   && w.status[w.q.used[w.q.usedSeen % |w.q.used|]] == 0
    case _ => Enabled(w.q, OfQueue(m))
  }

  ghost function Moved(w: World, m: Move): World
    requires Can(w, m)
  {
    match m
    case Fill(b, d) => w.(data := w.data[b := d])
    case Assign(b, k) => w.(blockno := w.blockno[b := k])
    case Start(b, write, i0, i1, i2) =>
      w.(q := Next(w.q, OfQueue(m)),
         ops := w.ops[i0 := Header(write, SectorOf(w.blockno[b]))],
         cells := w.cells[i0 := Cell(ToHeader(i0), 16, false)][i1 := Cell(ToData(b), BSIZE, !write)]
                         [i2 := Cell(ToStatus(i0), 1, true)],
         status := w.status[i0 := 0xFF],
         want := w.want[i0 := Want(write, w.blockno[b])])
    case Serve(h) => Served(w, h).(q := Next(w.q, OfQueue(m)))
    case Finish(h) => w.(q := Next(w.q, OfQueue(m)), want := w.want - {h})
    case _ => w.(q := Next(w.q, OfQueue(m)))
  }

  // ---- The invariant ----

  ghost predicate Sizes(w: World) {
    && |w.ops| == |w.cells| == |w.status| == |w.q.free| && |w.blockno| == |w.data|
    && forall b :: 0 <= b < |w.data| ==> |w.data[b]| == BSIZE
  }

  /** The descriptors, the header and the status of live request h say what it was made for. */
  ghost predicate RequestOk(w: World, h: nat)
    requires Sizes(w)
  {
    && h in w.q.live && h in w.want
    && var r, want := w.q.live[h], w.want[h];
    && h < |w.ops| && r.mid < |w.ops| && r.tail < |w.ops| && r.buf < |w.data|
    && w.blockno[r.buf] == want.block && OnDisk(w, want.block)
    && w.ops[h] == Header(want.write, SectorOf(want.block))
    && w.cells[h] == Cell(ToHeader(h), 16, false)
    && w.cells[r.mid] == Cell(ToData(r.buf), BSIZE, !want.write)
    && w.cells[r.tail] == Cell(ToStatus(h), 1, true)
    && (r.phase == Completed || r.phase == Finished ==> w.status[h] == 0)
  }

  ghost predicate All(w: World) {
    && Inv(w.q) && Sizes(w) && w.want.Keys == w.q.live.Keys
    && forall h {:trigger RequestOk(w, h)} :: h in w.q.live ==> RequestOk(w, h)
  }

  // ---- What serving a request does ----

  /** The wrapped sector is that of block k without its top bit. */
  lemma SectorWraps(k: nat)
    requires k < U32
    ensures SectorOf(k) * SECTOR == k % 0x8000_0000 * BSIZE
    ensures SectorOf(k) * SECTOR == k * BSIZE <==> k < 0x8000_0000
  {
  }

  lemma ServesWant(w: World, h: nat)
    requires All(w) && h in w.q.live
    ensures Serviceable(w, h)
    ensures var r, want := w.q.live[h], w.want[h];
      var k := want.block % 0x8000_0000;
      && r.buf < |w.data| && (k + 1) * BSIZE <= |w.bytes|
      && Served(w, h) == if want.write
           then w.(status := w.status[h := 0], bytes := Splice(w.bytes, k * BSIZE, w.data[r.buf]))
           else w.(status := w.status[h := 0], data := w.data[r.buf := w.bytes[k * BSIZE..(k + 1) * BSIZE]])
  {
    assert ChainOk(w.q, h) && RequestOk(w, h);
    SectorWraps(w.want[h].block);
  }

  // ---- Every move keeps it ----

  lemma StartKeeps(w: World, m: Move, h: nat)
    requires All(w) && m.Start? && Can(w, m) && h in Moved(w, m).q.live
    ensures Sizes(Moved(w, m)) && RequestOk(Moved(w, m), h)
  {
    hide RingHolds;
    assert DescOk(w.q, m.i0) && DescOk(w.q, m.i1) && DescOk(w.q, m.i2);
    if h != m.i0 { assert ChainOk(w.q, h) && RequestOk(w, h); }
  }

  /** A request stays as it is described while its queue moves on and its buffer is left alone. */
  lemma DescribedStill(w: World, w': World, h: nat)
    requires Sizes(w) && Sizes(w') && RequestOk(w, h) && h in w'.q.live && h in w'.want && w'.want[h] == w.want[h]
    requires w'.q.live[h] == w.q.live[h].(phase := w'.q.live[h].phase)
    requires w'.ops == w.ops && w'.cells == w.cells && |w'.bytes| == |w.bytes| && |w'.data| == |w.data|
    requires w'.blockno[w.q.live[h].buf] == w.blockno[w.q.live[h].buf]
    requires w'.q.live[h].phase == Completed || w'.q.live[h].phase == Finished ==> w'.status[h] == 0
    ensures RequestOk(w', h)
  {
  }

  lemma ServeKeeps(w: World, g: nat, h: nat)
    requires All(w) && Can(w, Serve(g)) && h in w.q.live
    ensures Sizes(Moved(w, Serve(g))) && RequestOk(Moved(w, Serve(g)), h)
  {
    hide Inv, Serviceable, Served;
    ServesWant(w, g);
    assert RequestOk(w, h) && RequestOk(w, g);
    DescribedStill(w, Moved(w, Serve(g)), h);
  }

  lemma NoticeKeeps(w: World, h: nat)
    requires All(w) && Can(w, Notice) && h in w.q.live
    ensures Sizes(Moved(w, Notice)) && RequestOk(Moved(w, Notice), h)
  {
    InterruptReads(w.q);
    hide Inv;
    assert RequestOk(w, h);
    DescribedStill(w, Moved(w, Notice), h);
  }

  lemma OthersKeep(w: World, m: Move, h: nat)
    requires All(w) && Can(w, m) && (m.Fetch? || m.Finish? || m.Fill? || m.Assign?) && h in Moved(w, m).q.live
    ensures Sizes(Moved(w, m)) && RequestOk(Moved(w, m), h)
  {
    hide RingHolds;
    assert RequestOk(w, h);
    if m.Fetch? { FetchQueued(w.q); }
    DescribedStill(w, Moved(w, m), h);
  }

  lemma FetchQueued(q: State)
    requires Inv(q) && Enabled(q, Take)
    ensures q.live[q.avail[q.seen % |q.avail|]].phase == Queued
  {
    WindowPop(q.avail, q.seen, q.availIdx, U16);
    assert Window(q.avail, q.seen, q.availIdx, U16)[0] == q.avail[q.seen % |q.avail|];
  }

  lemma AllKept(w: World, m: Move)
    requires All(w) && Can(w, m)
    ensures All(Moved(w, m))
  {
    hide RequestOk, Inv, Sizes, Enabled, Next;
    var w' := Moved(w, m);
    if !m.Fill? && !m.Assign? { InvKept(w.q, OfQueue(m)); }
    KeysKept(w, m);
    forall h | h in w'.q.live ensures Sizes(w') && RequestOk(w', h) {
      match m
      case Start(_, _, _, _, _) => StartKeeps(w, m, h);
      case Serve(g) => ServeKeeps(w, g, h);
      case Notice => NoticeKeeps(w, h);
      case _ => OthersKeep(w, m, h);
    }
  }

  lemma KeysKept(w: World, m: Move)
    requires All(w) && Can(w, m)
    ensures Sizes(Moved(w, m)) && Moved(w, m).want.Keys == Moved(w, m).q.live.Keys
    ensures !m.Start? && !m.Finish? ==> Moved(w, m).q.live.Keys == w.q.live.Keys
    ensures m.Fill? || m.Assign? ==> Moved(w, m).q == w.q
  {
    hide RingHolds, Serviceable, Served, ChainOk, DescOk, BufOk;
    if m.Serve? { ServesWant(w, m.h); }
  }

  // ---- Runs ----

  ghost predicate Begin(w: World) { Init(w.q) && Sizes(w) && w.want == map[] }

  ghost predicate Runs(w: World, moves: seq<Move>)
    decreases |moves|
  {
    moves == [] || (Can(w, moves[0]) && Runs(Moved(w, moves[0]), moves[1..]))
  }

  ghost function End(w: World, moves: seq<Move>): World
    requires Runs(w, moves)
    decreases |moves|
  {
    if moves == [] then w else End(Moved(w, moves[0]), moves[1..])
  }

  lemma BeginAll(w: World)
    requires Begin(w)
    ensures All(w)
  {
    InitInv(w.q);
  }

  lemma {:induction false} RunAll(w: World, moves: seq<Move>)
    requires All(w) && Runs(w, moves)
    ensures All(End(w, moves))
    decreases |moves|
  {
    hide All, Can, Moved;
    if moves != [] {
      AllKept(w, moves[0]);
      RunAll(Moved(w, moves[0]), moves[1..]);
    }
  }

  /** In every run the device can serve every request it has taken, and serving it moves one block between the buffer
      that asked and the disk, the way that was asked, and changes nothing else; it is the buffer's block if and only
      if the block number is below 2^31, and otherwise the one 2^31 below. The interrupt never finds a status other
      than 0. */
  lemma Transfers(w: World, moves: seq<Move>)
    requires Begin(w) && Runs(w, moves)
    ensures var t := End(w, moves);
      && (t.q.usedSeen != t.q.usedIdx ==> Can(t, Notice))
      && forall h :: h in t.q.live && t.q.live[h].phase == Taken ==>
           && Can(t, Serve(h)) && h in t.want && t.q.live[h].buf < |t.data| && t.q.live[h].buf < |t.blockno|
           && t.want[h].block == t.blockno[t.q.live[h].buf]
           && Exchanged(t, Moved(t, Serve(h)), t.want[h].write, t.q.live[h].buf, t.want[h].block % 0x8000_0000)
  {
    BeginAll(w);
    RunAll(w, moves);
    var t := End(w, moves);
    hide All, Served, Serviceable;
    if t.q.usedSeen != t.q.usedIdx { StatusZero(t); }
    forall h | h in t.q.live && t.q.live[h].phase == Taken
      ensures && Can(t, Serve(h)) && h in t.want && t.q.live[h].buf < |t.data| && t.q.live[h].buf < |t.blockno|
              && t.want[h].block == t.blockno[t.q.live[h].buf]
              && Exchanged(t, Moved(t, Serve(h)), t.want[h].write, t.q.live[h].buf, t.want[h].block % 0x8000_0000)
    {
      Exchanges(t, h);
    }
  }

  /** From t to t' one block went from buffer b to block k of the disk, or back. */
  ghost predicate Exchanged(t: World, t': World, write: bool, b: nat, k: nat) {
    && b < |t.data| && |t.data[b]| == BSIZE && (k + 1) * BSIZE <= |t.bytes|
    && t'.blockno == t.blockno && t'.q.disk == t.q.disk
    && if write then t'.data == t.data && t'.bytes == Splice(t.bytes, k * BSIZE, t.data[b])
       else t'.bytes == t.bytes && t'.data == t.data[b := t.bytes[k * BSIZE..(k + 1) * BSIZE]]
  }

  lemma Exchanges(t: World, h: nat)
    requires All(t) && h in t.q.live && t.q.live[h].phase == Taken
    ensures && Can(t, Serve(h)) && h in t.want && t.q.live[h].buf < |t.data| && t.q.live[h].buf < |t.blockno|
            && t.want[h].block == t.blockno[t.q.live[h].buf]
            && Exchanged(t, Moved(t, Serve(h)), t.want[h].write, t.q.live[h].buf, t.want[h].block % 0x8000_0000)
  {
    hide Served, Serviceable, RingHolds;
    ServesWant(t, h);
    assert RequestOk(t, h) && ChainOk(t.q, h);
  }

  lemma StatusZero(t: World)
    requires All(t) && t.q.usedSeen != t.q.usedIdx
    ensures Can(t, Notice)
  {
    InterruptReads(t.q);
    assert RequestOk(t, t.q.used[t.q.usedSeen % |t.q.used|]);
  }

  // ---- One call ----

  predicate Pending(phase: Phase) { phase == Queued || phase == Taken }

  /** A move leaves a request and its buffer alone until the device serves it. */
  lemma OwnRequest(w: World, m: Move, h: nat)
    requires All(w) && Can(w, m) && h in w.q.live && m != Finish(h)
    ensures var w' := Moved(w, m);
      && h in w'.q.live && w'.q.live[h].buf == w.q.live[h].buf < |w.data| == |w'.data|
      && h in w.want && h in w'.want && w'.want[h] == w.want[h]
      && (m != Serve(h) ==> w'.data[w.q.live[h].buf] == w.data[w.q.live[h].buf]
                            && (Pending(w'.q.live[h].phase) <==> Pending(w.q.live[h].phase)))
      && (m == Serve(h) ==> w.q.live[h].phase == Taken && w'.q.live[h].phase == Completed)
  {
    hide RingHolds, Served, Serviceable, ChainOk, DescOk;
    assert RequestOk(w, h) && BufOk(w.q, h);
    match m
    case Start(_, _, i0, _, _) => FreeNotLive(w.q, i0);
    case Fetch => FetchQueued(w.q);
    case Serve(g) =>
      ServesWant(w, g);
      assert BufOk(w.q, g);
    case Notice => InterruptReads(w.q);
    case _ =>
  }

  lemma {:induction false} ServedOnce(w: World, moves: seq<Move>, h: nat)
    requires All(w) && Runs(w, moves) && h in w.q.live && !Pending(w.q.live[h].phase) && Finish(h) !in moves
    ensures var t := End(w, moves);
      && h in t.q.live && t.q.live[h].buf == w.q.live[h].buf < |w.data| == |t.data|
      && t.data[w.q.live[h].buf] == w.data[w.q.live[h].buf] && Serve(h) !in moves
    decreases |moves|
  {
    hide All, Can, Moved;
    InData(w, h);
    if moves != [] {
      OwnRequest(w, moves[0], h);
      AllKept(w, moves[0]);
      ServedOnce(Moved(w, moves[0]), moves[1..], h);
    }
  }

  lemma InData(w: World, h: nat)
    requires All(w) && h in w.q.live
    ensures w.q.live[h].buf < |w.data| && h in w.want
  {
    assert RequestOk(w, h);
  }

  /** From virtio_disk_rw's submission to its return, whatever else goes on, the device serves the request exactly
      once. Until then the buffer is as it was submitted, and from then on it is as that left it: so a write puts the
      data of the call into its block, and a read returns what the block held at one moment of the call. */
  lemma {:induction false} Call(w: World, moves: seq<Move>, h: nat) returns (i: nat)
    requires All(w) && Runs(w, moves) && h in w.q.live && Pending(w.q.live[h].phase) && Finish(h) !in moves
    requires h in End(w, moves).q.live && End(w, moves).q.live[h].phase == Finished
    ensures i < |moves| && moves[i] == Serve(h) && Serve(h) !in moves[..i] && Serve(h) !in moves[i + 1..]
    ensures Runs(w, moves[..i]) && Can(End(w, moves[..i]), Serve(h))
    ensures var b, want := w.q.live[h].buf, w.want[h];
      var u := End(w, moves[..i]);
      var v := Moved(u, Serve(h));
      && b < |w.data| == |u.data| == |v.data| == |End(w, moves).data|
      && u.data[b] == w.data[b] && End(w, moves).data[b] == v.data[b]
      && Exchanged(u, v, want.write, b, want.block % 0x8000_0000)
    decreases |moves|
  {
    hide All, Can, Moved, Exchanged;
    InData(w, h);
    var w' := Moved(w, moves[0]);
    OwnRequest(w, moves[0], h);
    AllKept(w, moves[0]);
    if moves[0] == Serve(h) {
      i := 0;
      Exchanges(w, h);
      ServedOnce(w', moves[1..], h);
      assert moves[..0] == [] && moves[0 + 1..] == moves[1..];
    } else {
      var j := Call(w', moves[1..], h);
      i := j + 1;
      assert moves[..i] == [moves[0]] + moves[1..][..j] && moves[..i][1..] == moves[1..][..j];
      assert moves[i + 1..] == moves[1..][j + 1..];
    }
  }
}
