/** All processes together: any sequence of page faults, sbrk, copies, fork and exit by any of them keeps memory in
    order, and no frame is ever lost. */
module Kernel {
  import opened Std
  import opened PageTable
  import opened VirtualMemory
  import opened Process
  import opened AddressSpace
  import opened UserMemory
  import opened Teardown
  import opened Fork

  // ---- freeproc ----

  /** The trapframe and every frame of one tree have become free; no other frame has changed its role, nor its content
      unless it is a table, and the other trees keep their entries. */
  ghost predicate Dissolved(p0: Pages, r0: Roles, v0: View, p1: Pages, r1: Roles, v1: View, root: nat, tf: nat) {
    && (forall f :: f in r1 <==> f in r0) && (forall f :: f in p1 <==> f in p0)
    && (forall f :: f in r0 ==> r1[f] == if OfTree(r0[f], root) || f == tf then Free else r0[f])
    && (forall f :: f in r0 && f in p0 && !OfTree(r0[f], root) && f != tf && !r0[f].TableOf? ==> p1[f] == p0[f])
    && (forall s :: s in v1 <==> s in v0 && s.root != root)
    && (forall s :: s in v1 ==> v1[s] == v0[s])
  }

  lemma GivenDissolved(p0: Pages, r0: Roles, v0: View, p1: Pages, r1: Roles, v1: View, root: nat, tf: nat)
    requires tf in r0 && tf in p0 && r0[tf] == Owned && Reclaimed(p0[tf := Junk], r0[tf := Free], v0, p1, r1, v1, root)
    ensures Dissolved(p0, r0, v0, p1, r1, v1, root, tf)
  {
    assert r0[tf := Free].Keys == r0.Keys && p0[tf := Junk].Keys == p0.Keys;
  }

  /** freeproc, as far as memory goes. */
  method FreeProc(vm: Vm, p: Proc)
    requires vm.Valid() && ProcOk(vm, p)
    modifies vm
    ensures vm.Valid()
    ensures Dissolved(old(vm.pages), old(vm.role), old(vm.view), vm.pages, vm.role, vm.view, p.root, p.tf)
  {
    hide FreeOk, ViewOk, DataOk, Reclaimed, Dissolved;
    ghost var p0, r0, v0 := vm.pages, vm.role, vm.view;
    TakenDataOk(p0, r0, v0, p.tf, Free);
    vm.Kfree(p.tf);
    PagesMonotone(p.sz, LIMIT);
    FreePagetable(vm, p.root, p.sz);
    GivenDissolved(p0, r0, v0, vm.pages, vm.role, vm.view, p.root, p.tf);
  }

  lemma DissolvedFits(p0: Pages, r0: Roles, v0: View, p1: Pages, r1: Roles, v1: View, root: nat, tf: nat, r: nat,
                      sz: nat, t: nat)
    requires Dissolved(p0, r0, v0, p1, r1, v1, root, tf) && ProcFits(r0, v0, r, sz, t) && r != root && t != tf
    requires TreeOk(p0, r0) && tf in r0 && r0[tf] == Owned
    ensures ProcFits(r1, v1, r, sz, t)
  {
    assert TableOk(p0, r0, r);
  }

  // ---- Who has which frame ----

  ghost function Roots(procs: seq<Proc>): set<nat> {
    set k | 0 <= k < |procs| :: procs[k].root
  }

  ghost function Trapframes(procs: seq<Proc>): set<nat> {
    set k | 0 <= k < |procs| :: procs[k].tf
  }

  /** The kernel has just its own frames and the trapframes; every table and data page is some process's. */
  ghost predicate FramesOk(role: Roles, roots: set<nat>, tfs: set<nat>, own: set<nat>) {
    && own !! tfs
    && (forall f :: f in own + tfs ==> f in role)
    && (forall f :: f in role ==> (role[f] == Owned <==> f in own + tfs))
    && (forall f :: f in role && (role[f].TableOf? || role[f].DataOf?) ==> role[f].root in roots)
  }

  lemma KeptFrames(role: Roles, role': Roles, root: nat, roots: set<nat>, tfs: set<nat>, own: set<nat>)
    requires FramesOk(role, roots, tfs, own) && RolesKept(role, role', root) && root in roots
    ensures FramesOk(role', roots, tfs, own)
  {
  }

  lemma ForkedFrames(r0: Roles, r1: Roles, child: nat, tf: nat, roots: set<nat>, tfs: set<nat>, own: set<nat>)
    requires FramesOk(r0, roots, tfs, own) && tf in r0 && r0[tf] == Free && RolesKept(r0[tf := Owned], r1, child)
    ensures FramesOk(r1, roots + {child}, tfs + {tf}, own)
  {
    assert r0[tf := Owned].Keys == r0.Keys;
  }

  lemma DissolvedFrames(p0: Pages, r0: Roles, v0: View, p1: Pages, r1: Roles, v1: View, root: nat, tf: nat,
                        roots: set<nat>, tfs: set<nat>, own: set<nat>)
    requires Dissolved(p0, r0, v0, p1, r1, v1, root, tf) && FramesOk(r0, roots, tfs, own) && tf in tfs
    ensures FramesOk(r1, roots - {root}, tfs - {tf}, own)
  {
  }

  /** No two processes share a page table or a trapframe. */
  ghost predicate Apart(procs: seq<Proc>) {
    && (forall j, k :: 0 <= j < k < |procs| ==> procs[j].root != procs[k].root)
    && (forall j, k :: 0 <= j < k < |procs| ==> procs[j].tf != procs[k].tf)
  }

  lemma OneLess(procs: seq<Proc>, k: nat)
    requires Apart(procs) && k < |procs|
    ensures forall p :: p in procs[..k] + procs[k + 1..] <==> p in procs && p != procs[k]
  {
    var rest := procs[..k] + procs[k + 1..];
    forall p | p in procs && p != procs[k] ensures p in rest {
      var j :| 0 <= j < |procs| && procs[j] == p;
      assert rest[if j < k then j else j - 1] == p;
    }
  }

  lemma ApartWithout(procs: seq<Proc>, k: nat)
    requires Apart(procs) && k < |procs|
    ensures var rest := procs[..k] + procs[k + 1..];
      && Apart(rest) && Roots(rest) == Roots(procs) - {procs[k].root}
      && Trapframes(rest) == Trapframes(procs) - {procs[k].tf}
  {
    hide Roots, Trapframes;
    var rest := procs[..k] + procs[k + 1..];
    assert forall i :: 0 <= i < |rest| ==> rest[i] == procs[if i < k then i else i + 1];
    RootsWithout(procs, k, rest);
    TrapframesWithout(procs, k, rest);
  }

  lemma RootsWithout(procs: seq<Proc>, k: nat, rest: seq<Proc>)
    requires Apart(procs) && k < |procs| && |rest| == |procs| - 1
    requires forall i :: 0 <= i < |rest| ==> rest[i] == procs[if i < k then i else i + 1]
    ensures Roots(rest) == Roots(procs) - {procs[k].root}
  {
    hide Trapframes;
    forall j | 0 <= j < |procs| && j != k ensures procs[j].root in Roots(rest) {
      assert rest[if j < k then j else j - 1] == procs[j];
    }
  }

  lemma TrapframesWithout(procs: seq<Proc>, k: nat, rest: seq<Proc>)
    requires Apart(procs) && k < |procs| && |rest| == |procs| - 1
    requires forall i :: 0 <= i < |rest| ==> rest[i] == procs[if i < k then i else i + 1]
    ensures Trapframes(rest) == Trapframes(procs) - {procs[k].tf}
  {
    hide Roots;
    forall j | 0 <= j < |procs| && j != k ensures procs[j].tf in Trapframes(rest) {
      assert rest[if j < k then j else j - 1] == procs[j];
    }
  }

  lemma RootsMore(procs: seq<Proc>, q: Proc)
    ensures Roots(procs + [q]) == Roots(procs) + {q.root} && Trapframes(procs + [q]) == Trapframes(procs) + {q.tf}
  {
    var more := procs + [q];
    forall k | 0 <= k < |procs| ensures procs[k].root in Roots(more) && procs[k].tf in Trapframes(more) {
      assert more[k] == procs[k];
    }
    assert more[|procs|] == q;
  }

  // ---- What an operation does to memory that is not its own ----

  lemma ForkedMem(p0: Pages, r0: Roles, v0: View, p1: Pages, r1: Roles, v1: View, parent: nat, child: nat, tf: nat)
    requires Forked(p0, r0, v0, p1, r1, v1, parent, child, tf) && DataOk(p0, r0, v0) && TreeOk(p0, r0)
    ensures UserMem(p1, v1, child) == UserMem(p0, v0, parent)
    ensures forall r: nat :: r != child ==> UserMem(p1, v1, r) == UserMem(p0, v0, r)
  {
    hide UserMem, DataOk;
    forall r: nat | r != child ensures UserMem(p1, v1, r) == UserMem(p0, v0, r) {
      TakenMem(p0, r0, v0, tf, r);
    }
  }

  lemma RestoredMem(p0: Pages, r0: Roles, v0: View, p1: Pages, r1: Roles, v1: View, r: nat)
    requires Restored(p0, r0, v0, p1, r1, v1) && DataOk(p0, r0, v0)
    ensures UserMem(p1, v1, r) == UserMem(p0, v0, r)
  {
    hide UserMem, DataOk;
    MemSame(p0, r0, v0, p1, v1, r);
  }

  lemma DissolvedMem(p0: Pages, r0: Roles, v0: View, p1: Pages, r1: Roles, v1: View, root: nat, tf: nat, r: nat)
    requires Dissolved(p0, r0, v0, p1, r1, v1, root, tf) && DataOk(p0, r0, v0) && r != root
    requires tf in r0 && r0[tf] == Owned
    ensures UserMem(p1, v1, r) == UserMem(p0, v0, r)
  {
    hide UserMem, DataOk;
    MemSame(p0, r0, v0, p1, v1, r);
  }

  // ---- Runs ----

  /** What the process with page table `who` does to its memory or asks of the kernel, or what the kernel does for
      itself.  Eager is growproc with a positive argument. */
  datatype Op =
    | User(who: nat, op: AddressSpace.Op)
    | Eager(who: nat, n: nat)
    | ForkOf(who: nat)
    | ExitOf(who: nat)
    | First
    | Keep
    | GiveUp(f: nat)

  predicate Touches(op: Op) { op.User? || op.Eager? }

  /** The process asks for nothing that touches its memory. */
  predicate Idle(ops: seq<Op>, who: nat) {
    forall i :: 0 <= i < |ops| && Touches(ops[i]) ==> ops[i].who != who
  }

  /** The argument of growproc is positive here, and that of sbrk an int. */
  ghost predicate OpOk(op: Op) {
    && (op.User? ==> OkOp(op.op) && (op.op.Grow? ==> op.op.n < 0x8000_0000))
    && (op.Eager? ==> op.n > 0)
  }

  // ---- What a run takes ----

  function Growth(op: Op): nat {
    if op.User? && op.op.Grow? then op.op.n else if op.Eager? then op.n else 0
  }

  function Growths(ops: seq<Op>): nat {
    if ops == [] then 0 else Growth(ops[0]) + Growths(ops[1..])
  }

  /** Frames that one operation may take while no process is larger than `top`. */
  function Demand(op: Op, top: nat): nat {
    match op
    case User(_, o) => Cost(o)
    case Eager(_, n) => 3 * PagesOf(n)
    case ForkOf(_) => 3 * PagesOf(top) + 6
    case First => 6
    case Keep => 1
    case _ => 0
  }

  function Demands(ops: seq<Op>, top: nat): nat {
    if ops == [] then 0 else Demand(ops[0], top) + Demands(ops[1..], top)
  }

  lemma PagesAdd(a: nat, b: nat)
    ensures PagesOf(a) <= PagesOf(a + b) <= PagesOf(a) + PagesOf(b)
  {
  }

  // ---- What one process sees of a run ----

  /** What this process does to its memory. */
  function Own(ops: seq<Op>, who: nat): seq<AddressSpace.Op> {
    if ops == [] then []
    else
      var rest, op := Own(ops[..|ops| - 1], who), ops[|ops| - 1];
      if op.User? && op.who == who then rest + [op.op] else rest
  }

  /** What it sees of that. */
  function Seen(ops: seq<Op>, res: seq<Option<Obs>>, who: nat): seq<Obs>
    requires |ops| == |res|
  {
    if ops == [] then []
    else
      var rest, op, o := Seen(ops[..|ops| - 1], res[..|ops| - 1], who), ops[|ops| - 1], res[|ops| - 1];
      if op.User? && op.who == who && o.Some? then rest + [o.value] else rest
  }

  /** It does not grow through growproc. */
  predicate Lazy(ops: seq<Op>, who: nat) {
    forall i :: 0 <= i < |ops| && ops[i].Eager? ==> ops[i].who != who
  }

  /** One operation on the memory s0, as the value of the memory has it. */
  ghost predicate Stepped(s0: Space, op: AddressSpace.Op, s1: Space, o: Option<Obs>, killed: bool) {
    && Inv(s0) && OkOp(op) && o.Some? && (s1, o.value) == Step(s0, op, true)
    && (killed <==> o.value == Killed)
  }

  /** From s0 the operations lead to s1 and show what was seen, as the lazily grown value of the memory has it. */
  ghost predicate Tells(s0: Space, own: seq<AddressSpace.Op>, s1: Space, seen: seq<Obs>, killed: bool) {
    Inv(s0) && OkRun(own) && (s1, seen) == AddressSpace.Run(s0, own, true) && (killed <==> Died(seen))
  }

  lemma TellsMore(s0: Space, own: seq<AddressSpace.Op>, s: Space, seen: seq<Obs>, killed: bool, op: AddressSpace.Op,
                  s': Space, o: Option<Obs>, killed': bool)
    requires Tells(s0, own, s, seen, killed) && OkOp(op)
    requires killed ==> s' == s && o == None && killed'
    requires !killed ==> Stepped(s, op, s', o, killed')
    ensures Tells(s0, own + [op], s', if killed then seen else seen + [o.value], killed')
  {
    hide Step, AddressSpace.Run;
    RunMore(s0, own, op, true);
  }

  lemma TellsNone(s: Space)
    requires Inv(s)
    ensures Tells(s, [], s, [], false)
  {
  }

  /** One operation of the run, of this process or another. */
  lemma TellsOn(ops: seq<Op>, i: nat, res: seq<Option<Obs>>, o: Option<Obs>, who: nat, s0: Space, s: Space,
                killed: bool, s': Space, killed': bool)
    requires i < |ops| && |res| == i && OpOk(ops[i]) && Lazy(ops, who)
    requires Tells(s0, Own(ops[..i], who), s, Seen(ops[..i], res, who), killed)
    requires !(Touches(ops[i]) && ops[i].who == who) ==> s' == s && killed' == killed
    requires ops[i].User? && ops[i].who == who ==>
               && (killed ==> o == None && killed' && s' == s)
               && (!killed ==> Stepped(s, ops[i].op, s', o, killed'))
    ensures Tells(s0, Own(ops[..i + 1], who), s', Seen(ops[..i + 1], res + [o], who), killed')
  {
    hide Tells;
    assert ops[..i + 1][..i] == ops[..i] && (res + [o])[..i] == res;
    if ops[i].User? && ops[i].who == who {
      TellsMore(s0, Own(ops[..i], who), s, Seen(ops[..i], res, who), killed, ops[i].op, s', o, killed');
    }
  }

  lemma DemandMonotone(op: Op, most: nat, top: nat)
    requires most <= top
    ensures Demand(op, most) <= Demand(op, top) && (op.User? ==> Demand(op, top) == Cost(op.op))
  {
    PagesMonotone(most, top);
  }

  /** What a process sees of the kernel is what it would see had its memory been grown eagerly, if and only if its
      loads and stores are agreeable. */
  lemma TellsEager(s0: Space, own: seq<AddressSpace.Op>, s1: Space, seen: seq<Obs>, killed: bool)
    requires Tells(s0, own, s1, seen, killed)
    ensures Inv(Full(s0)) && (seen == AddressSpace.Run(Full(s0), own, false).1 <==> AgreeableRun(s0, own))
    ensures AgreeableRun(s0, own) ==> Full(s1) == AddressSpace.Run(Full(s0), own, false).0
  {
    LazyRefinesEager(s0, own);
  }

  class Machine {
    const vm: Vm
    const trampoline: nat
    var procs: seq<Proc>
    var own: set<nat>

    /** Memory is in order for every process, and every frame is accounted for. */
    ghost predicate Ok()
      reads this, vm, procs
    {
      && vm.Valid() && Apart(procs) && (forall k :: 0 <= k < |procs| ==> ProcOk(vm, procs[k]))
      && FramesOk(vm.role, Roots(procs), Trapframes(procs), own)
    }

    /** After kinit: the frames [lo, hi) are free and there is no process. */
    constructor (lo: nat, hi: nat, trampoline: nat)
      requires 0 < lo <= hi
      ensures Ok() && fresh(vm) && procs == [] && own == {} && |vm.free| == hi - lo
      ensures forall f :: f in vm.role <==> lo <= f < hi
    {
      var m := new Vm(lo, hi);
      this.vm, this.trampoline, procs, own := m, trampoline, [], {};
    }

    /** Every process of before and now has the size and the memory it had, but for one at most. */
    twostate predicate Same(but: nat)
      reads this, vm, procs
    {
      forall p :: p in procs && p in old(procs) && p.root != but ==>
        p.sz == old(p.sz) && p.killed == old(p.killed) && vm.Mem(p.root) == old(vm.Mem(p.root))
    }

    twostate lemma SettledMem(k: nat)
      requires procs == old(procs) && k < |procs|
      requires forall j :: 0 <= j < |procs| && j != k ==>
                 procs[j].sz == old(procs[j].sz) && procs[j].killed == old(procs[j].killed)
      requires OthersSame(old(vm.pages), old(vm.role), old(vm.view), vm.pages, vm.role, vm.view, procs[k].root)
      ensures Same(procs[k].root)
    {
      hide UserMem, RolesKept;
    }

    /** Process k has done something to its own tree: everything is in order. */
    twostate lemma Settled(k: nat)
      requires procs == old(procs) && own == old(own) && k < |procs|
      requires forall j :: 0 <= j < |procs| && j != k ==> procs[j].sz == old(procs[j].sz)
      requires OthersSame(old(vm.pages), old(vm.role), old(vm.view), vm.pages, vm.role, vm.view, procs[k].root)
      requires ProcOk(vm, procs[k]) && vm.Valid() && old(Ok())
      ensures Ok() && forall f :: f in vm.role <==> f in old(vm.role)
    {
      hide UserMem, ViewOk, DataOk, FreeOk, TreeOk;
      assert procs[k].root in Roots(procs);
      KeptFrames(old(vm.role), vm.role, procs[k].root, Roots(procs), Trapframes(procs), own);
      forall j | 0 <= j < |procs| ensures ProcOk(vm, procs[j]) {
        if j != k {
          var q := procs[j];
          OthersFit(old(vm.pages), old(vm.role), old(vm.view), vm.pages, vm.role, vm.view, procs[k].root, q.root, q.sz,
                    q.tf);
        }
      }
    }

    /** What process k does to its own memory; nothing if it is killed. */
    method OwnMemory(op: Op, k: nat) returns (o: Option<Obs>)
      requires Ok() && OpOk(op) && Touches(op) && k < |procs|
      modifies vm, procs
      ensures Ok() && (forall f :: f in vm.role <==> f in old(vm.role)) && Same(procs[k].root)
      ensures |vm.free| + Demand(op, 0) >= |old(vm.free)| && procs[k].sz <= old(procs[k].sz) + Growth(op)
      ensures old(procs[k].killed) ==>
                o == None && procs[k].killed && SpaceOf(vm, procs[k]) == old(SpaceOf(vm, procs[k]))
      ensures op.User? && !old(procs[k].killed) && |old(vm.free)| >= Cost(op.op) ==>
                Stepped(old(SpaceOf(vm, procs[k])), op.op, SpaceOf(vm, procs[k]), o, procs[k].killed)
      ensures op.Eager? && !old(procs[k].killed) && |old(vm.free)| >= 3 * PagesOf(op.n) ==>
                SpaceOf(vm, procs[k]) == GrowEagerly(old(SpaceOf(vm, procs[k])), op.n).0
    {
      hide FramesOk, OthersSame, ViewOk, FreeOk, DataOk, TreeOk, UserMem, Step, Cost, Roots, Trapframes;
      var p := procs[k];
      assert forall j :: 0 <= j < |procs| && j != k ==> procs[j] != p;
      o := None;
      if p.killed {
        GoodStart(vm, p);
      } else if op.User? {
        var seen := UserOp(vm, p, op.op);
        if seen == Killed { p.killed := true; }
        o := Some(seen);
      } else {
        PagesAdd(p.sz, op.n);
        var ok := GrowBy(vm, p, op.n);
      }
      Settled(k);
      SettledMem(k);
    }

    /** The last process is a new one, with the size and the memory of process k. */
    twostate predicate Joined(k: nat)
      reads this, vm, procs
    {
      && k < |old(procs)| && |procs| == |old(procs)| + 1 && procs[..|old(procs)|] == old(procs)
      && var p, q := procs[k], procs[|old(procs)|];
         fresh(q) && q.sz == p.sz && !q.killed && vm.Mem(q.root) == vm.Mem(p.root)
    }

    /** fork by process k. */
    method ForkOne(k: nat)
      requires Ok() && k < |procs|
      modifies this`procs, vm
      ensures Ok() && own == old(own) && forall f :: f in vm.role <==> f in old(vm.role)
      ensures forall p :: p in old(procs) ==> p.sz == old(p.sz) && vm.Mem(p.root) == old(vm.Mem(p.root))
      ensures procs == old(procs) || Joined(k)
      ensures |vm.free| + 3 * PagesOf(old(procs[k].sz)) + 6 >= |old(vm.free)|
      ensures |old(vm.free)| >= 3 * PagesOf(old(procs[k].sz)) + 6 ==> Joined(k)
    {
      hide FramesOk, OthersSame, ViewOk, FreeOk, DataOk, TreeOk, UserMem, Forked, ProcFits, Restored, Roots, Trapframes;
      ghost var r0 := vm.role;
      var child := Kfork(vm, procs[k], trampoline);
      if child.Some? {
        var q := child.value;
        ForkedRoles(old(vm.pages), r0, old(vm.view), vm.pages, vm.role, vm.view, procs[k].root, q.root, q.tf);
        ForkedFrames(r0, vm.role, q.root, q.tf, Roots(procs), Trapframes(procs), own);
        RootsMore(procs, q);
        forall j | 0 <= j < |procs| ensures ProcOk(vm, procs[j]) && procs[j].root != q.root && procs[j].tf != q.tf {
          assert old(ProcOk(vm, procs[j]));
          var p := procs[j];
          ForkedFits(old(vm.pages), r0, old(vm.view), vm.pages, vm.role, vm.view, procs[k].root, q.root, q.tf, p.root,
                     p.sz, p.tf);
        }
        ForkedMem(old(vm.pages), r0, old(vm.view), vm.pages, vm.role, vm.view, procs[k].root, q.root, q.tf);
        procs := procs + [q];
      } else {
        RestoredRoles(old(vm.pages), r0, old(vm.view), vm.pages, vm.role, vm.view);
        forall j | 0 <= j < |procs| ensures ProcOk(vm, procs[j]) {
          assert old(ProcOk(vm, procs[j]));
          var p := procs[j];
          RestoredFits(old(vm.pages), r0, old(vm.view), vm.pages, vm.role, vm.view, p.root, p.sz, p.tf);
        }
        forall r: nat ensures vm.Mem(r) == old(vm.Mem(r)) {
          RestoredMem(old(vm.pages), r0, old(vm.view), vm.pages, vm.role, vm.view, r);
        }
      }
    }

    /** freeproc of process k. */
    method ExitOne(k: nat)
      requires k < |procs| && Ok()
      modifies this`procs, vm
      ensures |procs| == |old(procs)| - 1 && forall p :: p in procs <==> p in old(procs) && p != old(procs)[k]
      ensures Ok() && own == old(own) && (forall f :: f in vm.role <==> f in old(vm.role))
      ensures forall p :: p in procs && p in old(procs) ==>
                p.sz == old(p.sz) && vm.Mem(p.root) == old(vm.Mem(p.root))
      ensures |vm.free| >= |old(vm.free)|
    {
      hide FramesOk, OthersSame, ViewOk, FreeOk, DataOk, UserMem, ProcFits, Dissolved, Roots, Trapframes;
      ghost var p0, r0, v0 := vm.pages, vm.role, vm.view;
      var p := procs[k];
      TrapframeIn(procs, k);
      FitsOwned(r0, v0, p.root, p.sz, p.tf);
      FreeProc(vm, p);
      DissolvedFrames(p0, r0, v0, vm.pages, vm.role, vm.view, p.root, p.tf, Roots(procs), Trapframes(procs), own);
      DissolvedDomain(p0, r0, v0, vm.pages, vm.role, vm.view, p.root, p.tf);
      FreeMore(old(vm.free), r0, vm.free, vm.role);
      ApartWithout(procs, k);
      OneLess(procs, k);
      forall j | 0 <= j < |procs| && j != k ensures ProcOk(vm, procs[j]) {
        var q := procs[j];
        assert ProcFits(r0, v0, q.root, q.sz, q.tf);
        DissolvedFits(p0, r0, v0, vm.pages, vm.role, vm.view, p.root, p.tf, q.root, q.sz, q.tf);
      }
      forall r: nat | r != p.root ensures vm.Mem(r) == old(vm.Mem(r)) {
        DissolvedMem(p0, r0, v0, vm.pages, vm.role, vm.view, p.root, p.tf, r);
      }
      procs := procs[..k] + procs[k + 1..];
    }

    /** allocproc for the first process: no user memory yet; nothing happens when there is no memory for it. */
    method FirstOne()
      requires Ok()
      modifies this`procs, vm
      ensures Ok() && own == old(own) && (forall f :: f in vm.role <==> f in old(vm.role))
      ensures forall p :: p in old(procs) ==> p.sz == old(p.sz) && vm.Mem(p.root) == old(vm.Mem(p.root))
      ensures procs == old(procs)
              || (|procs| == |old(procs)| + 1 && procs[..|old(procs)|] == old(procs)
                  && var q := procs[|old(procs)|];
                     fresh(q) && q.sz == 0 && !q.killed && vm.Mem(q.root) == map[])
      ensures |vm.free| + 6 >= |old(vm.free)| && (|old(vm.free)| >= 6 ==> |procs| == |old(procs)| + 1)
    {
      hide FramesOk, OthersSame, ViewOk, FreeOk, DataOk, TreeOk, UserMem, ProcFits, Restored, FreshTree, Roots,
          Trapframes;
      ghost var p0, r0, v0 := vm.pages, vm.role, vm.view;
      var tf, root := NewTree(vm, trampoline);
      if root == 0 {
        RestoredRoles(p0, r0, v0, vm.pages, vm.role, vm.view);
        forall j | 0 <= j < |procs| ensures ProcOk(vm, procs[j]) {
          assert old(ProcOk(vm, procs[j]));
          RestoredFits(p0, r0, v0, vm.pages, vm.role, vm.view, procs[j].root, procs[j].sz, procs[j].tf);
        }
        forall r: nat ensures vm.Mem(r) == old(vm.Mem(r)) {
          RestoredMem(p0, r0, v0, vm.pages, vm.role, vm.view, r);
        }
        return;
      }
      NewFits(p0, r0, v0, vm.pages, vm.role, vm.view, root, trampoline, tf);
      ForkedFrames(r0, vm.role, root, tf, Roots(procs), Trapframes(procs), own);
      var q := new Proc(root, 0, tf);
      RootsMore(procs, q);
      forall j | 0 <= j < |procs| ensures ProcOk(vm, procs[j]) && procs[j].root != q.root && procs[j].tf != q.tf {
        assert old(ProcOk(vm, procs[j]));
        var p := procs[j];
        NewOthersFit(p0, r0, v0, vm.pages, vm.role, vm.view, root, trampoline, tf, p.root, p.sz, p.tf);
      }
      SameDomain(p0, r0);
      forall r: nat ensures vm.Mem(r) == if r == root then map[] else old(vm.Mem(r)) {
        NewMem(p0, r0, v0, vm.pages, vm.role, vm.view, root, trampoline, tf, r);
      }
      procs := procs + [q];
    }

    /** kalloc and kfree for the kernel itself, as for a pipe. */
    method KeepOne()
      requires Ok()
      modifies this`own, vm
      ensures Ok() && (forall f :: f in vm.role <==> f in old(vm.role))
      ensures if old(vm.free) == [] then own == old(own) else own == old(own) + {old(vm.free)[0]}
      ensures |vm.free| + 1 >= |old(vm.free)|
      ensures forall r: nat :: vm.Mem(r) == old(vm.Mem(r))
    {
      hide ViewOk, DataOk, FreeOk, FramesOk, ProcFits, TableOk, UserMem;
      ghost var p0, r0, v0 := vm.pages, vm.role, vm.view;
      var f := vm.Kalloc();
      if f == 0 { return; }
      forall r: nat ensures vm.Mem(r) == old(vm.Mem(r)) { TakenMem(p0, r0, v0, f, r); }
      TakenDataOk(p0, r0, v0, f, Owned);
      OwnedMore(r0, f, Roots(procs), Trapframes(procs), own);
      own := own + {f};
      forall j | 0 <= j < |procs| ensures ProcOk(vm, procs[j]) {
        assert old(ProcOk(vm, procs[j]));
        FitsOwned(r0, v0, procs[j].root, procs[j].sz, procs[j].tf);
        MovedFits(r0, v0, f, Owned, procs[j].root, procs[j].sz, procs[j].tf);
      }
    }

    method GiveOne(f: nat)
      requires Ok() && f in own
      modifies this`own, vm
      ensures Ok() && own == old(own) - {f} && (forall g :: g in vm.role <==> g in old(vm.role))
      ensures |vm.free| >= |old(vm.free)|
      ensures forall r: nat :: vm.Mem(r) == old(vm.Mem(r))
    {
      hide ViewOk, DataOk, FreeOk, FramesOk, ProcFits, TableOk, UserMem;
      ghost var p0, r0, v0 := vm.pages, vm.role, vm.view;
      OwnedLess(r0, f, Roots(procs), Trapframes(procs), own);
      TakenDataOk(p0, r0, v0, f, Free);
      vm.Kfree(f);
      forall r: nat ensures vm.Mem(r) == old(vm.Mem(r)) { TakenMem(p0, r0, v0, f, r); }
      own := own - {f};
      forall j | 0 <= j < |procs| ensures ProcOk(vm, procs[j]) {
        assert old(ProcOk(vm, procs[j]));
        TrapframeIn(procs, j);
        MovedFits(r0, v0, f, Free, procs[j].root, procs[j].sz, procs[j].tf);
      }
    }

    /** The process with this page table, or |procs|. */
    method Find(who: nat) returns (k: nat)
      requires Ok()
      ensures k <= |procs| && (k < |procs| ==> procs[k].root == who)
      ensures forall p :: p in procs && p.root == who ==> k < |procs| && p == procs[k]
    {
      hide Vm.Valid, FramesOk, ProcFits;
      k := 0;
      while k < |procs|
        invariant 0 <= k <= |procs| && forall j :: 0 <= j < k ==> procs[j].root != who
      {
        if procs[k].root == who { return; }
        k := k + 1;
      }
    }

    /** A process that an operation made: the child of a fork, with its parent's memory as it is, or the first one, with
        none. */
    ghost predicate Born(op: Op, q: Proc)
      reads this, vm, procs, q
    {
      && !q.killed
      && match op
         case ForkOf(who) => exists p :: p in procs && p.root == who && SpaceOf(vm, q) == SpaceOf(vm, p)
         case First => SpaceOf(vm, q) == Space(0, map[])
         case _ => false
    }

    /** Who is there after an operation: an exit takes its process out and nothing else does, and who is new was born of
        it; a fork by a process that is not killed goes through if there are frames enough. */
    twostate predicate Lives(op: Op)
      reads this, vm, procs
    {
      && (forall p :: p in procs ==> p in old(procs) || (fresh(p) && Born(op, p)))
      && (forall p :: p in old(procs) ==> (p in procs <==> op != ExitOf(p.root)))
      && ((exists p :: p in old(procs) && op == ForkOf(p.root) && !old(p.killed)
             && |old(vm.free)| >= 3 * PagesOf(old(p.sz)) + 6) ==> |procs| == |old(procs)| + 1)
    }

    /** What an operation does to memory: nothing but to that of the process that asked, which becomes what its value
        says if there are frames enough. */
    twostate predicate Changes(op: Op, new o: Option<Obs>)
      reads this, vm, procs
    {
      forall p :: p in procs && p in old(procs) ==>
        && (!(Touches(op) && op.who == p.root) ==> SpaceOf(vm, p) == old(SpaceOf(vm, p)) && p.killed == old(p.killed))
        && (op.User? && op.who == p.root && old(p.killed) ==>
              o == None && p.killed && SpaceOf(vm, p) == old(SpaceOf(vm, p)))
        && (op.User? && op.who == p.root && !old(p.killed) && |old(vm.free)| >= Cost(op.op) ==>
              Stepped(old(SpaceOf(vm, p)), op.op, SpaceOf(vm, p), o, p.killed))
        && (op.Eager? && op.who == p.root && !old(p.killed) && |old(vm.free)| >= 3 * PagesOf(op.n) ==>
              SpaceOf(vm, p) == GrowEagerly(old(SpaceOf(vm, p)), op.n).0)
    }

    /** What an operation takes, if no process is larger than `most`. */
    twostate predicate Takes(op: Op, most: nat)
      reads this, vm, procs
    {
      (forall p :: p in old(procs) ==> old(p.sz) <= most) ==>
        && |vm.free| + Demand(op, most) >= |old(vm.free)|
        && forall p :: p in procs ==> p.sz <= most + Growth(op)
    }

    twostate lemma ForkLives(who: nat, new k: nat)
      requires k < |old(procs)| ==> old(procs)[k].root == who
      requires forall p :: p in old(procs) && p.root == who ==> k < |old(procs)| && p == old(procs)[k]
      requires procs == old(procs) || Joined(k)
      requires k < |old(procs)| && !old(procs[k].killed) && |old(vm.free)| >= 3 * PagesOf(old(procs[k].sz)) + 6 ==>
                 Joined(k)
      ensures Lives(ForkOf(who))
    {
      hide Machine.Ok, Vm.Mem, PagesOf;
      forall p | p in procs && p !in old(procs) ensures fresh(p) && Born(ForkOf(who), p) {
        assert p == procs[|old(procs)|];
        assert procs[k] in procs && procs[k].root == who;
      }
    }

    method ForkFor(who: nat, ghost most: nat)
      requires Ok()
      modifies this`procs, vm
      ensures Ok() && own == old(own) && (forall f :: f in vm.role <==> f in old(vm.role))
      ensures Lives(ForkOf(who)) && Changes(ForkOf(who), None) && Takes(ForkOf(who), most)
    {
      hide Machine.Ok, Vm.Mem, PagesOf, Cost, Stepped, GrowEagerly, Born, Lives;
      var k := Find(who);
      if k < |procs| && !procs[k].killed {
        if procs[k].sz <= most { PagesMonotone(procs[k].sz, most); }
        ForkOne(k);
      }
      ForkLives(who, k);
    }

    method ExitFor(who: nat, ghost most: nat)
      requires Ok()
      modifies this`procs, vm
      ensures Ok() && own == old(own) && (forall f :: f in vm.role <==> f in old(vm.role))
      ensures Lives(ExitOf(who)) && Changes(ExitOf(who), None) && Takes(ExitOf(who), most)
    {
      hide Machine.Ok, Vm.Mem, PagesOf, Born;
      var k := Find(who);
      if k < |procs| { ExitOne(k); }
    }

    method FirstFor(ghost most: nat)
      requires Ok()
      modifies this`procs, vm
      ensures Ok() && own == old(own) && (forall f :: f in vm.role <==> f in old(vm.role))
      ensures Lives(First) && Changes(First, None) && Takes(First, most)
    {
      hide Machine.Ok, Vm.Mem, PagesOf;
      FirstOne();
      if |procs| > |old(procs)| { assert Born(First, procs[|old(procs)|]); }
    }

    method TouchFor(op: Op, ghost most: nat) returns (o: Option<Obs>)
      requires Ok() && OpOk(op) && Touches(op)
      modifies vm, procs
      ensures Ok() && (forall f :: f in vm.role <==> f in old(vm.role))
      ensures Lives(op) && Changes(op, o) && Takes(op, most)
    {
      hide Machine.Ok, Vm.Mem, Cost, Stepped, PagesOf, GrowEagerly, Born;
      o := None;
      var k := Find(op.who);
      if k < |procs| { o := OwnMemory(op, k); }
    }

    /** One operation; one of a process that is not there, or is killed, and one on a frame that is not the kernel's are
        passed over. */
    method Do(op: Op, ghost most: nat) returns (o: Option<Obs>)
      requires Ok() && OpOk(op)
      modifies this`procs, this`own, vm, procs
      ensures Ok() && (forall f :: f in vm.role <==> f in old(vm.role))
      ensures Lives(op) && Changes(op, o) && Takes(op, most)
    {
      hide Machine.Ok, Vm.Mem, Cost, Stepped, PagesOf, GrowEagerly, Born;
      o := None;
      match op {
        case ForkOf(who) => ForkFor(who, most);
        case ExitOf(who) => ExitFor(who, most);
        case First => FirstFor(most);
        case Keep => KeepOne();
        case GiveUp(f) => if f in own { GiveOne(f); }
        case _ => o := TouchFor(op, most);
      }
    }

    lemma AllInv()
      requires Ok()
      ensures forall p :: p in procs ==> Inv(SpaceOf(vm, p))
    {
      forall p | p in procs ensures Inv(SpaceOf(vm, p)) {
        SpaceInv(vm, p);
      }
    }

    /** There are frames for all these operations, and no process can become larger than `top`. */
    ghost predicate Ample(ops: seq<Op>, top: nat)
      reads this, vm, procs
    {
      && |vm.free| >= Demands(ops, top) && Growths(ops) <= top
      && forall p :: p in procs ==> p.sz + Growths(ops) <= top
    }

    /** Any sequence of operations by any processes: memory is in order for all of them, the kernel has just its own
        frames and the trapframes, and every other frame is free or a page or a table of a living process.  A process
        that itself does nothing to its memory keeps its size, its pages and all their bytes.  And if there were
        frames enough to begin with, every process sees, whatever the others do, just what its own operations on its
        own memory give. */
    method Run(ops: seq<Op>, ghost top: nat) returns (res: seq<Option<Obs>>)
      requires Ok() && forall i :: 0 <= i < |ops| ==> OpOk(ops[i])
      modifies this`procs, this`own, vm, procs
      ensures Ok() && (forall f :: f in vm.role <==> f in old(vm.role)) && |res| == |ops|
      ensures forall p :: p in procs ==> p in old(procs) || fresh(p)
      ensures forall p :: p in old(procs) ==> (p in procs <==> ExitOf(p.root) !in ops)
      ensures forall p :: p in procs && p in old(procs) && Idle(ops, p.root) ==>
                SpaceOf(vm, p) == old(SpaceOf(vm, p)) && p.killed == old(p.killed)
      ensures old(Ample(ops, top)) ==>
                forall p :: p in procs && p in old(procs) && !old(p.killed) && Lazy(ops, p.root) ==>
                  Tells(old(SpaceOf(vm, p)), Own(ops, p.root), SpaceOf(vm, p), Seen(ops, res, p.root), p.killed)
    {
      hide Machine.Ok, Vm.Mem, Tells, Cost, Demand, Growth, Stepped;
      res := [];
      AllInv();
      forall p | p in procs ensures Tells(SpaceOf(vm, p), [], SpaceOf(vm, p), [], false) { TellsNone(SpaceOf(vm, p)); }
      assert ops[0..] == ops && ops[..0] == [];
      for i := 0 to |ops|
        invariant Ok() && (forall f :: f in vm.role <==> f in old(vm.role)) && |res| == i
        invariant forall p :: p in procs ==> p in old(procs) || fresh(p)
        invariant forall p :: p in old(procs) ==> (p in procs <==> ExitOf(p.root) !in ops[..i])
        invariant forall p :: p in procs && p in old(procs) && Idle(ops, p.root) ==>
                    SpaceOf(vm, p) == old(SpaceOf(vm, p)) && p.killed == old(p.killed)
        invariant old(Ample(ops, top)) ==> Ample(ops[i..], top)
        invariant old(Ample(ops, top)) ==>
                    forall p :: p in procs && p in old(procs) && !old(p.killed) && Lazy(ops, p.root) ==>
                      Tells(old(SpaceOf(vm, p)), Own(ops[..i], p.root), SpaceOf(vm, p), Seen(ops[..i], res, p.root),
                            p.killed)
      {
        assert forall k :: 0 <= k < |procs| ==> procs[k] in procs;
        ghost var most: nat := if top >= Growths(ops[i..]) then top - Growths(ops[i..]) else 0;
        assert ops[i..][1..] == ops[i + 1..];
        if most <= top { DemandMonotone(ops[i], most, top); }
        label before:
        var o := Do(ops[i], most);
        if old(Ample(ops, top)) {
          forall p | p in procs && p in old(procs) && !old(p.killed) && Lazy(ops, p.root)
            ensures Tells(old(SpaceOf(vm, p)), Own(ops[..i + 1], p.root), SpaceOf(vm, p),
                          Seen(ops[..i + 1], res + [o], p.root), p.killed)
          {
            TellsOn(ops, i, res, o, p.root, old(SpaceOf(vm, p)), old@before(SpaceOf(vm, p)), old@before(p.killed),
                    SpaceOf(vm, p), p.killed);
          }
        }
        res := res + [o];
      }
      assert ops[..|ops|] == ops;
    }

    /** freeproc of all: every frame that is not the kernel's own is free again. */
    method ExitAll()
      requires Ok()
      modifies this`procs, vm
      ensures Ok() && procs == [] && own == old(own) && (forall f :: f in vm.role <==> f in old(vm.role))
      ensures (forall f :: f in vm.role ==> vm.role[f] == if f in own then Owned else Free)
      ensures |vm.free| + |own| == |vm.role|
    {
      while |procs| > 0
        invariant Ok() && own == old(own) && (forall f :: f in vm.role <==> f in old(vm.role))
        decreases |procs|
      {
        ExitOne(|procs| - 1);
      }
      FramesFree(vm.role, vm.free, own);
    }
  }

  lemma FramesFree(role: Roles, free: seq<nat>, own: set<nat>)
    requires FramesOk(role, {}, {}, own) && FreeOk(free, role)
    ensures forall f :: f in role ==> role[f] == if f in own then Owned else Free
    ensures |free| + |own| == |role|
  {
    NoDupCard(free);
    var unused := Elements(free);
    assert role.Keys == unused + own && unused !! own;
    assert |role| == |role.Keys|;
  }

  lemma OwnedMore(role: Roles, f: nat, roots: set<nat>, tfs: set<nat>, own: set<nat>)
    requires FramesOk(role, roots, tfs, own) && f in role && role[f] == Free
    ensures FramesOk(role[f := Owned], roots, tfs, own + {f})
  {
  }

  lemma OwnedLess(role: Roles, f: nat, roots: set<nat>, tfs: set<nat>, own: set<nat>)
    requires FramesOk(role, roots, tfs, own) && f in own
    ensures f in role && role[f] == Owned && f !in tfs && FramesOk(role[f := Free], roots, tfs, own - {f})
  {
  }

  lemma MovedFits(role: Roles, view: View, f: nat, x: Role, r: nat, sz: nat, tf: nat)
    requires ProcFits(role, view, r, sz, tf) && f in role && !role[f].TableOf? && f != tf
    ensures ProcFits(role[f := x], view, r, sz, tf)
  {
  }

  lemma NewOthers(p0: Pages, r0: Roles, v0: View, p1: Pages, r1: Roles, v1: View, root: nat, trampoline: nat, tf: nat)
    requires TreeOk(p0, r0) && ViewOk(p0, r0, v0) && DataOk(p0, r0, v0) && tf in r0 && r0[tf] == Free
    requires FreshTree(p0[tf := Junk], r0[tf := Owned], v0, p1, r1, v1, root, trampoline, tf)
    ensures OthersSame(p0[tf := Junk], r0[tf := Owned], v0, p1, r1, v1, root)
    ensures root != tf && root in r0 && r0[root] == Free && IsRoot(r1, root) && TopOk(v1, root)
            && Vacant(v1, root, 0, TRAPFRAME)
  {
    assert r0[tf := Owned].Keys == r0.Keys && p0[tf := Junk].Keys == p0.Keys;
    TakenDataOk(p0, r0, v0, tf, Owned);
    FreshIsNot(p0, r0, v0, p1, r1, v1, root, trampoline, tf);
    FreshRoot(p0, r0, v0, root);
    SproutedOthers(p0[tf := Junk], r0[tf := Owned], v0, p1, r1, v1, root);
  }

  lemma NewMem(p0: Pages, r0: Roles, v0: View, p1: Pages, r1: Roles, v1: View, root: nat, trampoline: nat, tf: nat,
               r: nat)
    requires TreeOk(p0, r0) && ViewOk(p0, r0, v0) && DataOk(p0, r0, v0) && tf in r0 && r0[tf] == Free
    requires (forall g :: g in r0 <==> g in p0)
             && FreshTree(p0[tf := Junk], r0[tf := Owned], v0, p1, r1, v1, root, trampoline, tf)
    ensures UserMem(p1, v1, r) == if r == root then map[] else UserMem(p0, v0, r)
  {
    hide DataOk, TreeOk, ViewOk, FreshTree;
    NewOthers(p0, r0, v0, p1, r1, v1, root, trampoline, tf);
    TakenMem(p0, r0, v0, tf, r);
  }

  lemma NewFits(p0: Pages, r0: Roles, v0: View, p1: Pages, r1: Roles, v1: View, root: nat, trampoline: nat, tf: nat)
    requires TreeOk(p0, r0) && ViewOk(p0, r0, v0) && DataOk(p0, r0, v0) && tf in r0 && r0[tf] == Free
    requires FreshTree(p0[tf := Junk], r0[tf := Owned], v0, p1, r1, v1, root, trampoline, tf)
    ensures ProcFits(r1, v1, root, 0, tf) && RolesKept(r0[tf := Owned], r1, root) && forall f :: f in r1 <==> f in r0
  {
    NewOthers(p0, r0, v0, p1, r1, v1, root, trampoline, tf);
    assert r0[tf := Owned].Keys == r0.Keys;
  }

  lemma NewOthersFit(p0: Pages, r0: Roles, v0: View, p1: Pages, r1: Roles, v1: View, root: nat, trampoline: nat,
                     tf: nat, r: nat, sz: nat, t: nat)
    requires TreeOk(p0, r0) && ViewOk(p0, r0, v0) && DataOk(p0, r0, v0) && tf in r0 && r0[tf] == Free
    requires FreshTree(p0[tf := Junk], r0[tf := Owned], v0, p1, r1, v1, root, trampoline, tf)
             && ProcFits(r0, v0, r, sz, t)
    ensures r != root && t != tf && ProcFits(r1, v1, r, sz, t)
  {
    NewOthers(p0, r0, v0, p1, r1, v1, root, trampoline, tf);
    OthersFit(p0[tf := Junk], r0[tf := Owned], v0, p1, r1, v1, root, r, sz, t);
  }

  lemma ForkedRoles(p0: Pages, r0: Roles, v0: View, p1: Pages, r1: Roles, v1: View, parent: nat, child: nat, tf: nat)
    requires Forked(p0, r0, v0, p1, r1, v1, parent, child, tf)
    ensures tf in r0 && r0[tf] == Free && RolesKept(r0[tf := Owned], r1, child) && forall f :: f in r1 <==> f in r0
  {
    assert r0[tf := Owned].Keys == r0.Keys;
  }

  lemma RestoredRoles(p0: Pages, r0: Roles, v0: View, p1: Pages, r1: Roles, v1: View)
    requires Restored(p0, r0, v0, p1, r1, v1)
    ensures r1 == r0
  {
  }

  lemma DissolvedDomain(p0: Pages, r0: Roles, v0: View, p1: Pages, r1: Roles, v1: View, root: nat, tf: nat)
    requires Dissolved(p0, r0, v0, p1, r1, v1, root, tf)
    ensures forall f :: f in r1 <==> f in r0
    ensures forall f :: f in r0 && r0[f] == Free ==> f in r1 && r1[f] == Free
  {
  }

  lemma TrapframeIn(procs: seq<Proc>, k: nat)
    requires k < |procs|
    ensures procs[k].tf in Trapframes(procs)
  {
  }

  lemma FitsOwned(role: Roles, view: View, root: nat, sz: nat, tf: nat)
    requires ProcFits(role, view, root, sz, tf)
    ensures tf in role && role[tf] == Owned
  {
  }
}
