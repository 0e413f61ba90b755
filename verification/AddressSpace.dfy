/** What a process sees of its memory: growth by sbrk with pages supplied on faults (sys_sbrk and vmfault), and
    growth with pages supplied at once (growproc and uvmalloc), with loads, stores, copyin and copyout. */
module AddressSpace {
  import opened Std
  import opened PageTable
  import opened VirtualMemory
  import opened Process

  const LIMIT: nat := TRAPFRAME * PGSIZE

  /** p->sz and the mapped user pages. */
  datatype Space = Space(sz: nat, mem: map<nat, UserPage>)

  function ZeroPage(): UserPage { UserPage(USER_RW, Zeros()) }

  /** The mapped pages lie below the size, and the size below TRAPFRAME. */
  ghost predicate Inv(s: Space) {
    && s.sz <= LIMIT
    && forall v :: v in s.mem ==> v < PagesOf(s.sz) && |s.mem[v].data| == PGSIZE
  }

  predicate Sized(s: Space) {
    forall v :: v in s.mem ==> |s.mem[v].data| == PGSIZE
  }

  // ---- Growing and shrinking ----

  /** sys_sbrk with n > 0: only the size changes. */
  function GrowLazily(s: Space, n: nat): (r: (Space, bool)) {
    if s.sz + n > LIMIT then (s, false) else (s.(sz := s.sz + n), true)
  }

  /** growproc with n > 0 and memory to spare. */
  ghost function GrowEagerly(s: Space, n: nat): (Space, bool) {
    if s.sz + n > LIMIT then (s, false)
    else (Space(s.sz + n, s.mem + Repeat(PagesOf(s.sz), PagesOf(s.sz + n), ZeroPage())), true)
  }

  /** growproc(-n): sz - n is computed modulo 2^64, so a shrink by more than sz does nothing and succeeds. */
  function Shrink(s: Space, n: nat): Space
    requires n <= 0x8000_0000
  {
    var newsz := (U64 + s.sz - n) % U64;
    if newsz >= s.sz then s
    else Space(newsz, map v | v in s.mem && !(PagesOf(newsz) <= v < PagesOf(s.sz)) :: s.mem[v])
  }

  /** A shrink is one if and only if it asks for no more than there is. */
  lemma ShrinkSize(s: Space, n: nat)
    requires Inv(s) && n <= 0x8000_0000
    ensures n <= s.sz ==> Shrink(s, n).sz == s.sz - n
    ensures n > s.sz ==> Shrink(s, n) == s
  {
  }

  // ---- Faults ----

  /** vmfault, with memory to spare: None is its 0. */
  function Fault(s: Space, va: nat): (r: Option<Space>) {
    if va >= s.sz || va / PGSIZE in s.mem then None
    else Some(s.(mem := s.mem[va / PGSIZE := ZeroPage()]))
  }

  predicate Allows(p: UserPage, write: bool) {
    p.flags.u && if write then p.flags.w else p.flags.r
  }

  /** A user instruction that loads from or stores to va: None is a kill.  The fault branch of usertrap kills at
      address 0 and at or above sz, and otherwise asks vmfault; the instruction is then tried again. */
  function Touch(s: Space, va: nat, write: bool): (r: Option<Space>) {
    var v := va / PGSIZE;
    if v in s.mem && Allows(s.mem[v], write) then Some(s)
    else if va == 0 || va >= s.sz then None
    else Fault(s, va)
  }

  function WriteAt(s: Space, va: nat, src: seq<Byte>): Space
    requires va / PGSIZE in s.mem && va % PGSIZE + |src| <= |s.mem[va / PGSIZE].data|
  {
    var p := s.mem[va / PGSIZE];
    s.(mem := s.mem[va / PGSIZE := p.(data := Splice(p.data, va % PGSIZE, src))])
  }

  // ---- copyout and copyin ----

  /** The page that copyin and copyout use: walkaddr, else vmfault on the page address. */
  function Present(s: Space, v: nat): (r: Option<Space>)
    ensures r.Some? ==> v in r.value.mem
  {
    if v in s.mem && s.mem[v].flags.u then Some(s) else Fault(s, v * PGSIZE)
  }

  function ChunkLen(va: nat, len: nat): (n: nat)
    ensures n <= len && va % PGSIZE + n <= PGSIZE && (len > 0 ==> n > 0)
  {
    if PGSIZE - va % PGSIZE > len then len else PGSIZE - va % PGSIZE
  }

  /** copyout: page by page; what was copied before a failure stays. */
  function CopyOut(s: Space, dst: nat, src: seq<Byte>): (r: (Space, bool))
    requires Sized(s)
    decreases |src|
  {
    if src == [] then (s, true)
    else if dst / PGSIZE >= NPAGES then (s, false)
    else
      var v := dst / PGSIZE;
      match Present(s, v)
      case None => (s, false)
      case Some(s1) =>
        if !s1.mem[v].flags.w then (s1, false)
        else
          var n := ChunkLen(dst, |src|);
          CopyOut(WriteAt(s1, dst, src[..n]), (v + 1) * PGSIZE, src[n..])
  }

  /** copyin: the bytes read, and whether all were. */
  function CopyIn(s: Space, src: nat, len: nat): (r: (Space, seq<Byte>, bool))
    requires Sized(s)
    decreases len
  {
    if len == 0 then (s, [], true)
    else
      var v := src / PGSIZE;
      match Present(s, v)
      case None => (s, [], false)
      case Some(s1) =>
        var n := ChunkLen(src, len);
        var rest := CopyIn(s1, (v + 1) * PGSIZE, len - n);
        (rest.0, s1.mem[v].data[src % PGSIZE..src % PGSIZE + n] + rest.1, rest.2)
  }

  // ---- Runs ----

  datatype Op =
    | Grow(n: nat)
    | ShrinkBy(n: nat)
    | Load(va: nat)
    | Store(va: nat, b: Byte)
    | Out(dst: nat, src: seq<Byte>)
    | In(from: nat, len: nat)

  /** What the process or the kernel observes of an operation. */
  datatype Obs = Done(ok: bool) | Value(b: Byte) | Data(bytes: seq<Byte>, ok: bool) | Killed

  ghost predicate OkOp(op: Op) {
    op.ShrinkBy? ==> op.n <= 0x8000_0000
  }

  /** One operation; only Grow differs between the two ways of growing. */
  ghost function Step(s: Space, op: Op, lazily: bool): (Space, Obs)
    requires Inv(s) && OkOp(op)
  {
    match op
    case Grow(n) => var r := if lazily then GrowLazily(s, n) else GrowEagerly(s, n); (r.0, Done(r.1))
    case ShrinkBy(n) => (Shrink(s, n), Done(true))
    case Load(va) =>
      (match Touch(s, va, false)
       case None => (s, Killed)
       case Some(s1) => (s1, Value(s1.mem[va / PGSIZE].data[va % PGSIZE])))
    case Store(va, b) =>
      (match Touch(s, va, true)
       case None => (s, Killed)
       case Some(s1) => (WriteAt(s1, va, [b]), Done(true)))
    case Out(dst, src) => var r := CopyOut(s, dst, src); (r.0, Done(r.1))
    case In(from, len) => var r := CopyIn(s, from, len); (r.0, Data(r.1, r.2))
  }

  /** The lazily grown space with every page below its size present. */
  ghost function Full(s: Space): Space {
    Space(s.sz, Repeat(0, PagesOf(s.sz), ZeroPage()) + s.mem)
  }

  // ---- Lazy growth refines eager growth ----

  lemma FullAt(s: Space, v: nat)
    ensures v in Full(s).mem <==> v < PagesOf(s.sz) || v in s.mem
    ensures v in Full(s).mem ==> Full(s).mem[v] == if v in s.mem then s.mem[v] else ZeroPage()
  {
  }

  lemma FullInv(s: Space)
    requires Inv(s)
    ensures Inv(Full(s))
  {
    forall v | v in Full(s).mem ensures v < PagesOf(s.sz) && |Full(s).mem[v].data| == PGSIZE {
      FullAt(s, v);
    }
  }

  /** Page v begins below the size exactly when it is one of the pages of that size. */
  lemma PageBelow(v: nat, sz: nat)
    ensures v * PGSIZE < sz <==> v < PagesOf(sz)
  {
  }

  lemma SameSpace(a: Space, b: Space)
    requires a.sz == b.sz && (forall v: nat :: v in a.mem <==> v in b.mem)
             && (forall v: nat :: v in a.mem ==> a.mem[v] == b.mem[v])
    ensures a == b
  {
    assert a.mem == b.mem;
  }

  lemma GrowAgrees(s: Space, n: nat)
    requires Inv(s)
    ensures Full(GrowLazily(s, n).0) == GrowEagerly(Full(s), n).0
    ensures GrowLazily(s, n).1 == GrowEagerly(Full(s), n).1
  {
    if s.sz + n <= LIMIT {
      var a, b := Full(GrowLazily(s, n).0), GrowEagerly(Full(s), n).0;
      assert PagesOf(s.sz) <= PagesOf(s.sz + n);
      SameSpace(a, b);
    }
  }

  lemma ShrinkAgrees(s: Space, n: nat)
    requires Inv(s) && n <= 0x8000_0000
    ensures Full(Shrink(s, n)) == Shrink(Full(s), n)
  {
    var a, b := Full(Shrink(s, n)), Shrink(Full(s), n);
    if n <= s.sz {
      assert (U64 + s.sz - n) % U64 == s.sz - n;
      assert PagesOf(s.sz - n) <= PagesOf(s.sz);
    } else {
      assert (U64 + s.sz - n) % U64 == U64 + s.sz - n;
    }
    SameSpace(a, b);
  }

  lemma PresentAgrees(s: Space, v: nat)
    requires Inv(s)
    ensures Present(s, v).Some? <==> Present(Full(s), v).Some?
    ensures Present(s, v).Some? ==>
              var s1 := Present(s, v).value;
              Inv(s1) && Full(s1) == Full(s) == Present(Full(s), v).value && v in s1.mem && s1.mem[v] == Full(s).mem[v]
                  && s1.mem[v].flags.u
  {
    FullAt(s, v);
    PageBelow(v, s.sz);
    assert v * PGSIZE / PGSIZE == v;
    if v !in s.mem && v * PGSIZE < s.sz {
      var s1 := s.(mem := s.mem[v := ZeroPage()]);
      SameSpace(Full(s1), Full(s));
    }
  }

  lemma WriteAgrees(s: Space, va: nat, src: seq<Byte>)
    requires Inv(s) && va / PGSIZE in s.mem && va % PGSIZE + |src| <= PGSIZE
    ensures va / PGSIZE in Full(s).mem && Full(s).mem[va / PGSIZE] == s.mem[va / PGSIZE]
    ensures Inv(WriteAt(s, va, src)) && Full(WriteAt(s, va, src)) == WriteAt(Full(s), va, src)
  {
    FullAt(s, va / PGSIZE);
    SameSpace(Full(WriteAt(s, va, src)), WriteAt(Full(s), va, src));
  }

  /** The page with the bytes for it written, as one round of copyout leaves the space. */
  function OutPage(s: Space, dst: nat, src: seq<Byte>): Option<Space>
    requires Sized(s) && dst % PGSIZE + |src| <= PGSIZE
  {
    match Present(s, dst / PGSIZE)
    case None => None
    case Some(s1) => if !s1.mem[dst / PGSIZE].flags.w then None else Some(WriteAt(s1, dst, src))
  }

  lemma OutPageAgrees(s: Space, dst: nat, src: seq<Byte>)
    requires Inv(s) && dst % PGSIZE + |src| <= PGSIZE && Inv(Full(s))
    ensures OutPage(s, dst, src).Some? <==> OutPage(Full(s), dst, src).Some?
    ensures OutPage(s, dst, src).Some? ==>
              Inv(OutPage(s, dst, src).value) && Full(OutPage(s, dst, src).value) == OutPage(Full(s), dst, src).value
  {
    PresentAgrees(s, dst / PGSIZE);
    if OutPage(s, dst, src).Some? {
      WriteAgrees(Present(s, dst / PGSIZE).value, dst, src);
    }
  }

  lemma {:induction false} CopyOutAgrees(s: Space, dst: nat, src: seq<Byte>)
    requires Inv(s)
    ensures Inv(CopyOut(s, dst, src).0) && Inv(Full(s))
    ensures Full(CopyOut(s, dst, src).0) == CopyOut(Full(s), dst, src).0
    ensures CopyOut(s, dst, src).1 == CopyOut(Full(s), dst, src).1
    decreases |src|
  {
    FullInv(s);
    if src != [] && dst / PGSIZE < NPAGES {
      var n := ChunkLen(dst, |src|);
      PresentAgrees(s, dst / PGSIZE);
      OutPageAgrees(s, dst, src[..n]);
      if OutPage(s, dst, src[..n]).Some? {
        CopyOutAgrees(OutPage(s, dst, src[..n]).value, (dst / PGSIZE + 1) * PGSIZE, src[n..]);
      }
    }
  }

  lemma {:induction false} CopyInAgrees(s: Space, src: nat, len: nat)
    requires Inv(s)
    ensures Inv(CopyIn(s, src, len).0) && Inv(Full(s))
    ensures Full(CopyIn(s, src, len).0) == CopyIn(Full(s), src, len).0
    ensures CopyIn(s, src, len).1 == CopyIn(Full(s), src, len).1 && CopyIn(s, src, len).2 == CopyIn(Full(s), src, len).2
    decreases len
  {
    hide Inv, Full, Present;
    FullInv(s);
    if len > 0 {
      PresentAgrees(s, src / PGSIZE);
      if Present(s, src / PGSIZE).Some? {
        CopyInAgrees(Present(s, src / PGSIZE).value, (src / PGSIZE + 1) * PGSIZE, len - ChunkLen(src, len));
      }
    }
  }

  // ---- A copy in two parts ----

  lemma CopyNone(s: Space, va: nat)
    requires Sized(s)
    ensures CopyOut(s, va, []) == (s, true) && CopyIn(s, va, 0) == (s, [], true)
  {
  }

  /** The first page of a copyout, and the rest. */
  lemma OutFirst(s: Space, dst: nat, src: seq<Byte>)
    requires Inv(s) && Sized(s) && src != []
    ensures var n := ChunkLen(dst, |src|);
      && (CopyOut(s, dst, src).1 ==> dst / PGSIZE < NPAGES && OutPage(s, dst, src[..n]).Some?)
      && (dst / PGSIZE < NPAGES && OutPage(s, dst, src[..n]).Some? ==>
            Inv(OutPage(s, dst, src[..n]).value) && Sized(OutPage(s, dst, src[..n]).value)
            && CopyOut(s, dst, src) == CopyOut(OutPage(s, dst, src[..n]).value, (dst / PGSIZE + 1) * PGSIZE, src[n..]))
  {
    FullInv(s);
    OutPageAgrees(s, dst, src[..ChunkLen(dst, |src|)]);
  }

  /** Up to a page boundary and on from there is the whole copy. */
  lemma {:induction false} CopyOutSplit(s: Space, dst: nat, a: seq<Byte>, b: seq<Byte>)
    requires Inv(s) && Sized(s) && (a == [] || (dst + |a|) % PGSIZE == 0) && CopyOut(s, dst, a).1
    ensures Inv(CopyOut(s, dst, a).0) && Sized(CopyOut(s, dst, a).0)
    ensures CopyOut(s, dst, a + b) == CopyOut(CopyOut(s, dst, a).0, dst + |a|, b)
    decreases |a|
  {
    hide Inv, Sized, OutPage, ChunkLen, CopyOut;
    if a == [] {
      CopyNone(s, dst);
      assert a + b == b;
    } else {
      var n := ChunkLen(dst, |a|);
      ToBoundary(dst, |a|, |b|);
      assert (a + b)[..n] == a[..n] && (a + b)[n..] == a[n..] + b;
      OutFirst(s, dst, a);
      OutFirst(s, dst, a + b);
      CopyOutSplit(OutPage(s, dst, a[..n]).value, dst + n, a[n..], b);
    }
  }

  /** The first chunk of bytes that end at a page boundary reaches the first boundary. */
  lemma ToBoundary(dst: nat, len: nat, more: nat)
    requires len > 0 && (dst + len) % PGSIZE == 0
    ensures var n := ChunkLen(dst, len);
      n == ChunkLen(dst, len + more) && (dst / PGSIZE + 1) * PGSIZE == dst + n
          && (len == n || (dst + n + (len - n)) % PGSIZE == 0)
  {
    var q := (dst + len) / PGSIZE;
    assert dst + len == q * PGSIZE;
    assert dst == dst / PGSIZE * PGSIZE + dst % PGSIZE;
    assert q > dst / PGSIZE;
  }

  /** The first page of a copyin, and the rest. */
  lemma InFirst(s: Space, src: nat, len: nat)
    requires Inv(s) && Sized(s) && len > 0
    ensures CopyIn(s, src, len).2 ==> Present(s, src / PGSIZE).Some?
    ensures Present(s, src / PGSIZE).Some? ==>
      var s1, n := Present(s, src / PGSIZE).value, ChunkLen(src, len);
      && Inv(s1) && Sized(s1)
      && var t := CopyIn(s1, (src / PGSIZE + 1) * PGSIZE, len - n);
         CopyIn(s, src, len) == (t.0, s1.mem[src / PGSIZE].data[src % PGSIZE..src % PGSIZE + n] + t.1, t.2)
  {
    PresentAgrees(s, src / PGSIZE);
  }

  lemma {:induction false} CopyInSplit(s: Space, src: nat, a: nat, b: nat)
    requires Inv(s) && Sized(s) && (a == 0 || (src + a) % PGSIZE == 0) && CopyIn(s, src, a).2
    ensures Inv(CopyIn(s, src, a).0) && Sized(CopyIn(s, src, a).0)
    ensures var r, t := CopyIn(s, src, a), CopyIn(CopyIn(s, src, a).0, src + a, b);
      CopyIn(s, src, a + b) == (t.0, r.1 + t.1, t.2)
    decreases a
  {
    hide Inv, Sized, Present, ChunkLen, CopyIn;
    if a == 0 {
      CopyNone(s, src);
      var t := CopyIn(s, src, b);
      assert [] + t.1 == t.1;
    } else {
      var n, v := ChunkLen(src, a), src / PGSIZE;
      ToBoundary(src, a, b);
      InFirst(s, src, a);
      InFirst(s, src, a + b);
      var s1 := Present(s, v).value;
      CopyInSplit(s1, src + n, a - n, b);
      var bytes := s1.mem[v].data[src % PGSIZE..src % PGSIZE + n];
      var r := CopyIn(s1, src + n, a - n);
      var t := CopyIn(r.0, src + a, b);
      assert bytes + (r.1 + t.1) == (bytes + r.1) + t.1;
    }
  }

  /** The accesses on which the two ways of growing agree: the page is mapped, or lies above the size, or the
      address is neither 0 nor in the tail of the last page, at or above sz. */
  predicate Agreeable(s: Space, va: nat) {
    var v := va / PGSIZE;
    v in s.mem || v >= PagesOf(s.sz) || (va != 0 && va < s.sz)
  }

  /** They agree on an access if and only if it is one of these.  Elsewhere the eagerly grown process goes on
      and the lazily grown one is killed. */
  lemma TouchAgrees(s: Space, va: nat, write: bool)
    requires Inv(s)
    ensures Touch(s, va, write).Some? == Touch(Full(s), va, write).Some? <==> Agreeable(s, va)
    ensures !Agreeable(s, va) ==> Touch(s, va, write).None? && Touch(Full(s), va, write) == Some(Full(s))
    ensures Touch(s, va, write).Some? ==>
              var s1 := Touch(s, va, write).value;
              Inv(s1) && Full(s1) == Full(s) == Touch(Full(s), va, write).value && va / PGSIZE in s1.mem
                  && s1.mem[va / PGSIZE] == Full(s).mem[va / PGSIZE]
  {
    var v := va / PGSIZE;
    FullAt(s, v);
    PageBelow(v, s.sz);
    if Touch(s, va, write).Some? && v !in s.mem {
      var s1 := s.(mem := s.mem[v := ZeroPage()]);
      SameSpace(Full(s1), Full(s));
    }
  }

  ghost predicate AgreeableOp(s: Space, op: Op) {
    (op.Load? ==> Agreeable(s, op.va)) && (op.Store? ==> Agreeable(s, op.va))
  }

  /** One operation: same observation, and the eager space is again the full lazy one. */
  lemma StepAgrees(s: Space, op: Op)
    requires Inv(s) && OkOp(op) && AgreeableOp(s, op)
    ensures Inv(Step(s, op, true).0) && Inv(Full(s))
    ensures Full(Step(s, op, true).0) == Step(Full(s), op, false).0
    ensures Step(s, op, true).1 == Step(Full(s), op, false).1
  {
    FullInv(s);
    match op
    case Grow(n) => GrowAgrees(s, n);
    case ShrinkBy(n) => ShrinkAgrees(s, n);
    case Load(va) => TouchAgrees(s, va, false);
    case Store(va, b) =>
      TouchAgrees(s, va, true);
      if Touch(s, va, true).Some? { WriteAgrees(Touch(s, va, true).value, va, [b]); }
    case Out(dst, src) => CopyOutAgrees(s, dst, src);
    case In(from, len) => CopyInAgrees(s, from, len);
  }

  lemma StepInv(s: Space, op: Op, lazily: bool)
    requires Inv(s) && OkOp(op)
    ensures Inv(Step(s, op, lazily).0)
  {
    match op
    case Grow(n) =>
      if s.sz + n <= LIMIT { assert PagesOf(s.sz) <= PagesOf(s.sz + n); }
    case ShrinkBy(n) => ShrinkAgrees(s, n);
    case Load(va) => TouchAgrees(s, va, false);
    case Store(va, b) =>
      TouchAgrees(s, va, true);
      if Touch(s, va, true).Some? { WriteAgrees(Touch(s, va, true).value, va, [b]); }
    case Out(dst, src) => CopyOutAgrees(s, dst, src);
    case In(from, len) => CopyInAgrees(s, from, len);
  }

  ghost predicate OkRun(ops: seq<Op>) {
    forall i :: 0 <= i < |ops| ==> OkOp(ops[i])
  }

  /** A run up to its end or the first kill: the space it leaves and what was observed. */
  ghost function Run(s: Space, ops: seq<Op>, lazily: bool): (Space, seq<Obs>)
    requires Inv(s) && OkRun(ops)
    decreases |ops|
  {
    if ops == [] then (s, [])
    else
      var (s1, o) := Step(s, ops[0], lazily);
      if o == Killed then (s1, [o])
      else
        StepInv(s, ops[0], lazily);
        var (t, rest) := Run(s1, ops[1..], lazily);
        (t, [o] + rest)
  }

  predicate Died(seen: seq<Obs>) {
    seen != [] && seen[|seen| - 1] == Killed
  }

  /** One more operation: a process that was killed does nothing more. */
  lemma {:induction false} RunMore(s: Space, ops: seq<Op>, op: Op, lazily: bool)
    requires Inv(s) && OkRun(ops) && OkOp(op)
    ensures OkRun(ops + [op]) && Inv(Run(s, ops, lazily).0)
    ensures var t, seen := Run(s, ops, lazily).0, Run(s, ops, lazily).1;
      Run(s, ops + [op], lazily) ==
      if Died(seen) then (t, seen) else (Step(t, op, lazily).0, seen + [Step(t, op, lazily).1])
    decreases |ops|
  {
    hide Step;
    assert forall i :: 0 <= i < |ops + [op]| ==> (ops + [op])[i] == if i < |ops| then ops[i] else op;
    if ops == [] {
      assert ops + [op] == [op] && [op][1..] == [];
      StepInv(s, op, lazily);
      var s1, o := Step(s, op, lazily).0, Step(s, op, lazily).1;
      assert Run(s1, [], lazily) == (s1, []) && [o] + [] == [o] == [] + [o];
    } else {
      StepInv(s, ops[0], lazily);
      assert (ops + [op])[1..] == ops[1..] + [op];
      var s1, o := Step(s, ops[0], lazily).0, Step(s, ops[0], lazily).1;
      if o != Killed {
        RunMore(s1, ops[1..], op, lazily);
        var seen := Run(s1, ops[1..], lazily).1;
        assert Died([o] + seen) == Died(seen);
        assert forall x: Obs :: [o] + (seen + [x]) == ([o] + seen) + [x];
      }
    }
  }

  /** Every access that the lazily grown process makes in the run is one on which the two agree. */
  ghost predicate AgreeableRun(s: Space, ops: seq<Op>)
    requires Inv(s) && OkRun(ops)
    decreases |ops|
  {
    ops == [] ||
    (&& AgreeableOp(s, ops[0])
     && var (s1, o) := Step(s, ops[0], true);
        o == Killed || (StepInv(s, ops[0], true); AgreeableRun(s1, ops[1..])))
  }

  lemma DisagreeableDiffers(s: Space, op: Op)
    requires Inv(s) && OkOp(op) && !AgreeableOp(s, op)
    ensures Inv(Full(s)) && Step(s, op, true).1 != Step(Full(s), op, false).1
  {
    FullInv(s);
    TouchAgrees(s, op.va, op.Store?);
  }

  /** Over every run, a process grown lazily observes what one grown eagerly does if and only if the run is of this
      kind, and then the eager space at the end is the lazy one with its missing pages zero. */
  lemma {:induction false} LazyRefinesEager(s: Space, ops: seq<Op>)
    requires Inv(s) && OkRun(ops)
    ensures Inv(Full(s))
    ensures Run(s, ops, true).1 == Run(Full(s), ops, false).1 <==> AgreeableRun(s, ops)
    ensures AgreeableRun(s, ops) ==> Full(Run(s, ops, true).0) == Run(Full(s), ops, false).0
    decreases |ops|
  {
    FullInv(s);
    if ops != [] {
      if !AgreeableOp(s, ops[0]) {
        DisagreeableDiffers(s, ops[0]);
        assert Run(s, ops, true).1[0] != Run(Full(s), ops, false).1[0];
      } else {
        StepAgrees(s, ops[0]);
        var s1, o := Step(s, ops[0], true).0, Step(s, ops[0], true).1;
        if o != Killed {
          LazyRefinesEager(s1, ops[1..]);
          var a, b := Run(s1, ops[1..], true).1, Run(Full(s1), ops[1..], false).1;
          assert ([o] + a)[1..] == a && ([o] + b)[1..] == b;
        }
      }
    }
  }

  /** The tail of the last page tells the two apart: size 100, no page yet, a load at 200. */
  lemma TailDiffers()
    ensures var s := Space(100, map[]);
            Inv(s) && Inv(Full(s)) && OkRun([Load(200)])
                && Run(s, [Load(200)], true).1 != Run(Full(s), [Load(200)], false).1
  {
    var s, ops := Space(100, map[]), [Load(200)];
    assert ops[0] == Load(200) && PagesOf(100) == 1 && 200 / PGSIZE == 0;
    LazyRefinesEager(s, ops);
  }
}
