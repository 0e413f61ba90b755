/** What the kernel does to the memory of a process, step by step on the page tables: vmfault, copyout, copyin and
    uvmcopy (kernel/vm.c), growproc (kernel/proc.c) and sbrk (kernel/sysproc.c), each against AddressSpace. */
module UserMemory {
  import opened Std
  import opened PageTable
  import opened VirtualMemory
  import opened Process
  import opened AddressSpace

  /** The fields of struct proc that concern memory: page table, size and trapframe, and whether it is killed. */
  class Proc {
    const root: nat
    const tf: nat
    var sz: nat
    var killed: bool

    constructor (root: nat, sz: nat, tf: nat)
      ensures this.root == root && this.sz == sz && this.tf == tf && !killed
    {
      this.root, this.sz, this.tf, this.killed := root, sz, tf, false;
    }
  }

  /** The size is at most TRAPFRAME, no page is mapped between the two, and none from TRAPFRAME on is for the user; the
      trapframe is a frame of the kernel's. */
  ghost predicate ProcOk(vm: Vm, p: Proc)
    reads vm, p
  {
    ProcFits(vm.role, vm.view, p.root, p.sz, p.tf)
  }

  ghost predicate ProcFits(role: Roles, view: View, root: nat, sz: nat, tf: nat) {
    && IsRoot(role, root) && sz <= LIMIT && Vacant(view, root, PagesOf(sz), TRAPFRAME) && TopOk(view, root)
    && tf in role && role[tf] == Owned
  }

  /** What one process does leaves every other in order. */
  lemma OthersFit(pages: Pages, role: Roles, view: View, pages': Pages, role': Roles, view': View, root: nat, r: nat,
                  sz: nat, tf: nat)
    requires OthersSame(pages, role, view, pages', role', view', root) && ProcFits(role, view, r, sz, tf) && r != root
    ensures ProcFits(role', view', r, sz, tf)
  {
  }

  ghost predicate TopOk(view: View, root: nat) {
    forall s :: s in view && s.root == root && s.vpn >= TRAPFRAME ==> !view[s].flags.u
  }

  ghost function SpaceOf(vm: Vm, p: Proc): Space
    reads vm, p
  {
    Space(p.sz, vm.Mem(p.root))
  }

  /** Nothing has happened to the memory of other processes, nor to the frames the kernel keeps for itself; and no frame
      was lost: those that changed hands went from the free list to this tree or back. */
  ghost predicate OthersSame(pages: Pages, role: Roles, view: View, pages': Pages, role': Roles, view': View,
                             root: nat) {
    && (forall r: nat :: r != root ==> UserMem(pages', view', r) == UserMem(pages, view, r))
    && (forall s: Slot :: s.root != root ==> (s in view' <==> s in view))
    && (forall s: Slot :: s.root != root && s in view ==> s in view' && view'[s] == view[s])
    && (forall r :: IsRoot(role, r) ==> IsRoot(role', r))
    && RolesKept(role, role', root)
    && (forall f :: f in role && role[f] == Owned && f in pages ==> f in pages' && pages'[f] == pages[f])
  }

  lemma MappedIsMem(pages: Pages, role: Roles, view: View, root: nat, v: nat)
    requires DataOk(pages, role, view) && v < TRAPFRAME
    ensures Slot(root, v) in view <==> v in UserMem(pages, view, root)
    ensures Slot(root, v) in view ==>
              var e := view[Slot(root, v)];
              e.frame in pages && pages[e.frame] == Bytes(UserMem(pages, view, root)[v].data)
                  && UserMem(pages, view, root)[v].flags == e.flags
              && e.frame in role && role[e.frame] == DataOf(root, v) && |pages[e.frame].data| == PGSIZE
  {
    var s := Slot(root, v);
    if s in view { assert DataFrameOk(pages, role, view, view[s].frame); }
  }

  lemma SpaceInv(vm: Vm, p: Proc)
    requires vm.Valid() && ProcOk(vm, p)
    ensures Inv(SpaceOf(vm, p))
  {
    var m := vm.Mem(p.root);
    forall v | v in m ensures v < PagesOf(p.sz) && |m[v].data| == PGSIZE {
      MappedIsMem(vm.pages, vm.role, vm.view, p.root, v);
      assert Slot(p.root, v) in vm.view;
    }
  }

  lemma FilledOthers(pages: Pages, role: Roles, view: View, pages': Pages, role': Roles, view': View, root: nat,
                     c: map<nat, UserPage>)
    requires Filled(pages, role, view, pages', role', view', root, c) && DataOk(pages, role, view)
    requires forall v :: v in c ==> v < TRAPFRAME && Slot(root, v) !in view
    requires forall g :: g in role <==> g in pages
    ensures OthersSame(pages, role, view, pages', role', view', root)
    ensures UserMem(pages', view', root) == UserMem(pages, view, root) + c
  {
    forall r: nat
      ensures r != root ==> UserMem(pages', view', r) == UserMem(pages, view, r)
      ensures r == root ==> UserMem(pages', view', r) == UserMem(pages, view, r) + c
    {
      FilledMem(pages, role, view, pages', role', view', root, c, r);
    }
    hide UserMem, DataOk, Backs;
  }

  /** Growing only tables is giving no page at all. */
  lemma GrewOthers(pages: Pages, role: Roles, view: View, pages': Pages, role': Roles, view': View, root: nat)
    requires TablesGrew(pages, role, pages', role', root) && SameView(view, view') && DataOk(pages, role, view)
    requires forall g :: g in role <==> g in pages
    ensures OthersSame(pages, role, view, pages', role', view', root)
    ensures UserMem(pages', view', root) == UserMem(pages, view, root)
  {
    assert Filled(pages, role, view, pages', role', view', root, map[]);
    FilledOthers(pages, role, view, pages', role', view', root, map[]);
  }

  lemma ReleasedOthers(pages: Pages, role: Roles, view: View, pages': Pages, role': Roles, view': View, root: nat,
                       vpn: nat, n: nat)
    requires DataOk(pages, role, view) && Released(pages, role, pages', role', root, vpn, n)
             && Unmapped(view, view', root, vpn, n)
    requires forall f :: f in role <==> f in pages
    ensures OthersSame(pages, role, view, pages', role', view', root)
    ensures forall v: nat :: v in UserMem(pages', view', root)
                             <==> v in UserMem(pages, view, root) && !(vpn <= v < vpn + n)
    ensures forall v: nat :: v in UserMem(pages', view', root) ==>
              UserMem(pages', view', root)[v] == UserMem(pages, view, root)[v]
  {
    forall r: nat ensures r != root ==> UserMem(pages', view', r) == UserMem(pages, view, r) {
      if r != root {
        ReleasedUserMem(pages, role, view, pages', role', view', root, vpn, n, r);
        MapsEqual(UserMem(pages', view', r), UserMem(pages, view, r), map[]);
      }
    }
    ReleasedUserMem(pages, role, view, pages', role', view', root, vpn, n, root);
  }

  /** walk without allocation, and the entry it points to. */
  method LookUp(vm: Vm, root: nat, vpn: nat) returns (e: Pte)
    requires vm.TreesOk() && IsRoot(vm.role, root) && vpn < NPAGES
    modifies vm`pages, vm`free, vm`role
    ensures vm.TreesOk() && vm.pages == old(vm.pages) && vm.free == old(vm.free) && vm.role == old(vm.role)
    ensures e.valid <==> Slot(root, vpn) in vm.view
    ensures e.valid ==> e == vm.view[Slot(root, vpn)]
  {
    var t := vm.Walk(root, vpn, false);
    if t.Some? {
      e := vm.ReadPte(root, vpn, t.value);
    } else {
      assert Leaf(vm.pages, root, vpn) == NOPTE;
      assert Slot(root, vpn) in vm.view ==> SlotOk(vm.pages, vm.role, vm.view, Slot(root, vpn));
      e := NOPTE;
    }
  }

  // ---- uvmcopy ----

  /** c holds the pages of m below i. */
  ghost predicate PagesBelow(m: map<nat, UserPage>, i: nat, c: map<nat, UserPage>) {
    (forall v: nat :: v in c <==> v in m && v < i) && (forall v: nat :: v in c ==> c[v] == m[v])
  }

  /** A loop that has given pages to tree dst has left those of tree src as they were. */
  lemma SourceSame(pages: Pages, role: Roles, view: View, pages': Pages, role': Roles, view': View, dst: nat,
                   c: map<nat, UserPage>, src: nat, v: nat)
    requires Filled(pages, role, view, pages', role', view', dst, c) && DataOk(pages, role, view) && src != dst
             && v < TRAPFRAME
    requires forall g :: g in role <==> g in pages
    ensures Slot(src, v) in view' <==> v in UserMem(pages, view, src)
    ensures v in UserMem(pages, view, src) ==>
              var e := view'[Slot(src, v)];
              e.frame in pages' && pages'[e.frame] == Bytes(UserMem(pages, view, src)[v].data)
                  && e.flags == UserMem(pages, view, src)[v].flags
              && |pages'[e.frame].data| == PGSIZE
  {
    MappedIsMem(pages, role, view, src, v);
  }

  lemma PagesBelowMore(m: map<nat, UserPage>, i: nat, c: map<nat, UserPage>)
    requires PagesBelow(m, i, c)
    ensures i in m ==> PagesBelow(m, i + 1, c[i := m[i]])
    ensures i !in m ==> PagesBelow(m, i + 1, c)
  {
  }

  /** A round of uvmcopy, counted from the state (p0, r0, v0) in which it began. */
  method CopyNext(vm: Vm, src: nat, dst: nat, i: nat, ghost p0: Pages, ghost r0: Roles, ghost v0: View,
                  ghost c: map<nat, UserPage>)
    returns (ok: bool, ghost c2: map<nat, UserPage>)
    requires vm.Valid() && IsRoot(vm.role, src) && IsRoot(vm.role, dst) && src != dst && i < TRAPFRAME
             && DataOk(p0, r0, v0)
    requires forall g :: g in r0 <==> g in p0
    requires Filled(p0, r0, v0, vm.pages, vm.role, vm.view, dst, c) && Vacant(v0, dst, 0, TRAPFRAME) && IsRoot(r0, src)
    requires PagesBelow(UserMem(p0, v0, src), i, c)
    modifies vm
    ensures vm.Valid() && IsRoot(vm.role, dst) && IsRoot(vm.role, src)
    ensures ok ==> Filled(p0, r0, v0, vm.pages, vm.role, vm.view, dst, c2)
                   && PagesBelow(UserMem(p0, v0, src), i + 1, c2)
    ensures !ok ==> TablesGrew(p0, r0, vm.pages, vm.role, dst) && SameView(v0, vm.view) && |old(vm.free)| < 3
    ensures ok ==> |vm.free| >= |old(vm.free)| - 3
  {
    var e := LookUp(vm, src, i);
    SourceSame(p0, r0, v0, vm.pages, vm.role, vm.view, dst, c, src, i);
    PagesBelowMore(UserMem(p0, v0, src), i, c);
    if !e.valid { return true, c; }
    assert forall v :: v in c ==> 0 <= v < i;
    ok, c2 := AddOrUndo(vm, dst, 0, i, UserPage(e.flags, vm.pages[e.frame].data), p0, r0, v0, c);
  }

  /** uvmcopy: all pages of tree src below sz on frames of their own, or none. */
  method UvmCopy(vm: Vm, src: nat, dst: nat, sz: nat) returns (ok: bool, ghost c: map<nat, UserPage>)
    requires vm.Valid() && IsRoot(vm.role, src) && IsRoot(vm.role, dst) && src != dst && PagesOf(sz) <= TRAPFRAME
    requires Vacant(vm.view, dst, 0, TRAPFRAME)
    modifies vm
    ensures vm.Valid() && IsRoot(vm.role, dst) && IsRoot(vm.role, src)
    ensures ok ==> PagesBelow(old(vm.Mem(src)), PagesOf(sz), c)
                   && Filled(old(vm.pages), old(vm.role), old(vm.view), vm.pages, vm.role, vm.view, dst, c)
    ensures !ok ==> TablesGrew(old(vm.pages), old(vm.role), vm.pages, vm.role, dst) && SameView(old(vm.view), vm.view)
    ensures |old(vm.free)| >= 3 * PagesOf(sz) ==> ok
    ensures |vm.free| + 3 * PagesOf(sz) >= |old(vm.free)|
  {
    var i := 0;
    ok := true;
    c := map[];
    while i < PagesOf(sz)
      invariant 0 <= i <= PagesOf(sz) && vm.Valid() && IsRoot(vm.role, src) && IsRoot(vm.role, dst)
      invariant PagesBelow(old(vm.Mem(src)), i, c)
      invariant Filled(old(vm.pages), old(vm.role), old(vm.view), vm.pages, vm.role, vm.view, dst, c)
      invariant |vm.free| >= |old(vm.free)| - 3 * i
    {
      ok, c := CopyNext(vm, src, dst, i, old(vm.pages), old(vm.role), old(vm.view), c);
      if !ok { return; }
      i := i + 1;
    }
  }

  // ---- vmfault ----

  lemma PutOne(m: map<nat, UserPage>, v: nat, p: UserPage)
    ensures m + map[v := p] == m[v := p]
  {
  }

  /** What a new page does to the memory of its tree and of others. */
  lemma AddedPage(pages: Pages, role: Roles, view: View, pages': Pages, role': Roles, view': View, root: nat, v: nat,
                  f: nat, p: UserPage)
    requires DataOk(pages, role, view) && (forall g :: g in role <==> g in pages) && v < TRAPFRAME
             && Slot(root, v) !in view
    requires Added(pages, role, pages', role', root, v, f) && f in pages' && pages'[f] == Bytes(p.data)
    requires view' == view[Slot(root, v) := Pte(true, f, p.flags)]
    ensures OthersSame(pages, role, view, pages', role', view', root)
    ensures UserMem(pages', view', root) == UserMem(pages, view, root)[v := p]
  {
    var c := map[v := p];
    assert Filled(pages, role, view, pages, role, view, root, map[]);
    FilledMore(pages, role, view, pages, role, view, pages', role', view', root, map[], c, v, f, p);
    FilledOthers(pages, role, view, pages', role', view', root, c);
    PutOne(UserMem(pages, view, root), v, p);
  }

  /** The part of vmfault after its tests: kalloc, memset, mappages. */
  method FaultIn(vm: Vm, root: nat, v: nat) returns (f: nat)
    requires vm.Valid() && IsRoot(vm.role, root) && v < TRAPFRAME && Slot(root, v) !in vm.view
    modifies vm
    ensures vm.Valid() && OthersSame(old(vm.pages), old(vm.role), old(vm.view), vm.pages, vm.role, vm.view, root)
    ensures f == 0 ==> vm.Mem(root) == old(vm.Mem(root)) && vm.view == old(vm.view) && |old(vm.free)| < 3
                       && |vm.free| <= 1
    ensures f != 0 ==>
              vm.Mem(root) == old(vm.Mem(root))[v := ZeroPage()]
                  && vm.view == old(vm.view)[Slot(root, v) := Pte(true, f, USER_RW)]
    ensures |vm.free| + 3 >= |old(vm.free)|
  {
    f := vm.AddUserPage(root, v, Zeros(), USER_RW);
    if f == 0 {
      GrewOthers(old(vm.pages), old(vm.role), old(vm.view), vm.pages, vm.role, vm.view, root);
    } else {
      AddedPage(old(vm.pages), old(vm.role), old(vm.view), vm.pages, vm.role, vm.view, root, v, f, ZeroPage());
    }
  }

  /** vmfault: the frame of a new zero page, or 0 with nothing changed for the process. */
  method VmFault(vm: Vm, p: Proc, va: nat) returns (f: nat)
    requires vm.Valid() && ProcOk(vm, p)
    modifies vm
    ensures vm.Valid() && ProcOk(vm, p)
    ensures OthersSame(old(vm.pages), old(vm.role), old(vm.view), vm.pages, vm.role, vm.view, p.root)
    ensures f != 0 ==>
              && Fault(old(SpaceOf(vm, p)), va) == Some(SpaceOf(vm, p))
              && Slot(p.root, va / PGSIZE) in vm.view && vm.view[Slot(p.root, va / PGSIZE)].frame == f
    ensures f == 0 ==> SpaceOf(vm, p) == old(SpaceOf(vm, p))
    ensures f == 0 && Fault(old(SpaceOf(vm, p)), va).Some? ==> |old(vm.free)| < 3 && |vm.free| <= 1
    ensures |vm.free| + 3 >= |old(vm.free)|
  {
    if va >= p.sz { return 0; }
    var v := va / PGSIZE;
    assert v < PagesOf(p.sz) <= TRAPFRAME;
    MappedIsMem(vm.pages, vm.role, vm.view, p.root, v);
    var e := LookUp(vm, p.root, v);
    if e.valid { return 0; }
    f := FaultIn(vm, p.root, v);
  }

  /** Memory and process are in order, and nothing has happened to the others since state (p0, r0, v0). */
  ghost predicate Good(vm: Vm, p: Proc, p0: Pages, r0: Roles, v0: View)
    reads vm, p
  {
    vm.Valid() && ProcOk(vm, p) && OthersSame(p0, r0, v0, vm.pages, vm.role, vm.view, p.root) && Inv(SpaceOf(vm, p))
  }

  lemma GoodStart(vm: Vm, p: Proc)
    requires vm.Valid() && ProcOk(vm, p)
    ensures Good(vm, p, vm.pages, vm.role, vm.view)
  {
    SpaceInv(vm, p);
    GrewOthers(vm.pages, vm.role, vm.view, vm.pages, vm.role, vm.view, p.root);
  }

  // ---- growproc and sbrk ----

  /** What uvmalloc's pages are to the process that grows by n. */
  lemma Grown(p0: Pages, r0: Roles, v0: View, p1: Pages, r1: Roles, v1: View, root: nat, sz: nat, n: nat)
    requires DataOk(p0, r0, v0) && (forall g :: g in r0 <==> g in p0) && sz + n <= LIMIT
    requires Vacant(v0, root, PagesOf(sz), TRAPFRAME) && TopOk(v0, root)
    requires Filled(p0, r0, v0, p1, r1, v1, root, ZeroPages(PagesOf(sz), PagesOf(sz + n), USER_RW))
    ensures OthersSame(p0, r0, v0, p1, r1, v1, root)
    ensures Vacant(v1, root, PagesOf(sz + n), TRAPFRAME) && TopOk(v1, root)
    ensures (Space(sz + n, UserMem(p1, v1, root)), true) == GrowEagerly(Space(sz, UserMem(p0, v0, root)), n)
  {
    var lo, hi := PagesOf(sz), PagesOf(sz + n);
    assert lo <= hi <= TRAPFRAME;
    FilledOthers(p0, r0, v0, p1, r1, v1, root, Repeat(lo, hi, ZeroPage()));
    GrownSpace(sz, n, UserMem(p0, v0, root), UserMem(p1, v1, root));
  }

  lemma GrownSpace(sz: nat, n: nat, m0: map<nat, UserPage>, m1: map<nat, UserPage>)
    requires sz + n <= LIMIT && m1 == m0 + Repeat(PagesOf(sz), PagesOf(sz + n), ZeroPage())
    ensures (Space(sz + n, m1), true) == GrowEagerly(Space(sz, m0), n)
  {
  }

  /** uvmalloc for a tree whose pages end at sz. */
  method GrowTree(vm: Vm, root: nat, sz: nat, n: nat) returns (ok: bool)
    requires vm.Valid() && IsRoot(vm.role, root) && sz + n <= LIMIT && Vacant(vm.view, root, PagesOf(sz), TRAPFRAME)
             && TopOk(vm.view, root)
    modifies vm
    ensures vm.Valid() && IsRoot(vm.role, root) && TopOk(vm.view, root)
    ensures OthersSame(old(vm.pages), old(vm.role), old(vm.view), vm.pages, vm.role, vm.view, root)
    ensures ok ==> Vacant(vm.view, root, PagesOf(sz + n), TRAPFRAME)
                   && (Space(sz + n, vm.Mem(root)), true) == GrowEagerly(Space(sz, old(vm.Mem(root))), n)
    ensures !ok ==> Vacant(vm.view, root, PagesOf(sz), TRAPFRAME) && vm.Mem(root) == old(vm.Mem(root))
    ensures !ok ==> |old(vm.free)| < 3 * (PagesOf(sz + n) - PagesOf(sz))
    ensures ok ==> |vm.free| + 3 * (PagesOf(sz + n) - PagesOf(sz)) >= |old(vm.free)|
  {
    PagesMonotone(sz, sz + n);
    hide PagesOf, GrowEagerly, ZeroPages, UserMem, DataOk, ViewOk, FreeOk, Filled, OthersSame, TablesGrew;
    var newsz;
    ok, newsz := UvmAlloc(vm, root, sz, sz + n, USER_RW);
    if ok {
      Grown(old(vm.pages), old(vm.role), old(vm.view), vm.pages, vm.role, vm.view, root, sz, n);
    } else {
      GrewOthers(old(vm.pages), old(vm.role), old(vm.view), vm.pages, vm.role, vm.view, root);
    }
  }

  /** growproc with n > 0; false is its -1. */
  method GrowBy(vm: Vm, p: Proc, n: nat) returns (ok: bool)
    requires vm.Valid() && ProcOk(vm, p) && n > 0
    modifies vm, p`sz
    ensures vm.Valid() && ProcOk(vm, p)
    ensures OthersSame(old(vm.pages), old(vm.role), old(vm.view), vm.pages, vm.role, vm.view, p.root)
    ensures ok ==> (SpaceOf(vm, p), true) == GrowEagerly(old(SpaceOf(vm, p)), n)
    ensures !ok ==> SpaceOf(vm, p) == old(SpaceOf(vm, p))
    ensures !ok && p.sz + n <= LIMIT ==> |old(vm.free)| < 3 * (PagesOf(p.sz + n) - PagesOf(p.sz))
    ensures !ok && p.sz + n > LIMIT ==> vm.free == old(vm.free)
    ensures ok ==> |vm.free| + 3 * (PagesOf(p.sz) - PagesOf(old(p.sz))) >= |old(vm.free)|
    ensures old(p.sz) <= p.sz <= old(p.sz) + n
  {
    if p.sz + n > LIMIT { return false; }
    hide PagesOf, GrowEagerly, UserMem, DataOk, ViewOk, FreeOk, TreeOk;
    ok := GrowTree(vm, p.root, p.sz, n);
    if ok { p.sz := p.sz + n; }
  }

  lemma ShrunkVacant(view: View, view': View, root: nat, lo: nat, hi: nat)
    requires Vacant(view, root, hi, TRAPFRAME) && lo <= hi && Unmapped(view, view', root, lo, hi - lo)
    ensures Vacant(view', root, lo, TRAPFRAME)
  {
  }

  lemma ShrunkSpace(s: Space, n: nat, m: map<nat, UserPage>, sz: nat)
    requires Inv(s) && n <= 0x8000_0000
    requires sz == (var newsz := (U64 + s.sz - n) % U64; if newsz >= s.sz then s.sz else newsz)
    requires forall v: nat :: v in m <==> v in s.mem && !(PagesOf(sz) <= v < PagesOf(s.sz))
    requires forall v: nat :: v in m ==> m[v] == s.mem[v]
    ensures Space(sz, m) == Shrink(s, n)
  {
    SameSpace(Space(sz, m), Shrink(s, n));
  }

  /** growproc with a negative argument -n; it cannot fail. */
  method ShrinkProc(vm: Vm, p: Proc, n: nat)
    requires vm.Valid() && ProcOk(vm, p) && 0 < n <= 0x8000_0000
    modifies vm, p`sz
    ensures vm.Valid() && ProcOk(vm, p) && SpaceOf(vm, p) == Shrink(old(SpaceOf(vm, p)), n) && p.sz <= old(p.sz)
    ensures |vm.free| >= |old(vm.free)|
    ensures OthersSame(old(vm.pages), old(vm.role), old(vm.view), vm.pages, vm.role, vm.view, p.root)
  {
    hide Released, Unmapped, UserMem, OthersSame, ViewOk, FreeOk, DataOk;
    SpaceInv(vm, p);
    ghost var s := SpaceOf(vm, p);
    var sz := UvmDealloc(vm, p.root, p.sz, (U64 + p.sz - n) % U64);
    ghost var lo, hi := PagesOf(sz), PagesOf(p.sz);
    ReleasedOthers(old(vm.pages), old(vm.role), old(vm.view), vm.pages, vm.role, vm.view, p.root, lo, hi - lo);
    ShrunkVacant(old(vm.view), vm.view, p.root, lo, hi);
    ShrunkSpace(s, n, vm.Mem(p.root), sz);
    p.sz := sz;
  }

  /** sys_sbrk: the old size, or None for -1.  Growth touches no page table. */
  method Sbrk(vm: Vm, p: Proc, n: int) returns (r: Option<nat>)
    requires vm.Valid() && ProcOk(vm, p) && -0x8000_0000 <= n < 0x8000_0000
    modifies vm, p`sz
    ensures vm.Valid() && ProcOk(vm, p)
    ensures OthersSame(old(vm.pages), old(vm.role), old(vm.view), vm.pages, vm.role, vm.view, p.root)
    ensures n > 0 ==> vm.pages == old(vm.pages) && vm.free == old(vm.free)
                      && (SpaceOf(vm, p), r.Some?) == GrowLazily(old(SpaceOf(vm, p)), n)
    ensures n < 0 ==> r.Some? && SpaceOf(vm, p) == Shrink(old(SpaceOf(vm, p)), -n)
    ensures n == 0 ==> r.Some? && SpaceOf(vm, p) == old(SpaceOf(vm, p))
    ensures r.Some? ==> r.value == old(p.sz)
    ensures |vm.free| >= |old(vm.free)| && p.sz <= old(p.sz) + (if n > 0 then n else 0)
  {
    GoodStart(vm, p);
    hide OthersSame, UserMem, Vm.Valid, Shrink;
    var addr := p.sz;
    if n > 0 {
      if (addr + n) % U64 < addr || addr + n > LIMIT { return None; }
      p.sz := p.sz + n;
    } else if n < 0 {
      ShrinkProc(vm, p, -n);
    }
    return Some(addr);
  }

  // ---- copyout and copyin ----

  lemma StoredOthers(pages: Pages, role: Roles, view: View, root: nat, v: nat, data: seq<Byte>)
    requires DataOk(pages, role, view) && (forall g :: g in role <==> g in pages) && v < TRAPFRAME
             && Slot(root, v) in view && |data| == PGSIZE
    ensures view[Slot(root, v)].frame in pages && v in UserMem(pages, view, root)
    ensures var pages' := pages[view[Slot(root, v)].frame := Bytes(data)];
      && DataOk(pages', role, view) && OthersSame(pages, role, view, pages', role, view, root)
      && UserMem(pages', view, root) == UserMem(pages, view, root)[v := UserMem(pages, view, root)[v].(data := data)]
  {
    MappedIsMem(pages, role, view, root, v);
    var f := view[Slot(root, v)].frame;
    var pages' := pages[f := Bytes(data)];
    forall g | g in role && role[g].DataOf? ensures DataFrameOk(pages', role, view, g) {
      assert DataFrameOk(pages, role, view, g);
    }
    forall r: nat, u: nat | u < TRAPFRAME && Slot(r, u) in view && !(r == root && u == v)
      ensures view[Slot(r, u)].frame != f
    {
      assert role[view[Slot(r, u)].frame] == DataOf(r, u);
    }
    forall r: nat ensures r != root ==> UserMem(pages', view, r) == UserMem(pages, view, r) {
      if r != root { MapsEqual(UserMem(pages', view, r), UserMem(pages, view, r), map[]); }
    }
    var m := UserMem(pages, view, root);
    MapsEqual(UserMem(pages', view, root), m, map[v := m[v].(data := data)]);
    PutOne(m, v, m[v].(data := data));
  }

  /** memmove into a user page through its physical address. */
  method StoreBytes(vm: Vm, p: Proc, va: nat, f: nat, src: seq<Byte>)
    requires vm.Valid() && ProcOk(vm, p) && va / PGSIZE < TRAPFRAME && va % PGSIZE + |src| <= PGSIZE
    requires Slot(p.root, va / PGSIZE) in vm.view && vm.view[Slot(p.root, va / PGSIZE)].frame == f
    modifies vm`pages
    ensures vm.Valid() && ProcOk(vm, p)
    ensures va / PGSIZE in old(vm.Mem(p.root)) && |old(vm.Mem(p.root))[va / PGSIZE].data| == PGSIZE
    ensures SpaceOf(vm, p) == WriteAt(old(SpaceOf(vm, p)), va, src)
    ensures OthersSame(old(vm.pages), old(vm.role), old(vm.view), vm.pages, vm.role, vm.view, p.root)
  {
    MappedIsMem(vm.pages, vm.role, vm.view, p.root, va / PGSIZE);
    var data := Splice(vm.pages[f].data, va % PGSIZE, src);
    StoredOthers(vm.pages, vm.role, vm.view, p.root, va / PGSIZE, data);
    OutsideTrees(vm.pages, vm.role, vm.pages[f := Bytes(data)], vm.role);
    SameViewOk(vm.pages, vm.role, vm.view, vm.pages[f := Bytes(data)], vm.role);
    vm.pages := vm.pages[f := Bytes(data)];
  }

  /** walkaddr, else vmfault: the frame that copyout and copyin use for page v, or 0. */
  method PageFor(vm: Vm, p: Proc, v: nat) returns (f: nat)
    requires vm.Valid() && ProcOk(vm, p)
    modifies vm
    ensures vm.Valid() && ProcOk(vm, p)
    ensures OthersSame(old(vm.pages), old(vm.role), old(vm.view), vm.pages, vm.role, vm.view, p.root)
    ensures f != 0 ==>
              && Present(old(SpaceOf(vm, p)), v) == Some(SpaceOf(vm, p))
              && v < TRAPFRAME && Slot(p.root, v) in vm.view && vm.view[Slot(p.root, v)].frame == f
    ensures f == 0 ==> SpaceOf(vm, p) == old(SpaceOf(vm, p))
    ensures f == 0 && Present(old(SpaceOf(vm, p)), v).Some? ==>
              |old(vm.free)| < 3 && |vm.free| <= 1 && v !in SpaceOf(vm, p).mem
    ensures |vm.free| + 3 >= |old(vm.free)|
  {
    assert v * PGSIZE / PGSIZE == v;
    f := 0;
    if v < TRAPFRAME { MappedIsMem(vm.pages, vm.role, vm.view, p.root, v); }
    if v < NPAGES {
      var e := LookUp(vm, p.root, v);
      if e.valid && e.flags.u { f := e.frame; }
    }
    if f == 0 {
      f := VmFault(vm, p, v * PGSIZE);
    }
  }

  lemma OthersTransitive(p0: Pages, r0: Roles, v0: View, p1: Pages, r1: Roles, v1: View, p2: Pages, r2: Roles,
                         v2: View, root: nat)
    requires OthersSame(p0, r0, v0, p1, r1, v1, root) && OthersSame(p1, r1, v1, p2, r2, v2, root)
    requires forall f :: f in r0 <==> f in p0
    ensures OthersSame(p0, r0, v0, p2, r2, v2, root)
  {
  }

  method GoodPage(vm: Vm, p: Proc, v: nat, ghost p0: Pages, ghost r0: Roles, ghost v0: View) returns (f: nat)
    requires Good(vm, p, p0, r0, v0) && forall g :: g in r0 <==> g in p0
    modifies vm
    ensures Good(vm, p, p0, r0, v0)
    ensures f != 0 ==> Present(old(SpaceOf(vm, p)), v) == Some(SpaceOf(vm, p))
    ensures f != 0 ==> v < TRAPFRAME && Slot(p.root, v) in vm.view && vm.view[Slot(p.root, v)].frame == f
    ensures f != 0 ==> f in vm.pages && vm.pages[f] == Bytes(SpaceOf(vm, p).mem[v].data)
    ensures f == 0 ==> SpaceOf(vm, p) == old(SpaceOf(vm, p))
    ensures f == 0 && Present(old(SpaceOf(vm, p)), v).Some? ==>
              |old(vm.free)| < 3 && |vm.free| <= 1 && v !in SpaceOf(vm, p).mem
    ensures |vm.free| + 3 >= |old(vm.free)|
  {
    ghost var p1, r1, v1 := vm.pages, vm.role, vm.view;
    f := PageFor(vm, p, v);
    SpaceInv(vm, p);
    OthersTransitive(p0, r0, v0, p1, r1, v1, vm.pages, vm.role, vm.view, p.root);
    if f != 0 { MappedIsMem(vm.pages, vm.role, vm.view, p.root, v); }
  }

  /** One round of copyout for the page of dst; false is a failure. */
  method OutRound(vm: Vm, p: Proc, dst: nat, src: seq<Byte>, ghost p0: Pages, ghost r0: Roles, ghost v0: View)
    returns (ok: bool)
    requires Good(vm, p, p0, r0, v0) && (forall g :: g in r0 <==> g in p0) && dst % PGSIZE + |src| <= PGSIZE
    modifies vm
    ensures Good(vm, p, p0, r0, v0)
    ensures ok ==> OutPage(old(SpaceOf(vm, p)), dst, src) == Some(SpaceOf(vm, p))
    ensures !ok ==>
              || (|old(vm.free)| < 3 && |vm.free| <= 1 && SpaceOf(vm, p) == old(SpaceOf(vm, p))
                  && Starved(SpaceOf(vm, p), dst / PGSIZE))
              || (OutPage(old(SpaceOf(vm, p)), dst, src).None?
                  && SpaceOf(vm, p) == match Present(old(SpaceOf(vm, p)), dst / PGSIZE)
                                       case None => old(SpaceOf(vm, p))
                                       case Some(s1) => s1)
    ensures |vm.free| + 3 >= |old(vm.free)|
  {
    hide OthersSame;
    var v := dst / PGSIZE;
    var f := GoodPage(vm, p, v, p0, r0, v0);
    if f == 0 { return false; }
    ghost var p1, r1, v1 := vm.pages, vm.role, vm.view;
    MappedIsMem(vm.pages, vm.role, vm.view, p.root, v);
    var e := LookUp(vm, p.root, v);
    if !e.flags.w { return false; }
    StoreBytes(vm, p, dst, f, src);
    SpaceInv(vm, p);
    OthersTransitive(p0, r0, v0, p1, r1, v1, vm.pages, vm.role, vm.view, p.root);
    return true;
  }

  /** How many pages len bytes from va on lie in. */
  function Spread(va: nat, len: nat): nat {
    if len == 0 then 0 else (va + len - 1) / PGSIZE - va / PGSIZE + 1
  }

  lemma SpreadStep(va: nat, len: nat)
    requires len > 0
    ensures Spread(va, len) == 1 + Spread((va / PGSIZE + 1) * PGSIZE, len - ChunkLen(va, len))
  {
  }

  /** The page is not there, and the space has a place for it. */
  predicate Starved(s: Space, v: nat) {
    v !in s.mem && Present(s, v).Some?
  }

  /** The first done bytes are copied, whole pages after the first. */
  ghost predicate OutAt(s0: Space, dstva: nat, src: seq<Byte>, done: nat, s: Space, dst: nat, left: seq<Byte>) {
    && Inv(s0) && Sized(s0) && done <= |src| && left == src[done..]
    && CopyOut(s0, dstva, src[..done]) == (s, true)
    && (left != [] ==> dst == dstva + done && (done == 0 || dst % PGSIZE == 0))
  }

  lemma OutBegins(s0: Space, dstva: nat, src: seq<Byte>)
    requires Inv(s0)
    ensures Sized(s0) && OutAt(s0, dstva, src, 0, s0, dstva, src)
  {
    assert src[..0] == [] && src[0..] == src;
  }

  lemma OutRest(s0: Space, dstva: nat, src: seq<Byte>, done: nat, s: Space, dst: nat, left: seq<Byte>)
    requires OutAt(s0, dstva, src, done, s, dst, left)
    ensures Inv(s) && Sized(s)
    ensures left == [] ==> CopyOut(s0, dstva, src) == (s, true)
    ensures left != [] ==> CopyOut(s0, dstva, src) == CopyOut(s, dst, left)
  {
    hide CopyOut, Full, Present;
    CopyOutAgrees(s0, dstva, src[..done]);
    assert src[..done] + src[done..] == src;
    if left == [] {
      assert src[..done] == src;
    } else {
      CopyOutSplit(s0, dstva, src[..done], src[done..]);
    }
  }

  lemma OutStep(s0: Space, dstva: nat, src: seq<Byte>, done: nat, s: Space, dst: nat, left: seq<Byte>)
    requires OutAt(s0, dstva, src, done, s, dst, left)
    ensures Inv(s) && Sized(s)
    ensures left == [] ==> CopyOut(s0, dstva, src) == (s, true)
    ensures left != [] && dst / PGSIZE >= NPAGES ==> CopyOut(s0, dstva, src) == (s, false)
    ensures left != [] && Starved(s, dst / PGSIZE) ==> OutStopped(s0, dstva, src, s)
    ensures var n := ChunkLen(dst, |left|);
            left != [] && dst / PGSIZE < NPAGES && OutPage(s, dst, left[..n]).None? ==>
              CopyOut(s0, dstva, src)
                  == match Present(s, dst / PGSIZE) case None => (s, false) case Some(s1) => (s1, false)
  {
    hide Present, Inv;
    OutRest(s0, dstva, src, done, s, dst, left);
  }

  lemma OneChunk(dst: nat, left: seq<Byte>)
    requires left != []
    ensures var n := ChunkLen(dst, |left|);
      && ChunkLen(dst, n) == n && left[..n][..n] == left[..n] && left[..n][n..] == []
      && (left[n..] != [] ==> (dst / PGSIZE + 1) * PGSIZE == dst + n)
  {
  }

  lemma OutAgain(s0: Space, dstva: nat, src: seq<Byte>, done: nat, s: Space, dst: nat, left: seq<Byte>, s': Space)
    requires OutAt(s0, dstva, src, done, s, dst, left) && Inv(s) && Sized(s) && left != [] && dst / PGSIZE < NPAGES
    requires OutPage(s, dst, left[..ChunkLen(dst, |left|)]) == Some(s')
    ensures var n := ChunkLen(dst, |left|); OutAt(s0, dstva, src, done + n, s', (dst / PGSIZE + 1) * PGSIZE, left[n..])
  {
    hide CopyOut, OutPage, Inv, Present, ChunkLen, Sized;
    var n := ChunkLen(dst, |left|);
    var first := left[..n];
    OneChunk(dst, left);
    assert src[..done] + first == src[..done + n] && left[n..] == src[done + n..];
    CopyOutSplit(s0, dstva, src[..done], first);
    OutFirst(s, dst, first);
    CopyNone(s', (dst / PGSIZE + 1) * PGSIZE);
  }

  /** copyout did what CopyOut says of some of the bytes, whole pages after the first, and found no memory for the
      page that comes next. */
  ghost predicate OutStopped(s0: Space, dstva: nat, src: seq<Byte>, s: Space)
    requires Sized(s0)
  {
    exists done :: 0 <= done < |src| && (done == 0 || (dstva + done) % PGSIZE == 0)
      && CopyOut(s0, dstva, src[..done]) == (s, true) && Starved(s, (dstva + done) / PGSIZE)
  }

  /** copyout does what CopyOut says, or stops before a page with at most one frame left free. */
  method Copyout(vm: Vm, p: Proc, dstva: nat, src: seq<Byte>) returns (ok: bool)
    requires vm.Valid() && ProcOk(vm, p)
    modifies vm
    ensures Good(vm, p, old(vm.pages), old(vm.role), old(vm.view)) && Inv(old(SpaceOf(vm, p)))
    ensures (SpaceOf(vm, p), ok) == CopyOut(old(SpaceOf(vm, p)), dstva, src)
            || (!ok && |vm.free| <= 1 && |old(vm.free)| < 3 * Spread(dstva, |src|)
                && OutStopped(old(SpaceOf(vm, p)), dstva, src, SpaceOf(vm, p)))
    ensures |vm.free| + 3 * Spread(dstva, |src|) >= |old(vm.free)|
  {
    GoodStart(vm, p);
    ok := OutLoop(vm, p, dstva, src, vm.pages, vm.role, vm.view);
  }

  method OutLoop(vm: Vm, p: Proc, dstva: nat, src: seq<Byte>, ghost p0: Pages, ghost r0: Roles, ghost v0: View)
    returns (ok: bool)
    requires Good(vm, p, p0, r0, v0) && Inv(SpaceOf(vm, p)) && forall g :: g in r0 <==> g in p0
    modifies vm
    ensures Good(vm, p, p0, r0, v0) && Inv(old(SpaceOf(vm, p)))
    ensures (SpaceOf(vm, p), ok) == CopyOut(old(SpaceOf(vm, p)), dstva, src)
            || (!ok && |vm.free| <= 1 && |old(vm.free)| < 3 * Spread(dstva, |src|)
                && OutStopped(old(SpaceOf(vm, p)), dstva, src, SpaceOf(vm, p)))
    ensures |vm.free| + 3 * Spread(dstva, |src|) >= |old(vm.free)|
  {
    hide Good, Present, OutPage, Inv, SpaceOf, OutAt, CopyOut, OutStopped, Starved, ChunkLen, Spread;
    ghost var s0, done: nat := SpaceOf(vm, p), 0;
    OutBegins(s0, dstva, src);
    var dst: nat, left := dstva, src;
    while left != []
      invariant Good(vm, p, p0, r0, v0) && OutAt(s0, dstva, src, done, SpaceOf(vm, p), dst, left)
      invariant |vm.free| + 3 * (Spread(dstva, |src|) - Spread(dst, |left|)) >= |old(vm.free)|
      decreases |left|
    {
      SpreadStep(dst, |left|);
      OutStep(s0, dstva, src, done, SpaceOf(vm, p), dst, left);
      if dst / PGSIZE >= NPAGES { return false; }
      var n := ChunkLen(dst, |left|);
      ghost var s := SpaceOf(vm, p);
      ok := OutRound(vm, p, dst, left[..n], p0, r0, v0);
      if !ok { return; }
      OutAgain(s0, dstva, src, done, s, dst, left, SpaceOf(vm, p));
      dst, left, done := (dst / PGSIZE + 1) * PGSIZE, left[n..], done + n;
    }
    OutStep(s0, dstva, src, done, SpaceOf(vm, p), dst, left);
    return true;
  }

  /** The bytes in dst are read, whole pages after the first. */
  ghost predicate InAt(s0: Space, srcva: nat, len: nat, s: Space, src: nat, left: nat, dst: seq<Byte>) {
    && Inv(s0) && Sized(s0) && |dst| + left == len
    && CopyIn(s0, srcva, |dst|) == (s, dst, true)
    && (left > 0 ==> src == srcva + |dst| && (dst == [] || src % PGSIZE == 0))
  }

  lemma InBegins(s0: Space, srcva: nat, len: nat)
    requires Inv(s0)
    ensures Sized(s0) && InAt(s0, srcva, len, s0, srcva, len, [])
  {
  }

  lemma InStep(s0: Space, srcva: nat, len: nat, s: Space, src: nat, left: nat, dst: seq<Byte>)
    requires InAt(s0, srcva, len, s, src, left, dst)
    ensures Inv(s) && Sized(s)
    ensures left == 0 ==> CopyIn(s0, srcva, len) == (s, dst, true)
    ensures left > 0 && Starved(s, src / PGSIZE) ==> InStopped(s0, srcva, len, s, dst)
    ensures left > 0 && Present(s, src / PGSIZE).None? ==> CopyIn(s0, srcva, len) == (s, dst, false)
  {
    hide Present, Full;
    CopyInAgrees(s0, srcva, |dst|);
    if left > 0 {
      CopyInSplit(s0, srcva, |dst|, left);
      assert dst + [] == dst;
    }
  }

  lemma OneChunkIn(src: nat, left: nat)
    requires left > 0
    ensures var n := ChunkLen(src, left); ChunkLen(src, n) == n && (left > n ==> (src / PGSIZE + 1) * PGSIZE == src + n)
  {
  }

  lemma InAgain(s0: Space, srcva: nat, len: nat, s: Space, src: nat, left: nat, dst: seq<Byte>, s': Space)
    requires InAt(s0, srcva, len, s, src, left, dst) && left > 0 && Present(s, src / PGSIZE) == Some(s')
    requires Inv(s) && Sized(s) && Inv(s') && Sized(s') && src / PGSIZE in s'.mem
             && |s'.mem[src / PGSIZE].data| == PGSIZE
    ensures var n := ChunkLen(src, left);
      InAt(s0, srcva, len, s', (src / PGSIZE + 1) * PGSIZE, left - n,
           dst + s'.mem[src / PGSIZE].data[src % PGSIZE..src % PGSIZE + n])
  {
    hide CopyIn, Inv, Sized, Present, ChunkLen;
    var n := ChunkLen(src, left);
    var bytes := s'.mem[src / PGSIZE].data[src % PGSIZE..src % PGSIZE + n];
    OneChunkIn(src, left);
    CopyInSplit(s0, srcva, |dst|, n);
    InFirst(s, src, n);
    CopyNone(s', (src / PGSIZE + 1) * PGSIZE);
    assert bytes + [] == bytes;
  }

  /** copyin read some of the bytes, whole pages after the first, and found no memory for the page that comes next. */
  ghost predicate InStopped(s0: Space, srcva: nat, len: nat, s: Space, dst: seq<Byte>)
    requires Sized(s0)
  {
    && |dst| < len && (dst == [] || (srcva + |dst|) % PGSIZE == 0)
    && CopyIn(s0, srcva, |dst|) == (s, dst, true) && Starved(s, (srcva + |dst|) / PGSIZE)
  }

  /** copyin reads what CopyIn says, or stops before a page with at most one frame left free. */
  method Copyin(vm: Vm, p: Proc, srcva: nat, len: nat) returns (ok: bool, dst: seq<Byte>)
    requires vm.Valid() && ProcOk(vm, p)
    modifies vm
    ensures Good(vm, p, old(vm.pages), old(vm.role), old(vm.view)) && Inv(old(SpaceOf(vm, p)))
    ensures (SpaceOf(vm, p), dst, ok) == CopyIn(old(SpaceOf(vm, p)), srcva, len)
            || (!ok && |vm.free| <= 1 && |old(vm.free)| < 3 * Spread(srcva, len)
                && InStopped(old(SpaceOf(vm, p)), srcva, len, SpaceOf(vm, p), dst))
    ensures |vm.free| + 3 * Spread(srcva, len) >= |old(vm.free)|
  {
    GoodStart(vm, p);
    ok, dst := InLoop(vm, p, srcva, len, vm.pages, vm.role, vm.view);
  }

  method InLoop(vm: Vm, p: Proc, srcva: nat, len: nat, ghost p0: Pages, ghost r0: Roles, ghost v0: View)
    returns (ok: bool, dst: seq<Byte>)
    requires Good(vm, p, p0, r0, v0) && Inv(SpaceOf(vm, p)) && forall g :: g in r0 <==> g in p0
    modifies vm
    ensures Good(vm, p, p0, r0, v0) && Inv(old(SpaceOf(vm, p)))
    ensures (SpaceOf(vm, p), dst, ok) == CopyIn(old(SpaceOf(vm, p)), srcva, len)
            || (!ok && |vm.free| <= 1 && |old(vm.free)| < 3 * Spread(srcva, len)
                && InStopped(old(SpaceOf(vm, p)), srcva, len, SpaceOf(vm, p), dst))
    ensures |vm.free| + 3 * Spread(srcva, len) >= |old(vm.free)|
  {
    hide Good, Present, Inv, SpaceOf, InAt, CopyIn, InStopped, ChunkLen, Spread;
    ghost var s0 := SpaceOf(vm, p);
    InBegins(s0, srcva, len);
    var src: nat, left: nat := srcva, len;
    dst := [];
    while left > 0
      invariant Good(vm, p, p0, r0, v0) && InAt(s0, srcva, len, SpaceOf(vm, p), src, left, dst)
      invariant |vm.free| + 3 * (Spread(srcva, len) - Spread(src, left)) >= |old(vm.free)|
    {
      SpreadStep(src, left);
      InStep(s0, srcva, len, SpaceOf(vm, p), src, left, dst);
      var n := ChunkLen(src, left);
      ghost var s := SpaceOf(vm, p);
      var f := GoodPage(vm, p, src / PGSIZE, p0, r0, v0);
      if f == 0 { return false, dst; }
      InFirst(s, src, left);
      InAgain(s0, srcva, len, s, src, left, dst, SpaceOf(vm, p));
      src, left, dst := (src / PGSIZE + 1) * PGSIZE, left - n, dst + vm.pages[f].data[src % PGSIZE..src % PGSIZE + n];
    }
    InStep(s0, srcva, len, SpaceOf(vm, p), src, left, dst);
    ok := true;
  }

  // ---- What a process does in user mode ----

  lemma SameDomain(pages: Pages, role: Roles)
    requires TreeOk(pages, role)
    ensures 0 !in role && forall g :: g in role <==> g in pages
  {
  }

  lemma MemBelow(pages: Pages, view: View, root: nat, v: nat)
    ensures v in UserMem(pages, view, root) ==> v < TRAPFRAME
  {
  }

  /** A load or store of the processor at va, and usertrap's fault branch if it traps: the frame of the page, or 0 for
      a kill. */
  method Access(vm: Vm, p: Proc, va: nat, write: bool) returns (f: nat)
    requires vm.Valid() && ProcOk(vm, p)
    modifies vm
    ensures vm.Valid() && ProcOk(vm, p)
    ensures OthersSame(old(vm.pages), old(vm.role), old(vm.view), vm.pages, vm.role, vm.view, p.root)
    ensures f != 0 ==>
              && Touch(old(SpaceOf(vm, p)), va, write) == Some(SpaceOf(vm, p)) && va / PGSIZE < TRAPFRAME
              && Slot(p.root, va / PGSIZE) in vm.view && vm.view[Slot(p.root, va / PGSIZE)].frame == f
    ensures f == 0 ==> SpaceOf(vm, p) == old(SpaceOf(vm, p))
    ensures f == 0 && Touch(old(SpaceOf(vm, p)), va, write).Some? ==> |old(vm.free)| < 3
    ensures |vm.free| + 3 >= |old(vm.free)|
  {
    hide OthersSame, UserMem, DataOk, ViewOk, TreeOk, FreeOk;
    var v := va / PGSIZE;
    SameDomain(vm.pages, vm.role);
    MemBelow(vm.pages, vm.view, p.root, v);
    GrewOthers(vm.pages, vm.role, vm.view, vm.pages, vm.role, vm.view, p.root);
    if v < TRAPFRAME { MappedIsMem(vm.pages, vm.role, vm.view, p.root, v); }
    if v < NPAGES {
      var e := LookUp(vm, p.root, v);
      if e.valid && e.flags.u && (if write then e.flags.w else e.flags.r) { return e.frame; }
    }
    if va == 0 || va >= p.sz { return 0; }
    f := VmFault(vm, p, va);
  }

  /** A load: what the process sees. */
  method UserLoad(vm: Vm, p: Proc, va: nat) returns (o: Obs)
    requires vm.Valid() && ProcOk(vm, p)
    modifies vm
    ensures Good(vm, p, old(vm.pages), old(vm.role), old(vm.view)) && Inv(old(SpaceOf(vm, p)))
    ensures (SpaceOf(vm, p), o) == Step(old(SpaceOf(vm, p)), Load(va), true)
            || (o == Killed && |old(vm.free)| < 3 && SpaceOf(vm, p) == old(SpaceOf(vm, p)))
    ensures |vm.free| + 3 >= |old(vm.free)|
  {
    hide OthersSame, UserMem, DataOk, ViewOk, TreeOk, FreeOk, ProcFits;
    SpaceInv(vm, p);
    var f := Access(vm, p, va, false);
    SpaceInv(vm, p);
    if f == 0 { return Killed; }
    MappedIsMem(vm.pages, vm.role, vm.view, p.root, va / PGSIZE);
    o := Value(vm.pages[f].data[va % PGSIZE]);
  }

  method UserStore(vm: Vm, p: Proc, va: nat, b: Byte) returns (o: Obs)
    requires vm.Valid() && ProcOk(vm, p)
    modifies vm
    ensures Good(vm, p, old(vm.pages), old(vm.role), old(vm.view)) && Inv(old(SpaceOf(vm, p)))
    ensures (SpaceOf(vm, p), o) == Step(old(SpaceOf(vm, p)), Store(va, b), true)
            || (o == Killed && |old(vm.free)| < 3 && SpaceOf(vm, p) == old(SpaceOf(vm, p)))
    ensures |vm.free| + 3 >= |old(vm.free)|
  {
    hide OthersSame, UserMem, DataOk, ViewOk, TreeOk, FreeOk, ProcFits;
    SpaceInv(vm, p);
    ghost var p0, r0, v0 := vm.pages, vm.role, vm.view;
    SameDomain(p0, r0);
    var f := Access(vm, p, va, true);
    SpaceInv(vm, p);
    if f == 0 { return Killed; }
    ghost var p1, r1, v1 := vm.pages, vm.role, vm.view;
    StoreBytes(vm, p, va, f, [b]);
    SpaceInv(vm, p);
    OthersTransitive(p0, r0, v0, p1, r1, v1, vm.pages, vm.role, vm.view, p.root);
    o := Done(true);
  }

  /** How many frames an operation may take. */
  function Cost(op: Op): nat {
    match op
    case Grow(_) => 0
    case ShrinkBy(_) => 0
    case Load(_) => 3
    case Store(_, _) => 3
    case Out(dst, src) => 3 * Spread(dst, |src|)
    case In(from, len) => 3 * Spread(from, len)
  }

  /** Any operation of a process on its memory: with enough frames free, what happens to the memory and what is seen
      of it is what the value of the memory says. */
  method UserOp(vm: Vm, p: Proc, op: Op) returns (o: Obs)
    requires vm.Valid() && ProcOk(vm, p) && OkOp(op) && (op.Grow? ==> op.n < 0x8000_0000)
    modifies vm, p`sz
    ensures Good(vm, p, old(vm.pages), old(vm.role), old(vm.view)) && Inv(old(SpaceOf(vm, p)))
    ensures |old(vm.free)| >= Cost(op) ==> (SpaceOf(vm, p), o) == Step(old(SpaceOf(vm, p)), op, true)
    ensures |vm.free| + Cost(op) >= |old(vm.free)|
    ensures p.sz <= old(p.sz) + if op.Grow? then op.n else 0
  {
    SpaceInv(vm, p);
    hide OthersSame, UserMem, Vm.Valid, Shrink, CopyOut, CopyIn, Touch, OutStopped, InStopped, Spread;
    match op {
      case Grow(n) =>
        var r := Sbrk(vm, p, n);
        o := Done(r.Some?);
      case ShrinkBy(n) =>
        var less: int := n;
        var r := Sbrk(vm, p, -less);
        ShrinkNone(old(SpaceOf(vm, p)));
        o := Done(true);
      case Load(va) => o := UserLoad(vm, p, va);
      case Store(va, b) => o := UserStore(vm, p, va, b);
      case Out(dst, src) =>
        var ok := Copyout(vm, p, dst, src);
        o := Done(ok);
      case In(from, len) =>
        var ok, bytes := Copyin(vm, p, from, len);
        o := Data(bytes, ok);
    }
    SpaceInv(vm, p);
  }

  lemma ShrinkNone(s: Space)
    requires Inv(s)
    ensures Shrink(s, 0) == s
  {
  }
}
