/** User memory of a process: uvmalloc, uvmdealloc, vmfault, uvmcopy (kernel/vm.c), growproc (kernel/proc.c) and
    sbrk (kernel/sysproc.c). */
module Process {
  import opened PageTable
  import opened VirtualMemory

  const USER_RW := Flags(true, true, false, true)
  const U64: nat := 0x1_0000_0000_0000_0000

  /** PGROUNDUP(sz) / PGSIZE. */
  function PagesOf(sz: nat): nat {
    (sz + PGSIZE - 1) / PGSIZE
  }

  lemma PagesMonotone(a: nat, b: nat)
    requires a <= b
    ensures PagesOf(a) <= PagesOf(b)
    ensures b <= TRAPFRAME * PGSIZE ==> PagesOf(b) <= TRAPFRAME
  {
  }

  /** Page p at each of lo, ..., hi - 1. */
  ghost function Repeat(lo: nat, hi: nat, p: UserPage): map<nat, UserPage> {
    map v: nat | v < hi && AtLeast(lo, v) :: p
  }

  predicate AtLeast(lo: nat, v: nat) { lo <= v }

  lemma RepeatMore(lo: nat, hi: nat, p: UserPage)
    requires lo <= hi
    ensures Repeat(lo, hi + 1, p) == Repeat(lo, hi, p)[hi := p]
    ensures forall v :: v in Repeat(lo, hi, p) ==> lo <= v < hi
  {
  }

  ghost function ZeroPages(lo: nat, hi: nat, flags: Flags): map<nat, UserPage> {
    Repeat(lo, hi, UserPage(flags, Zeros()))
  }

  /** No page of the tree lies in [lo, hi). */
  ghost predicate Vacant(view: View, root: nat, lo: nat, hi: nat) {
    forall s :: s in view && s.root == root ==> !(lo <= s.vpn < hi)
  }

  ghost predicate SameView(view: View, view': View) {
    && (forall s :: s in view' <==> s in view)
    && (forall s :: s in view ==> view'[s] == view[s])
  }

  /** uvmdealloc. */
  method UvmDealloc(vm: Vm, root: nat, oldsz: nat, newsz: nat) returns (r: nat)
    requires vm.Valid() && IsRoot(vm.role, root) && PagesOf(oldsz) <= TRAPFRAME
    modifies vm
    ensures vm.Valid() && IsRoot(vm.role, root)
    ensures r == if newsz >= oldsz then oldsz else newsz
    ensures var lo := PagesOf(r); var n := PagesOf(oldsz) - lo;
      && n >= 0
      && Released(old(vm.pages), old(vm.role), vm.pages, vm.role, root, lo, n)
      && Unmapped(old(vm.view), vm.view, root, lo, n)
    ensures |vm.free| >= |old(vm.free)|
  {
    if newsz >= oldsz { return oldsz; }
    if PagesOf(newsz) < PagesOf(oldsz) {
      vm.UvmUnmap(root, PagesOf(newsz), PagesOf(oldsz) - PagesOf(newsz), true);
      FreeMore(old(vm.free), old(vm.role), vm.free, vm.role);
    }
    return newsz;
  }

  /** One more page for a loop that began in state (p0, r0, v0) at page lo, or all its pages taken back. */
  method AddOrUndo(vm: Vm, root: nat, lo: nat, a: nat, p: UserPage, ghost p0: Pages, ghost r0: Roles, ghost v0: View,
                   ghost c: map<nat, UserPage>)
    returns (ok: bool, ghost c2: map<nat, UserPage>)
    requires vm.Valid() && IsRoot(vm.role, root) && lo <= a < TRAPFRAME && DataOk(p0, r0, v0) && |p.data| == PGSIZE
    requires Filled(p0, r0, v0, vm.pages, vm.role, vm.view, root, c) && forall v :: v in c ==> lo <= v < a
    requires Vacant(v0, root, lo, a + 1)
    modifies vm
    ensures vm.Valid() && IsRoot(vm.role, root)
    ensures ok ==> Filled(p0, r0, v0, vm.pages, vm.role, vm.view, root, c2) && c2 == c[a := p]
    ensures !ok ==> TablesGrew(p0, r0, vm.pages, vm.role, root) && SameView(v0, vm.view) && |old(vm.free)| < 3
    ensures ok ==> |vm.free| >= |old(vm.free)| - 3
  {
    c2 := c[a := p];
    ok := vm.AddNext(root, a, p, p0, r0, v0, c, c2);
    if !ok {
      Undo(vm, root, lo, a, p0, r0, v0, c);
    }
  }

  lemma FilledNone(pages: Pages, role: Roles, view: View, root: nat, lo: nat, hi: nat, p: UserPage)
    ensures Filled(pages, role, view, pages, role, view, root, Repeat(lo, lo, p))
    ensures hi <= lo ==> Repeat(lo, hi, p) == Repeat(lo, lo, p)
  {
  }

  /** uvmalloc's loop over the pages [lo, hi): all of them, or none and only page-table pages spent. */
  method AllocPages(vm: Vm, root: nat, lo: nat, hi: nat, p: UserPage) returns (ok: bool)
    requires vm.Valid() && IsRoot(vm.role, root) && hi <= TRAPFRAME && Vacant(vm.view, root, lo, TRAPFRAME)
             && |p.data| == PGSIZE
    modifies vm
    ensures vm.Valid() && IsRoot(vm.role, root)
    ensures ok ==> Filled(old(vm.pages), old(vm.role), old(vm.view), vm.pages, vm.role, vm.view, root,
                          Repeat(lo, hi, p))
    ensures !ok ==> TablesGrew(old(vm.pages), old(vm.role), vm.pages, vm.role, root) && SameView(old(vm.view), vm.view)
    ensures |old(vm.free)| >= 3 * (hi - lo) ==> ok
    ensures ok && lo <= hi ==> |vm.free| + 3 * (hi - lo) >= |old(vm.free)|
  {
    hide Vm.TreesOk, Filled, TablesGrew, SameView, DataOk, Repeat, IsRoot;
    ok := true;
    var a := lo;
    ghost var c := Repeat(lo, lo, p);
    FilledNone(vm.pages, vm.role, vm.view, root, lo, hi, p);
    while a < hi
      invariant lo <= a && vm.Valid() && IsRoot(vm.role, root) && (a <= hi || a == lo)
      invariant c == Repeat(lo, a, p)
      invariant Filled(old(vm.pages), old(vm.role), old(vm.view), vm.pages, vm.role, vm.view, root, c)
      invariant |vm.free| >= |old(vm.free)| - 3 * (a - lo)
    {
      RepeatMore(lo, a, p);
      ok, c := AddOrUndo(vm, root, lo, a, p, old(vm.pages), old(vm.role), old(vm.view), c);
      if !ok { return; }
      a := a + 1;
    }
  }

  /** uvmalloc. */
  method UvmAlloc(vm: Vm, root: nat, oldsz: nat, newsz: nat, flags: Flags) returns (ok: bool, r: nat)
    requires vm.Valid() && IsRoot(vm.role, root) && PagesOf(newsz) <= TRAPFRAME
    requires Vacant(vm.view, root, PagesOf(oldsz), TRAPFRAME)
    modifies vm
    ensures vm.Valid() && IsRoot(vm.role, root)
    ensures newsz < oldsz ==>
              ok && r == oldsz && vm.view == old(vm.view) && vm.role == old(vm.role) && vm.pages == old(vm.pages)
    ensures newsz >= oldsz && ok ==>
              r == newsz
              && Filled(old(vm.pages), old(vm.role), old(vm.view), vm.pages, vm.role, vm.view, root,
                        ZeroPages(PagesOf(oldsz), PagesOf(newsz), flags))
    ensures !ok ==> TablesGrew(old(vm.pages), old(vm.role), vm.pages, vm.role, root) && SameView(old(vm.view), vm.view)
    ensures |old(vm.free)| >= 3 * (PagesOf(newsz) - PagesOf(oldsz)) ==> ok
    ensures ok && newsz >= oldsz ==> |vm.free| + 3 * (PagesOf(newsz) - PagesOf(oldsz)) >= |old(vm.free)|
  {
    if newsz < oldsz { return true, oldsz; }
    ok := AllocPages(vm, root, PagesOf(oldsz), PagesOf(newsz), UserPage(flags, Zeros()));
    r := if ok then newsz else 0;
  }

  /** The error path of uvmalloc and uvmcopy: give back what the loop has mapped in [lo, a). */
  method Undo(vm: Vm, root: nat, lo: nat, a: nat, ghost p0: Pages, ghost r0: Roles, ghost v0: View, ghost c: map<nat,
              UserPage>)
    requires vm.Valid() && IsRoot(vm.role, root) && lo <= a <= TRAPFRAME && DataOk(p0, r0, v0)
    requires Filled(p0, r0, v0, vm.pages, vm.role, vm.view, root, c) && forall v :: v in c ==> lo <= v < a
    requires Vacant(v0, root, lo, a)
    modifies vm
    ensures vm.Valid() && IsRoot(vm.role, root)
    ensures TablesGrew(p0, r0, vm.pages, vm.role, root) && SameView(v0, vm.view)
  {
    ghost var pages1, role1, view1 := vm.pages, vm.role, vm.view;
    vm.UvmUnmap(root, lo, a - lo, true);
    FilledUndone(p0, r0, v0, pages1, role1, view1, vm.pages, vm.role, vm.view, root, c, lo, a - lo);
  }
}
