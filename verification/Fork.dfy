/** The memory side of fork (kernel/proc.c): proc_pagetable, kfork with uvmcopy, and what a failure gives back. */
module Fork {
  import opened Std
  import opened PageTable
  import opened VirtualMemory
  import opened Process
  import opened AddressSpace
  import opened UserMemory
  import opened Teardown

  /** A cleared frame that becomes the root of a new tree changes no view. */
  lemma NewRoot(pages: Pages, role: Roles, view: View, f: nat, pages': Pages, role': Roles)
    requires TreeOk(pages, role) && ViewOk(pages, role, view) && f in role && role[f] == Owned
    requires pages' == pages[f := Table(NoPtes())] && role' == role[f := TableOf(f, 2, 0, f)]
    ensures TreeOk(pages', role') && ViewOk(pages', role', view)
  {
    forall g | IsTable(role', g) ensures TableOk(pages', role', g) {
      if g != f {
        assert TableOk(pages, role, g);
        forall k | 0 <= k < ENTRIES ensures EntryOk(role', g, k, pages'[g].ptes[k]) {
          assert EntryOk(role, g, k, pages[g].ptes[k]);
        }
      }
    }
    forall r, v: nat | IsRoot(role', r) && Leaf(pages', r, v).valid ensures Slot(r, v) in view {
      if r != f {
        SameLeaf(pages, role, pages', r, v);
      }
    }
    forall s | s in view ensures SlotOk(pages', role', view, s) {
      assert SlotOk(pages, role, view, s);
      SameLeaf(pages, role, pages', s.root, s.vpn);
    }
  }

  /** uvmcreate; 0 is out of memory. */
  method UvmCreate(vm: Vm) returns (root: nat)
    requires vm.TreesOk()
    modifies vm`pages, vm`free, vm`role
    ensures vm.TreesOk() && (root == 0 <==> old(vm.free) == [])
    ensures root == 0 ==> vm.pages == old(vm.pages) && vm.free == old(vm.free) && vm.role == old(vm.role)
    ensures root != 0 ==>
              && root in old(vm.role) && old(vm.role)[root] == Free && IsRoot(vm.role, root)
                  && |vm.free| == |old(vm.free)| - 1
              && TablesGrew(old(vm.pages), old(vm.role), vm.pages, vm.role, root)
  {
    root := vm.Kalloc();
    if root == 0 { return; }
    NewRoot(vm.pages, vm.role, vm.view, root, vm.pages[root := Table(NoPtes())],
            vm.role[root := TableOf(root, 2, 0, root)]);
    vm.pages := vm.pages[root := Table(NoPtes())];
    vm.role := vm.role[root := TableOf(root, 2, 0, root)];
  }

  /** Entries from TRAPFRAME on back no user page. */
  lemma TopMapped(p0: Pages, r0: Roles, v0: View, p1: Pages, r1: Roles, v1: View, root: nat, vpn: nat, n: nat,
                  frame: nat, flags: Flags)
    requires DataOk(p0, r0, v0) && (forall g :: g in r0 <==> g in p0)
    requires TablesGrew(p0, r0, p1, r1, root) && Mapped(v0, v1, root, vpn, n, frame, flags) && vpn >= TRAPFRAME
    ensures DataOk(p1, r1, v1)
  {
    forall f | f in r1 && r1[f].DataOf? ensures DataFrameOk(p1, r1, v1, f) {
      assert DataFrameOk(p0, r0, v0, f);
    }
  }

  /** Every frame has the role it had, every frame in use its content unless it is a table, and every tree its view. */
  ghost predicate Restored(p0: Pages, r0: Roles, v0: View, p1: Pages, r1: Roles, v1: View) {
    && (forall f :: f in r1 <==> f in r0) && (forall f :: f in p1 <==> f in p0)
    && (forall f :: f in r0 ==> r1[f] == r0[f])
    && (forall f :: f in r0 && f in p0 && r0[f] != Free && !r0[f].TableOf? ==> p1[f] == p0[f])
    && SameView(v0, v1)
  }

  /** A frame that is free is the root of no tree. */
  lemma FreshRoot(pages: Pages, role: Roles, view: View, root: nat)
    requires TreeOk(pages, role) && ViewOk(pages, role, view) && DataOk(pages, role, view) && root in role
             && role[root] == Free
    ensures Empty(view, root) && forall f :: f in role ==> !OfTree(role[f], root)
  {
    forall s | s in view ensures s.root != root {
      assert SlotOk(pages, role, view, s);
    }
    forall f | f in role ensures !OfTree(role[f], root) {
      if role[f].TableOf? { assert TableOk(pages, role, f); }
      if role[f].DataOf? { assert DataFrameOk(pages, role, view, f); }
    }
  }

  /** Growing a new tree and reclaiming it is as if nothing had happened. */
  lemma GrewReclaimed(p0: Pages, r0: Roles, v0: View, p1: Pages, r1: Roles, v1: View, p2: Pages, r2: Roles, v2: View,
                      root: nat)
    requires (forall f :: f in r0 ==> !OfTree(r0[f], root)) && Empty(v0, root) && (forall g :: g in r0 <==> g in p0)
    requires TablesGrew(p0, r0, p1, r1, root) && Reclaimed(p1, r1, v1, p2, r2, v2, root)
    requires (forall s :: s in v0 ==> s in v1 && v1[s] == v0[s]) && (forall s :: s in v1 && s.root != root ==> s in v0)
    ensures Restored(p0, r0, v0, p2, r2, v2)
  {
  }

  // ---- proc_pagetable ----

  /** Since (p0, r0, v0) a new tree has grown out of free frames, with no user page yet. */
  ghost predicate Sprouted(p0: Pages, r0: Roles, v0: View, p1: Pages, r1: Roles, v1: View, root: nat) {
    && TablesGrew(p0, r0, p1, r1, root)
    && (forall s :: s in v0 ==> s in v1 && v1[s] == v0[s])
    && (forall s :: s in v1 ==> s in v0 || (s.root == root && s.vpn >= TRAPFRAME && !v1[s].flags.u))
  }

  lemma SproutedMapped(p0: Pages, r0: Roles, v0: View, p1: Pages, r1: Roles, v1: View, p2: Pages, r2: Roles, v2: View,
                       root: nat, vpn: nat, done: nat, frame: nat, flags: Flags)
    requires Sprouted(p0, r0, v0, p1, r1, v1, root) && TablesGrew(p1, r1, p2, r2, root) && vpn >= TRAPFRAME && !flags.u
             && done <= 1
    requires Mapped(v1, v2, root, vpn, done, frame, flags) && Slot(root, vpn) !in v1
    ensures Sprouted(p0, r0, v0, p2, r2, v2, root)
    ensures SameView(if done == 1 then v1[Slot(root, vpn) := Pte(true, frame, flags)] else v1, v2)
  {
    GrewTransitive(p0, r0, p1, r1, p2, r2, root);
  }

  /** mappages of TRAMPOLINE or TRAPFRAME in the new tree. */
  method MapTop(vm: Vm, root: nat, vpn: nat, frame: nat, flags: Flags, ghost p0: Pages, ghost r0: Roles,
                ghost v0: View) returns (ok: bool)
    requires vm.Valid() && IsRoot(vm.role, root) && TRAPFRAME <= vpn < NPAGES && Slot(root, vpn) !in vm.view && !flags.u
    requires Sprouted(p0, r0, v0, vm.pages, vm.role, vm.view, root)
    modifies vm
    ensures vm.Valid() && IsRoot(vm.role, root) && Sprouted(p0, r0, v0, vm.pages, vm.role, vm.view, root)
    ensures ok ==> SameView(old(vm.view)[Slot(root, vpn) := Pte(true, frame, flags)], vm.view)
    ensures !ok ==> SameView(old(vm.view), vm.view)
    ensures |vm.free| >= |old(vm.free)| - 2 && (|old(vm.free)| >= 2 ==> ok)
  {
    hide ViewOk, FreeOk, DataOk, Sprouted, TablesGrew;
    ghost var p1, r1, v1 := vm.pages, vm.role, vm.view;
    var done := vm.MapPages(root, vpn, 1, frame, flags);
    TopMapped(p1, r1, v1, vm.pages, vm.role, vm.view, root, vpn, done, frame, flags);
    SproutedMapped(p0, r0, v0, p1, r1, v1, vm.pages, vm.role, vm.view, root, vpn, done, frame, flags);
    GrewRoot(p1, r1, vm.pages, vm.role, root);
    ok := done == 1;
  }

  lemma SproutedDropped(p0: Pages, r0: Roles, v0: View, p1: Pages, r1: Roles, v1: View, p2: Pages, r2: Roles, v2: View,
                        root: nat)
    requires Sprouted(p0, r0, v0, p1, r1, v1, root) && Empty(v0, root) && DataOk(p1, r1, v1)
    requires Released(p1, r1, p2, r2, root, TRAMPOLINE, 1) && Unmapped(v1, v2, root, TRAMPOLINE, 1)
    ensures Sprouted(p0, r0, v0, p2, r2, v2, root)
  {
    TopUnmapped(p1, r1, v1, p2, r2, v2, root, TRAMPOLINE);
  }

  lemma SproutedGone(p0: Pages, r0: Roles, v0: View, p1: Pages, r1: Roles, v1: View, p2: Pages, r2: Roles, v2: View,
                     root: nat)
    requires (forall f :: f in r0 ==> !OfTree(r0[f], root)) && Empty(v0, root) && (forall g :: g in r0 <==> g in p0)
    requires Sprouted(p0, r0, v0, p1, r1, v1, root) && Reclaimed(p1, r1, v1, p2, r2, v2, root)
    ensures Restored(p0, r0, v0, p2, r2, v2)
  {
    GrewReclaimed(p0, r0, v0, p1, r1, v1, p2, r2, v2, root);
  }

  /** What proc_pagetable returns: a tree of free frames with the two top pages and nothing else. */
  ghost predicate FreshTree(p0: Pages, r0: Roles, v0: View, p1: Pages, r1: Roles, v1: View, root: nat, trampoline: nat,
                            trapframe: nat) {
    && root in r0 && r0[root] == Free && IsRoot(r1, root) && Sprouted(p0, r0, v0, p1, r1, v1, root)
    && Slot(root, TRAMPOLINE) in v1
        && v1[Slot(root, TRAMPOLINE)] == Pte(true, trampoline, Flags(true, false, true, false))
    && Slot(root, TRAPFRAME) in v1 && v1[Slot(root, TRAPFRAME)] == Pte(true, trapframe, Flags(true, true, false, false))
  }

  /** proc_pagetable: a fresh tree, or 0 and no frame lost. */
  method ProcPagetable(vm: Vm, trampoline: nat, trapframe: nat) returns (root: nat)
    requires vm.Valid()
    modifies vm
    ensures vm.Valid()
    ensures root != 0 ==>
              FreshTree(old(vm.pages), old(vm.role), old(vm.view), vm.pages, vm.role, vm.view, root, trampoline,
                        trapframe)
    ensures root == 0 ==> Restored(old(vm.pages), old(vm.role), old(vm.view), vm.pages, vm.role, vm.view)
    ensures |old(vm.free)| >= 5 ==> root != 0 && |vm.free| >= |old(vm.free)| - 5
  {
    ghost var p0, r0, v0 := vm.pages, vm.role, vm.view;
    root := UvmCreate(vm);
    if root == 0 { return; }
    StillDataOk(p0, r0, v0, vm.pages, vm.role, root);
    FreshRoot(p0, r0, v0, root);
    assert Sprouted(p0, r0, v0, vm.pages, vm.role, vm.view, root);
    root := MapTops(vm, root, trampoline, trapframe, p0, r0, v0);
  }

  method MapTops(vm: Vm, root: nat, trampoline: nat, trapframe: nat, ghost p0: Pages, ghost r0: Roles, ghost v0: View)
    returns (r: nat)
    requires vm.Valid() && IsRoot(vm.role, root) && root != 0 && root in r0 && r0[root] == Free && Empty(vm.view, root)
    requires (forall f :: f in r0 ==> !OfTree(r0[f], root)) && Empty(v0, root) && (forall g :: g in r0 <==> g in p0)
    requires Sprouted(p0, r0, v0, vm.pages, vm.role, vm.view, root)
    modifies vm
    ensures vm.Valid()
    ensures r != 0 ==> r == root && FreshTree(p0, r0, v0, vm.pages, vm.role, vm.view, root, trampoline, trapframe)
    ensures r == 0 ==> Restored(p0, r0, v0, vm.pages, vm.role, vm.view)
    ensures |old(vm.free)| >= 4 ==> r != 0 && |vm.free| >= |old(vm.free)| - 4
  {
    hide ViewOk, FreeOk, DataOk, TreeOk, Sprouted, Reclaimed, Restored, Released, IsRoot;
    r := 0;
    ghost var p1, r1, v1;
    var ok := MapTop(vm, root, TRAMPOLINE, trampoline, Flags(true, false, true, false), p0, r0, v0);
    if !ok {
      p1, r1, v1 := vm.pages, vm.role, vm.view;
      UvmFree(vm, root, 0);
      SproutedGone(p0, r0, v0, p1, r1, v1, vm.pages, vm.role, vm.view, root);
      return;
    }
    ok := MapTop(vm, root, TRAPFRAME, trapframe, Flags(true, true, false, false), p0, r0, v0);
    if !ok {
      p1, r1, v1 := vm.pages, vm.role, vm.view;
      vm.UvmUnmap(root, TRAMPOLINE, 1, false);
      SproutedDropped(p0, r0, v0, p1, r1, v1, vm.pages, vm.role, vm.view, root);
      p1, r1, v1 := vm.pages, vm.role, vm.view;
      UvmFree(vm, root, 0);
      SproutedGone(p0, r0, v0, p1, r1, v1, vm.pages, vm.role, vm.view, root);
      return;
    }
    r := root;
  }

  // ---- kfork ----

  /** A trapframe taken and given back around a restored state. */
  lemma RestoredAround(p0: Pages, r0: Roles, v0: View, p1: Pages, r1: Roles, v1: View, tf: nat)
    requires tf in r0 && r0[tf] == Free && (forall g :: g in r0 <==> g in p0)
    requires Restored(p0[tf := Junk], r0[tf := Owned], v0, p1, r1, v1)
    ensures tf in r1 && r1[tf] == Owned && Restored(p0, r0, v0, p1[tf := Junk], r1[tf := Free], v1)
  {
    assert r0[tf := Owned].Keys == r0.Keys && p0[tf := Junk].Keys == p0.Keys;
  }

  /** uvmcopy into the fresh tree: either its pages are there, or the tree is as fresh as before. */
  lemma SproutedGrew(p0: Pages, r0: Roles, v0: View, p1: Pages, r1: Roles, v1: View, p2: Pages, r2: Roles, v2: View,
                     root: nat)
    requires Sprouted(p0, r0, v0, p1, r1, v1, root) && TablesGrew(p1, r1, p2, r2, root) && SameView(v1, v2)
    ensures Sprouted(p0, r0, v0, p2, r2, v2, root)
  {
    GrewTransitive(p0, r0, p1, r1, p2, r2, root);
  }

  /** A tree whose entries and data frames are untouched shows the same memory. */
  lemma MemSame(p0: Pages, r0: Roles, v0: View, p1: Pages, v1: View, r: nat)
    requires DataOk(p0, r0, v0)
    requires forall f :: f in r0 && r0[f].DataOf? && r0[f].root == r && f in p0 ==> f in p1 && p1[f] == p0[f]
    requires forall v: nat :: Slot(r, v) in v1 <==> Slot(r, v) in v0
    requires forall v: nat :: Slot(r, v) in v0 ==> v1[Slot(r, v)] == v0[Slot(r, v)]
    ensures UserMem(p1, v1, r) == UserMem(p0, v0, r)
  {
    forall v: nat | v < TRAPFRAME
      ensures HasPage(p1, v1, r, v) <==> HasPage(p0, v0, r, v)
      ensures HasPage(p0, v0, r, v) ==> PageAt(p1, v1, r, v) == PageAt(p0, v0, r, v)
    {
      MappedIsMem(p0, r0, v0, r, v);
    }
    MapsEqual(UserMem(p1, v1, r), UserMem(p0, v0, r), map[]);
  }

  /** A new tree without user pages leaves all memory as it was. */
  lemma SproutedOthers(p0: Pages, r0: Roles, v0: View, p2: Pages, r2: Roles, v2: View, root: nat)
    requires DataOk(p0, r0, v0) && (forall g :: g in r0 <==> g in p0) && Empty(v0, root)
    requires Sprouted(p0, r0, v0, p2, r2, v2, root)
    ensures OthersSame(p0, r0, v0, p2, r2, v2, root)
    ensures Vacant(v2, root, 0, TRAPFRAME) && TopOk(v2, root) && UserMem(p2, v2, root) == map[]
  {
    forall r: nat ensures r != root ==> UserMem(p2, v2, r) == UserMem(p0, v0, r) {
      if r != root { MemSame(p0, r0, v0, p2, v2, r); }
    }
    forall v: nat ensures v !in UserMem(p2, v2, root) {
    }
  }

  /** Taking a frame for the kernel changes no memory. */
  lemma TakenMem(p0: Pages, r0: Roles, v0: View, tf: nat, r: nat)
    requires DataOk(p0, r0, v0) && (forall g :: g in r0 <==> g in p0) && tf in r0 && !r0[tf].DataOf?
    ensures UserMem(p0[tf := Junk], v0, r) == UserMem(p0, v0, r)
  {
    MemSame(p0, r0, v0, p0[tf := Junk], v0, r);
  }

  lemma TakenSprouted(p0: Pages, r0: Roles, v0: View, p2: Pages, r2: Roles, v2: View, root: nat, tf: nat)
    requires DataOk(p0, r0, v0) && (forall g :: g in r0 <==> g in p0) && Empty(v0, root) && tf in r0 && r0[tf] == Free
    requires Sprouted(p0[tf := Junk], r0[tf := Owned], v0, p2, r2, v2, root)
    ensures Vacant(v2, root, 0, TRAPFRAME) && TopOk(v2, root) && tf in r2 && r2[tf] == Owned
  {
    TakenDataOk(p0, r0, v0, tf, Owned);
    assert r0[tf := Owned].Keys == r0.Keys && p0[tf := Junk].Keys == p0.Keys;
    SproutedOthers(p0[tf := Junk], r0[tf := Owned], v0, p2, r2, v2, root);
  }

  lemma SproutedBack(p0: Pages, r0: Roles, v0: View, p1: Pages, r1: Roles, v1: View, root: nat, tf: nat)
    requires (forall g :: g in r0 <==> g in p0) && tf in r0 && r0[tf] == Free
    requires Sprouted(p0[tf := Junk], r0[tf := Owned], v0, p1, r1, v1, root)
    ensures tf in r1 && r1[tf] == Owned && Sprouted(p0, r0, v0, p1[tf := Junk], r1[tf := Free], v1, root)
  {
    assert r0[tf := Owned].Keys == r0.Keys && p0[tf := Junk].Keys == p0.Keys;
  }

  lemma TakenDataOk(pages: Pages, role: Roles, view: View, f: nat, r: Role)
    requires DataOk(pages, role, view) && f in role && !role[f].DataOf? && !r.DataOf?
             && (forall g :: g in role <==> g in pages)
    ensures DataOk(pages[f := Junk], role[f := r], view)
  {
    var pages', role' := pages[f := Junk], role[f := r];
    forall g | g in role' && role'[g].DataOf? ensures DataFrameOk(pages', role', view, g) {
      assert DataFrameOk(pages, role, view, g);
    }
  }

  /** The child has the parent's pages and nothing else, on a tree of its own. */
  lemma CopiedChild(m: map<nat, UserPage>, n: nat, c: map<nat, UserPage>)
    requires PagesBelow(m, n, c) && forall v :: v in m ==> v < n
    ensures map[] + c == m
  {
  }

  lemma ChildOk(v2: View, v3: View, root: nat, n: nat, c: map<nat, UserPage>)
    requires Vacant(v2, root, 0, TRAPFRAME) && TopOk(v2, root)
    requires (forall s :: s in v2 ==> s in v3 && v3[s] == v2[s])
             && (forall s :: s in v3 ==> s in v2 || (s.root == root && s.vpn in c))
    requires forall v :: v in c ==> v < n <= TRAPFRAME
    ensures Vacant(v3, root, n, TRAPFRAME) && TopOk(v3, root)
  {
  }

  /** The parent keeps its memory, and the child has a copy of it on frames that were free, and a trapframe. */
  ghost predicate Forked(p0: Pages, r0: Roles, v0: View, p1: Pages, r1: Roles, v1: View, parent: nat, child: nat,
                         tf: nat) {
    && child in r0 && r0[child] == Free && IsRoot(r1, child) && TopOk(v1, child)
    && tf in r0 && r0[tf] == Free && tf != child
    && OthersSame(p0[tf := Junk], r0[tf := Owned], v0, p1, r1, v1, child)
    && UserMem(p1, v1, child) == UserMem(p0, v0, parent)
  }

  /** uvmcopy into the fresh tree succeeded. */
  lemma CopySucceeded(p0: Pages, r0: Roles, v0: View, p2: Pages, r2: Roles, v2: View, p3: Pages, r3: Roles, v3: View,
                      parent: nat, root: nat, tf: nat, n: nat, c: map<nat, UserPage>)
    requires DataOk(p0, r0, v0) && (forall g :: g in r0 <==> g in p0) && Empty(v0, root) && tf in r0 && r0[tf] == Free
             && tf != root
    requires root in r0 && r0[root] == Free && IsRoot(r3, root) && parent != root && n <= TRAPFRAME
    requires Sprouted(p0[tf := Junk], r0[tf := Owned], v0, p2, r2, v2, root) && DataOk(p2, r2, v2)
             && (forall g :: g in r2 <==> g in p2)
    requires Filled(p2, r2, v2, p3, r3, v3, root, c) && PagesBelow(UserMem(p2, v2, parent), n, c)
    requires forall v :: v in UserMem(p0, v0, parent) ==> v < n
    ensures Forked(p0, r0, v0, p3, r3, v3, parent, root, tf) && Vacant(v3, root, n, TRAPFRAME)
  {
    var p1, r1 := p0[tf := Junk], r0[tf := Owned];
    TakenDataOk(p0, r0, v0, tf, Owned);
    assert forall g :: g in r1 <==> g in p1;
    SproutedOthers(p1, r1, v0, p2, r2, v2, root);
    TakenMem(p0, r0, v0, tf, parent);
    hide UserMem, DataOk;
    assert forall v :: v in c ==> v < TRAPFRAME && Slot(root, v) !in v2;
    FilledOthers(p2, r2, v2, p3, r3, v3, root, c);
    OthersTransitive(p1, r1, v0, p2, r2, v2, p3, r3, v3, root);
    CopiedChild(UserMem(p0, v0, parent), n, c);
    ChildOk(v2, v3, root, n, c);
  }

  /** uvmcopy failed: freeproc gives back the trapframe and the tree. */
  method GiveBack(vm: Vm, root: nat, tf: nat, ghost p0: Pages, ghost r0: Roles, ghost v0: View)
    requires vm.Valid() && IsRoot(vm.role, root) && DataOk(p0, r0, v0) && (forall g :: g in r0 <==> g in p0)
    requires (forall f :: f in r0 ==> !OfTree(r0[f], root)) && Empty(v0, root) && tf in r0 && r0[tf] == Free
    requires Sprouted(p0[tf := Junk], r0[tf := Owned], v0, vm.pages, vm.role, vm.view, root)
    modifies vm
    ensures vm.Valid() && Restored(p0, r0, v0, vm.pages, vm.role, vm.view)
  {
    hide FreeOk, ViewOk, DataOk, Sprouted, Reclaimed, Restored;
    SproutedBack(p0, r0, v0, vm.pages, vm.role, vm.view, root, tf);
    TakenSprouted(p0, r0, v0, vm.pages, vm.role, vm.view, root, tf);
    TakenDataOk(vm.pages, vm.role, vm.view, tf, Free);
    vm.Kfree(tf);
    ghost var p1, r1, v1 := vm.pages, vm.role, vm.view;
    FreePagetable(vm, root, 0);
    SproutedGone(p0, r0, v0, p1, r1, v1, vm.pages, vm.role, vm.view, root);
  }

  lemma RootStays(p0: Pages, r0: Roles, v0: View, p1: Pages, r1: Roles, v1: View, root: nat, tf: nat, r: nat)
    requires Sprouted(p0[tf := Junk], r0[tf := Owned], v0, p1, r1, v1, root) && tf in r0 && r0[tf] == Free
             && IsRoot(r0, r)
    ensures IsRoot(r1, r)
  {
  }

  /** allocproc's trapframe and page table: the trapframe's frame and the root, or 0 and all frames as before. */
  method NewTree(vm: Vm, trampoline: nat) returns (tf: nat, root: nat)
    requires vm.Valid()
    modifies vm
    ensures vm.Valid()
    ensures root == 0 ==> Restored(old(vm.pages), old(vm.role), old(vm.view), vm.pages, vm.role, vm.view)
    ensures root != 0 ==>
              && tf in old(vm.role) && old(vm.role)[tf] == Free && root != tf
              && FreshTree(old(vm.pages)[tf := Junk], old(vm.role)[tf := Owned], old(vm.view), vm.pages, vm.role,
                           vm.view, root, trampoline, tf)
    ensures |old(vm.free)| >= 6 ==> root != 0 && |vm.free| >= |old(vm.free)| - 6
  {
    ghost var p0, r0, v0 := vm.pages, vm.role, vm.view;
    root := 0;
    tf := vm.Kalloc();
    if tf == 0 { return; }
    hide FreeOk, ViewOk, DataOk, FreshTree, Restored;
    TakenDataOk(p0, r0, v0, tf, Owned);
    root := ProcPagetable(vm, trampoline, tf);
    if root == 0 {
      RestoredAround(p0, r0, v0, vm.pages, vm.role, vm.view, tf);
      TakenDataOk(vm.pages, vm.role, vm.view, tf, Free);
      vm.Kfree(tf);
    } else {
      FreshIsNot(p0, r0, v0, vm.pages, vm.role, vm.view, root, trampoline, tf);
    }
  }

  lemma FreshIsNot(p0: Pages, r0: Roles, v0: View, p1: Pages, r1: Roles, v1: View, root: nat, trampoline: nat, tf: nat)
    requires tf in r0 && FreshTree(p0[tf := Junk], r0[tf := Owned], v0, p1, r1, v1, root, trampoline, tf)
    ensures root != tf && root in r0 && r0[root] == Free
  {
  }

  /** kfork, as far as memory goes: a child with the parent's pages, or no child and every frame as before. */
  method Kfork(vm: Vm, p: Proc, trampoline: nat) returns (child: Option<Proc>)
    requires vm.Valid() && ProcOk(vm, p)
    modifies vm
    ensures vm.Valid() && ProcOk(vm, p)
    ensures child.Some? ==>
              && fresh(child.value) && child.value.sz == p.sz && !child.value.killed && ProcOk(vm, child.value)
              && Forked(old(vm.pages), old(vm.role), old(vm.view), vm.pages, vm.role, vm.view,
                        p.root, child.value.root, child.value.tf)
    ensures child.None? ==> Restored(old(vm.pages), old(vm.role), old(vm.view), vm.pages, vm.role, vm.view)
    ensures |old(vm.free)| >= 3 * PagesOf(p.sz) + 6 ==> child.Some?
    ensures |vm.free| + 3 * PagesOf(p.sz) + 6 >= |old(vm.free)|
  {
    ghost var p0, r0, v0 := vm.pages, vm.role, vm.view;
    var tf, root := NewTree(vm, trampoline);
    if root == 0 { return None; }
    FreshIsNot(p0, r0, v0, vm.pages, vm.role, vm.view, root, trampoline, tf);
    FreshRoot(p0, r0, v0, root);
    child := CopyInto(vm, p, root, tf, p0, r0, v0);
  }

  /** kfork from uvmcopy on. */
  method CopyInto(vm: Vm, p: Proc, root: nat, tf: nat, ghost p0: Pages, ghost r0: Roles, ghost v0: View)
    returns (child: Option<Proc>)
    requires vm.Valid() && IsRoot(vm.role, root) && TreeOk(p0, r0) && DataOk(p0, r0, v0) && root in r0
             && r0[root] == Free
    requires (forall f :: f in r0 ==> !OfTree(r0[f], root)) && Empty(v0, root) && tf in r0 && r0[tf] == Free
    requires ProcFits(r0, v0, p.root, p.sz, p.tf) && tf != root
    requires Sprouted(p0[tf := Junk], r0[tf := Owned], v0, vm.pages, vm.role, vm.view, root)
    modifies vm
    ensures vm.Valid() && ProcOk(vm, p)
    ensures child.Some? ==>
              && fresh(child.value) && child.value.sz == p.sz && !child.value.killed && ProcOk(vm, child.value)
              && child.value.root == root && child.value.tf == tf
                  && Forked(p0, r0, v0, vm.pages, vm.role, vm.view, p.root, root, tf)
    ensures child.None? ==> Restored(p0, r0, v0, vm.pages, vm.role, vm.view)
    ensures |old(vm.free)| >= 3 * PagesOf(p.sz) ==> child.Some?
    ensures |vm.free| + 3 * PagesOf(p.sz) >= |old(vm.free)|
  {
    hide FreeOk, ViewOk, DataOk, Sprouted, Forked, Filled, PagesBelow, UserMem, TablesGrew, Restored;
    ghost var p2, r2, v2 := vm.pages, vm.role, vm.view;
    TakenSprouted(p0, r0, v0, p2, r2, v2, root, tf);
    RootStays(p0, r0, v0, p2, r2, v2, root, tf, p.root);
    PagesMonotone(p.sz, p.sz);
    ParentPages(p0, r0, v0, p.root, PagesOf(p.sz));
    var ok;
    ghost var c;
    ok, c := UvmCopy(vm, p.root, root, p.sz);
    if ok {
      CopySucceeded(p0, r0, v0, p2, r2, v2, vm.pages, vm.role, vm.view, p.root, root, tf, PagesOf(p.sz), c);
      ForkedFits(p0, r0, v0, vm.pages, vm.role, vm.view, p.root, root, tf, p.root, p.sz, p.tf);
      ForkedChild(p0, r0, v0, vm.pages, vm.role, vm.view, p.root, root, tf);
      var q := new Proc(root, p.sz, tf);
      child := Some(q);
    } else {
      SproutedGrew(p0[tf := Junk], r0[tf := Owned], v0, p2, r2, v2, vm.pages, vm.role, vm.view, root);
      GiveBack(vm, root, tf, p0, r0, v0);
      RestoredFits(p0, r0, v0, vm.pages, vm.role, vm.view, p.root, p.sz, p.tf);
      child := None;
    }
  }

  lemma ParentPages(pages: Pages, role: Roles, view: View, root: nat, n: nat)
    requires DataOk(pages, role, view) && Vacant(view, root, n, TRAPFRAME)
    ensures forall v :: v in UserMem(pages, view, root) ==> v < n
  {
    forall v | v in UserMem(pages, view, root) ensures v < n {
      assert Slot(root, v) in view;
    }
  }

  /** The parent and every other process are in order after a fork. */
  lemma ForkedFits(p0: Pages, r0: Roles, v0: View, p1: Pages, r1: Roles, v1: View, parent: nat, child: nat, tf: nat,
                   r: nat, sz: nat, t: nat)
    requires Forked(p0, r0, v0, p1, r1, v1, parent, child, tf) && ProcFits(r0, v0, r, sz, t)
    ensures r != child && t != tf && ProcFits(r1, v1, r, sz, t)
  {
    OthersFit(p0[tf := Junk], r0[tf := Owned], v0, p1, r1, v1, child, r, sz, t);
  }

  lemma ForkedChild(p0: Pages, r0: Roles, v0: View, p1: Pages, r1: Roles, v1: View, parent: nat, child: nat, tf: nat)
    requires Forked(p0, r0, v0, p1, r1, v1, parent, child, tf)
    ensures IsRoot(r1, child) && TopOk(v1, child) && tf in r1 && r1[tf] == Owned
  {
  }

  lemma RestoredFits(p0: Pages, r0: Roles, v0: View, p1: Pages, r1: Roles, v1: View, r: nat, sz: nat, tf: nat)
    requires Restored(p0, r0, v0, p1, r1, v1) && ProcFits(r0, v0, r, sz, tf)
    ensures ProcFits(r1, v1, r, sz, tf)
  {
  }
}
