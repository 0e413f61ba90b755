/** The end of a page table: freewalk and uvmfree (kernel/vm.c), proc_freepagetable (kernel/proc.c). */
module Teardown {
  import opened Std
  import opened PageTable
  import opened VirtualMemory
  import opened Process

  // ---- Subtrees ----

  /** Table r lies in the subtree of table t, t included. */
  ghost predicate Under(t: Role, r: Role)
    requires t.TableOf?
  {
    r.TableOf? && r.root == t.root && r.level <= t.level <= 2 &&
    (if r.level == t.level then r.pre == t.pre
     else if r.level + 1 == t.level then r.pre / 512 == t.pre
     else r.pre / 512 / 512 == t.pre)
  }

  /** Table r lies in the subtree of one of the first n entries of t. */
  ghost predicate UnderFirst(t: Role, n: nat, r: Role)
    requires t.TableOf?
  {
    r.TableOf? && r.level < t.level && Under(t, r) &&
    (if r.level + 1 == t.level then r.pre % 512 < n else r.pre / 512 % 512 < n)
  }

  lemma UnderNext(t: Role, n: nat, parent: nat, r: Role)
    requires t.TableOf? && 0 < t.level <= 2 && n < ENTRIES
    ensures UnderFirst(t, n + 1, r)
            <==> UnderFirst(t, n, r) || Under(TableOf(t.root, t.level - 1, t.pre * 512 + n, parent), r)
  {
  }

  lemma UnderAll(t: Role, r: Role)
    requires t.TableOf? && t.level <= 2
    ensures Under(t, r) <==> UnderFirst(t, ENTRIES, r)
                             || (r.TableOf? && r.root == t.root && r.level == t.level && r.pre == t.pre)
  {
  }

  /** Everything in the tree lies under its root. */
  lemma UnderRoot(pages: Pages, role: Roles, f: nat)
    requires TreeOk(pages, role) && IsTable(role, f)
    ensures IsTable(role, role[f].root) && Under(role[role[f].root], role[f]) && role[role[f].root].level == 2
    ensures role[f].pre < (if role[f].level == 2 then 1 else if role[f].level == 1 then 256 else 131072)
  {
    assert TableOk(pages, role, f);
    if role[f].level < 2 {
      var g := role[f].parent;
      assert TableOk(pages, role, g);
      if role[g].level < 2 {
        assert TableOk(pages, role, role[g].parent);
      }
    }
  }

  /** A table is determined by its tree and its place there. */
  lemma OneTable(pages: Pages, role: Roles, f: nat, g: nat)
    requires TreeOk(pages, role) && IsTable(role, f) && IsTable(role, g)
    requires role[f].root == role[g].root && role[f].level == role[g].level && role[f].pre == role[g].pre
    ensures f == g
    decreases 2 - role[f].level
  {
    assert TableOk(pages, role, f) && TableOk(pages, role, g);
    if role[f].level < 2 {
      OneTable(pages, role, role[f].parent, role[g].parent);
    }
  }

  /** Below an invalid entry there is no table. */
  lemma NoneBelow(pages: Pages, role: Roles, t: nat, n: nat, f: nat)
    requires TreeOk(pages, role) && IsTable(role, t) && IsTable(role, f) && n < ENTRIES && 0 < role[t].level <= 2
    requires TableOk(pages, role, t) && !pages[t].ptes[n].valid
    ensures UnderFirst(role[t], n + 1, role[f]) <==> UnderFirst(role[t], n, role[f])
  {
    if UnderFirst(role[t], n + 1, role[f]) && !UnderFirst(role[t], n, role[f]) {
      assert TableOk(pages, role, f);
      var g := if role[f].level + 1 == role[t].level then f else role[f].parent;
      assert TableOk(pages, role, g);
      assert TableOk(pages, role, role[g].parent);
      OneTable(pages, role, role[g].parent, t);
    }
  }

  // ---- Taking one table out ----

  /** The memory after *pte = 0 for entry i of table f. */
  ghost function Zeroed(pages: Pages, f: nat, i: nat): Pages {
    if f in pages && pages[f].Table? && |pages[f].ptes| == ENTRIES && i < ENTRIES
    then pages[f := Table(pages[f].ptes[i := NOPTE])] else pages
  }

  /** The memory once table t is free and its parent's entry zero; a root has no parent. */
  ghost function Cut(pages: Pages, role: Roles, t: nat): Pages
    requires IsTable(role, t)
  {
    if role[t].level == 2 then pages else Zeroed(pages, role[t].parent, role[t].pre % 512)
  }

  ghost predicate NoEntries(pages: Pages, t: nat) {
    t in pages && pages[t].Table? && forall i :: 0 <= i < |pages[t].ptes| ==> !pages[t].ptes[i].valid
  }

  /** A table with no valid entry is nobody's parent. */
  lemma NoChild(pages: Pages, role: Roles, t: nat, f: nat)
    requires TreeOk(pages, role) && IsTable(role, t) && NoEntries(pages, t) && IsTable(role, f)
    ensures role[f].level < 2 ==> role[f].parent != t
    ensures role[t].level == 2 && f != t ==> role[f].root != t
  {
    assert TableOk(pages, role, f);
    if role[f].level < 2 {
      var g := role[f].parent;
      assert TableOk(pages, role, g);
      if role[g].level < 2 { assert TableOk(pages, role, role[g].parent); }
    }
  }

  lemma CutTable(pages: Pages, role: Roles, t: nat, pages': Pages, role': Roles, f: nat)
    requires TreeOk(pages, role) && IsTable(role, t) && NoEntries(pages, t)
    requires pages' == Cut(pages[t := Junk], role, t) && role' == role[t := Free]
    requires IsTable(role', f)
    ensures TableOk(pages', role', f)
  {
    assert TableOk(pages, role, f) && TableOk(pages, role, t);
    NoChild(pages, role, t, f);
    forall k | 0 <= k < ENTRIES ensures EntryOk(role', f, k, pages'[f].ptes[k]) {
      assert EntryOk(role, f, k, pages[f].ptes[k]);
    }
  }

  /** The walks of a tree pass by the loss of an empty table, or end at the zeroed entry. */
  lemma CutLeaf(pages: Pages, role: Roles, t: nat, pages': Pages, r: nat, v: nat)
    requires TreeOk(pages, role) && IsTable(role, t) && NoEntries(pages, t) && IsRoot(role, r) && r != t && v < NPAGES
    requires pages' == Cut(pages[t := Junk], role, t)
    ensures Leaf(pages', r, v) == Leaf(pages, r, v) || !Leaf(pages', r, v).valid
    ensures role[t].root != r ==> Leaf(pages', r, v) == Leaf(pages, r, v)
  {
    assert TableOk(pages, role, t) && TableOk(pages, role, r);
    var e := pages[r].ptes[Px(2, v)];
    assert EntryOk(role, r, Px(2, v), e);
    if e.valid {
      assert TableOk(pages, role, e.frame);
      var e' := pages[e.frame].ptes[Px(1, v)];
      assert EntryOk(role, e.frame, Px(1, v), e');
      if e'.valid { assert TableOk(pages, role, e'.frame); }
    }
  }

  /** Freeing an empty table of a tree without pages, and zeroing its parent's entry, keeps all trees in order. */
  lemma CutOk(pages: Pages, role: Roles, view: View, t: nat, pages': Pages, role': Roles)
    requires TreeOk(pages, role) && ViewOk(pages, role, view) && IsTable(role, t) && NoEntries(pages, t)
    requires forall s :: s in view ==> s.root != role[t].root
    requires pages' == Cut(pages[t := Junk], role, t) && role' == role[t := Free]
    ensures TreeOk(pages', role') && ViewOk(pages', role', view)
  {
    assert TableOk(pages, role, t);
    forall f | IsTable(role', f) ensures TableOk(pages', role', f) {
      CutTable(pages, role, t, pages', role', f);
    }
    forall r, v: nat | IsRoot(role', r) && Leaf(pages', r, v).valid ensures Slot(r, v) in view {
      CutLeaf(pages, role, t, pages', r, v);
      assert Leaf(pages, r, v).valid;
    }
    forall s | s in view ensures SlotOk(pages', role', view, s) {
      assert SlotOk(pages, role, view, s);
      CutLeaf(pages, role, t, pages', s.root, s.vpn);
    }
  }

  // ---- freewalk ----

  /** The subtrees of the first n entries of table t have become free, and those entries zero. */
  ghost predicate Pruned(p0: Pages, r0: Roles, p1: Pages, r1: Roles, t: nat, n: nat) {
    && IsTable(r0, t)
    && (forall f :: f in r1 <==> f in r0) && (forall f :: f in p1 <==> f in p0)
    && (forall f :: f in r0 ==> r1[f] == if UnderFirst(r0[t], n, r0[f]) then Free else r0[f])
    && (forall f :: f in r0 && f in p0 && f != t && !UnderFirst(r0[t], n, r0[f]) ==> p1[f] == p0[f])
    && t in p0 && p0[t].Table? && |p0[t].ptes| == ENTRIES && p1[t].Table? && |p1[t].ptes| == ENTRIES
    && (forall k :: 0 <= k < ENTRIES ==> if k < n then !p1[t].ptes[k].valid else p1[t].ptes[k] == p0[t].ptes[k])
  }

  /** The whole subtree of table t has become free. */
  ghost predicate Gone(p0: Pages, r0: Roles, p1: Pages, r1: Roles, t: nat) {
    && IsTable(r0, t)
    && (forall f :: f in r1 <==> f in r0) && (forall f :: f in p1 <==> f in p0)
    && (forall f :: f in r0 ==> r1[f] == if Under(r0[t], r0[f]) then Free else r0[f])
    && (forall f :: f in r0 && f in p0 && !Under(r0[t], r0[f]) ==> p1[f] == p0[f])
  }

  lemma PrunedNone(p0: Pages, r0: Roles, t: nat)
    requires TreeOk(p0, r0) && IsTable(r0, t)
    ensures Pruned(p0, r0, p0, r0, t, 0)
  {
    assert TableOk(p0, r0, t);
  }

  /** An invalid entry has no subtree. */
  lemma PrunedSkip(p0: Pages, r0: Roles, p1: Pages, r1: Roles, t: nat, n: nat)
    requires TreeOk(p0, r0) && Pruned(p0, r0, p1, r1, t, n) && n < ENTRIES && !p1[t].ptes[n].valid
    ensures Pruned(p0, r0, p1, r1, t, n + 1)
  {
    assert TableOk(p0, r0, t);
    forall f | f in r0 ensures UnderFirst(r0[t], n + 1, r0[f]) <==> UnderFirst(r0[t], n, r0[f]) {
      if r0[f].TableOf? && r0[t].level > 0 { NoneBelow(p0, r0, t, n, f); }
    }
  }

  /** Freeing the child of entry n and zeroing the entry. */
  lemma PrunedChild(p0: Pages, r0: Roles, p1: Pages, r1: Roles, p2: Pages, r2: Roles, t: nat, n: nat, c: nat)
    requires Pruned(p0, r0, p1, r1, t, n) && n < ENTRIES && 0 < r0[t].level <= 2
    requires IsTable(r1, c) && r1[c] == TableOf(r0[t].root, r0[t].level - 1, r0[t].pre * 512 + n, t) && t != c
    requires Gone(p1, r1, p2, r2, c)
    ensures t in p2 && p2[t] == p1[t]
    ensures Pruned(p0, r0, Zeroed(p2, t, n), r2, t, n + 1)
  {
    assert r1[t] == r0[t];
    forall f | f in r0 {
      UnderNext(r0[t], n, t, r0[f]);
    }
  }

  /** Freeing the table itself after its entries. */
  lemma PrunedAll(p0: Pages, r0: Roles, p1: Pages, r1: Roles, t: nat)
    requires TreeOk(p0, r0) && Pruned(p0, r0, p1, r1, t, ENTRIES)
    ensures NoEntries(p1, t) && IsTable(r1, t) && r1[t] == r0[t]
    ensures Gone(p0, r0, p1[t := Junk], r1[t := Free], t)
  {
    assert TableOk(p0, r0, t);
    forall f | f in r0 && f != t ensures Under(r0[t], r0[f]) <==> UnderFirst(r0[t], ENTRIES, r0[f]) {
      UnderAll(r0[t], r0[f]);
      if Under(r0[t], r0[f]) && r0[f].level == r0[t].level { OneTable(p0, r0, f, t); }
    }
  }

  /** In a tree without pages no leaf table has a valid entry: freewalk meets no leaf. */
  lemma NoLeaf(pages: Pages, role: Roles, view: View, t: nat, i: nat)
    requires TreeOk(pages, role) && ViewOk(pages, role, view) && IsTable(role, t) && role[t].level == 0 && i < ENTRIES
    requires forall s :: s in view ==> s.root != role[t].root
    ensures t in pages && pages[t].Table? && |pages[t].ptes| == ENTRIES && !pages[t].ptes[i].valid
  {
    UnderRoot(pages, role, t);
    assert TableOk(pages, role, t);
    var vpn := role[t].pre * 512 + i;
    RoleWalk(pages, role, t, vpn);
    assert Leaf(pages, role[t].root, vpn) == pages[t].ptes[i];
  }

  ghost predicate Empty(view: View, root: nat) {
    forall s :: s in view ==> s.root != root
  }

  /** The free list and the trees are in order once the entry that points to table t is zero. */
  ghost predicate OkWithout(pages: Pages, free: seq<nat>, role: Roles, view: View, r0: Roles, t: nat) {
    IsTable(r0, t) && TreeOk(Cut(pages, r0, t), role) && FreeOk(free, role) && ViewOk(Cut(pages, r0, t), role, view)
  }

  /** kfree of a table with no entries left. */
  method FreeTable(vm: Vm, t: nat)
    requires vm.TreesOk() && IsTable(vm.role, t) && NoEntries(vm.pages, t) && Empty(vm.view, vm.role[t].root)
    modifies vm`pages, vm`free, vm`role
    ensures vm.pages == old(vm.pages)[t := Junk] && vm.role == old(vm.role)[t := Free]
    ensures OkWithout(vm.pages, vm.free, vm.role, vm.view, old(vm.role), t)
  {
    CutOk(vm.pages, vm.role, vm.view, t, Cut(vm.pages[t := Junk], vm.role, t), vm.role[t := Free]);
    vm.pages := vm.pages[t := Junk];
    vm.role := vm.role[t := Free];
    vm.free := [t] + vm.free;
  }

  lemma ChildCut(pages: Pages, role: Roles, c: nat, t: nat, i: nat)
    requires IsTable(role, c) && role[c].level < 2 && role[c].parent == t && role[c].pre % 512 == i
    requires t in pages && pages[t].Table? && |pages[t].ptes| == ENTRIES && i < ENTRIES
    ensures Cut(pages, role, c) == Zeroed(pages, t, i) == pages[t := Table(pages[t].ptes[i := NOPTE])]
  {
  }

  lemma PrunedStays(p0: Pages, r0: Roles, p1: Pages, r1: Roles, t: nat, n: nat)
    requires Pruned(p0, r0, p1, r1, t, n)
    ensures IsTable(r1, t) && r1[t] == r0[t] && t in p1 && p1[t].Table? && |p1[t].ptes| == ENTRIES
  {
  }

  /** freewalk of the child that entry i of table t points to, and then *pte = 0. */
  method FreeChild(vm: Vm, t: nat, i: nat, c: nat, ghost p0: Pages, ghost r0: Roles)
    requires vm.TreesOk() && i < ENTRIES && Pruned(p0, r0, vm.pages, vm.role, t, i) && 0 < r0[t].level <= 2
    requires Empty(vm.view, r0[t].root) && IsTable(vm.role, c) && c != t
    requires vm.role[c] == TableOf(r0[t].root, r0[t].level - 1, r0[t].pre * 512 + i, t)
    modifies vm`pages, vm`free, vm`role
    ensures vm.TreesOk() && Pruned(p0, r0, vm.pages, vm.role, t, i + 1)
    decreases r0[t].level, 0
  {
    ghost var p1, r1 := vm.pages, vm.role;
    PrunedStays(p0, r0, p1, r1, t, i);
    hide TreeOk, ViewOk, FreeOk, Gone, Cut, Zeroed, Empty;
    FreeWalk(vm, c);
    PrunedChild(p0, r0, p1, r1, vm.pages, vm.role, t, i, c);
    ChildCut(vm.pages, r1, c, t, i);
    vm.pages := vm.pages[t := Table(vm.pages[t].ptes[i := NOPTE])];
  }

  /** One entry of freewalk's loop over table t, counted from the state (p0, r0) in which the loop began. */
  method FreeEntry(vm: Vm, t: nat, i: nat, ghost p0: Pages, ghost r0: Roles)
    requires vm.TreesOk() && i < ENTRIES && TreeOk(p0, r0) && Pruned(p0, r0, vm.pages, vm.role, t, i)
    requires Empty(vm.view, r0[t].root)
    modifies vm`pages, vm`free, vm`role
    ensures vm.TreesOk() && Pruned(p0, r0, vm.pages, vm.role, t, i + 1)
    decreases r0[t].level, 1
  {
    PrunedStays(p0, r0, vm.pages, vm.role, t, i);
    assert TableOk(vm.pages, vm.role, t);
    var e := vm.pages[t].ptes[i];
    assert EntryOk(vm.role, t, i, e);
    if r0[t].level == 0 { NoLeaf(vm.pages, vm.role, vm.view, t, i); }
    if e.valid && !e.flags.r && !e.flags.w && !e.flags.x {
      FreeChild(vm, t, i, e.frame, p0, r0);
    } else {
      if e.valid { assert false; }
      PrunedSkip(p0, r0, vm.pages, vm.role, t, i);
    }
  }

  /** freewalk: exactly the tables in the subtree of t become free. */
  method FreeWalk(vm: Vm, t: nat)
    requires vm.TreesOk() && IsTable(vm.role, t) && Empty(vm.view, vm.role[t].root)
    modifies vm`pages, vm`free, vm`role
    ensures Gone(old(vm.pages), old(vm.role), vm.pages, vm.role, t)
    ensures OkWithout(vm.pages, vm.free, vm.role, vm.view, old(vm.role), t)
    decreases vm.role[t].level, 2
  {
    hide TreeOk, ViewOk, FreeOk, Pruned, Gone, NoEntries, Zeroed, Empty;
    ghost var p0, r0 := vm.pages, vm.role;
    PrunedNone(p0, r0, t);
    var i := 0;
    while i < ENTRIES
      invariant 0 <= i <= ENTRIES && vm.TreesOk() && Pruned(p0, r0, vm.pages, vm.role, t, i)
    {
      FreeEntry(vm, t, i, p0, r0);
      i := i + 1;
    }
    PrunedAll(p0, r0, vm.pages, vm.role, t);
    ghost var r1 := vm.role;
    FreeTable(vm, t);
    assert Cut(vm.pages, r1, t) == Cut(vm.pages, r0, t);
  }

  // ---- uvmfree and proc_freepagetable ----

  /** Every frame of one tree, table or data, has become free; no other frame has changed its role, nor its content
      unless it is a table, and the other trees keep their entries. */
  ghost predicate Reclaimed(p0: Pages, r0: Roles, v0: View, p1: Pages, r1: Roles, v1: View, root: nat) {
    && (forall f :: f in r1 <==> f in r0) && (forall f :: f in p1 <==> f in p0)
    && (forall f :: f in r0 ==> r1[f] == if OfTree(r0[f], root) then Free else r0[f])
    && (forall f :: f in r0 && f in p0 && !OfTree(r0[f], root) && !r0[f].TableOf? ==> p1[f] == p0[f])
    && (forall s :: s in v1 <==> s in v0 && s.root != root)
    && (forall s :: s in v1 ==> v1[s] == v0[s])
  }

  /** What uvmunmap of all pages and freewalk of the root come to. */
  lemma AllReclaimed(p0: Pages, r0: Roles, v0: View, p1: Pages, r1: Roles, v1: View, p2: Pages, r2: Roles, root: nat,
                     n: nat)
    requires TreeOk(p0, r0) && DataOk(p0, r0, v0) && TreeOk(p1, r1) && DataOk(p1, r1, v1) && IsRoot(r1, root)
    requires Released(p0, r0, p1, r1, root, 0, n) && Unmapped(v0, v1, root, 0, n)
    requires forall s :: s in v0 && s.root == root ==> s.vpn < n
    requires Gone(p1, r1, p2, r2, root)
    ensures Reclaimed(p0, r0, v0, p2, r2, v1, root) && DataOk(p2, r2, v1)
  {
    assert TableOk(p1, r1, root);
    forall f | f in r0 ensures r2[f] == if OfTree(r0[f], root) then Free else r0[f] {
      if r0[f].DataOf? { assert DataFrameOk(p0, r0, v0, f); }
      if r1[f].TableOf? {
        assert TableOk(p1, r1, f);
        if r1[f].root == root { UnderRoot(p1, r1, f); }
      }
    }
    forall f | f in r2 && r2[f].DataOf? ensures DataFrameOk(p2, r2, v1, f) {
      assert DataFrameOk(p1, r1, v1, f);
    }
  }

  lemma AllUnmapped(v0: View, v1: View, root: nat, n: nat)
    requires Unmapped(v0, v1, root, 0, n) && forall s :: s in v0 && s.root == root ==> s.vpn < n
    ensures Empty(v1, root)
  {
  }

  /** uvmfree; for sz 0 it unmaps no page. */
  method UvmFree(vm: Vm, root: nat, sz: nat)
    requires vm.Valid() && IsRoot(vm.role, root) && PagesOf(sz) <= TRAPFRAME
    requires forall s :: s in vm.view && s.root == root ==> s.vpn < PagesOf(sz)
    modifies vm
    ensures vm.Valid() && Reclaimed(old(vm.pages), old(vm.role), old(vm.view), vm.pages, vm.role, vm.view, root)
  {
    hide ViewOk, FreeOk, Released, Unmapped, Gone, Reclaimed, DataOk;
    ghost var p0, r0, v0 := vm.pages, vm.role, vm.view;
    vm.UvmUnmap(root, 0, PagesOf(sz), true);
    ghost var p1, r1, v1 := vm.pages, vm.role, vm.view;
    AllUnmapped(v0, v1, root, PagesOf(sz));
    assert TableOk(p1, r1, root);
    FreeWalk(vm, root);
    AllReclaimed(p0, r0, v0, p1, r1, v1, vm.pages, vm.role, root, PagesOf(sz));
    assert Cut(vm.pages, r1, root) == vm.pages;
  }

  /** Unmapping a page from TRAPFRAME on moves no frame. */
  lemma TopUnmapped(p0: Pages, r0: Roles, v0: View, p1: Pages, r1: Roles, v1: View, root: nat, vpn: nat)
    requires DataOk(p0, r0, v0) && Released(p0, r0, p1, r1, root, vpn, 1) && vpn >= TRAPFRAME
    ensures (forall f :: f in r1 <==> f in r0) && (forall f :: f in p1 <==> f in p0)
    ensures (forall f :: f in r0 ==> r1[f] == r0[f])
            && (forall f :: f in r0 && f in p0 && !r0[f].TableOf? ==> p1[f] == p0[f])
  {
    forall f | f in r0 ensures r1[f] == r0[f] {
      if r0[f].DataOf? { assert DataFrameOk(p0, r0, v0, f); }
    }
  }

  /** Nothing but tables may have changed, and the view only for one tree. */
  ghost predicate TopDropped(p0: Pages, r0: Roles, v0: View, p1: Pages, r1: Roles, v1: View, root: nat) {
    && (forall f :: f in r1 <==> f in r0) && (forall f :: f in p1 <==> f in p0)
    && (forall f :: f in r0 ==> r1[f] == r0[f])
        && (forall f :: f in r0 && f in p0 && !r0[f].TableOf? ==> p1[f] == p0[f])
    && (forall s :: s in v1 <==> s in v0 && !(s.root == root && s.vpn >= TRAPFRAME))
    && (forall s :: s in v1 ==> v1[s] == v0[s])
  }

  lemma SlotBelow(pages: Pages, role: Roles, view: View)
    requires ViewOk(pages, role, view)
    ensures forall s :: s in view ==> s.vpn < NPAGES
  {
    forall s | s in view ensures s.vpn < NPAGES {
      assert SlotOk(pages, role, view, s);
    }
  }

  method DropTop(vm: Vm, root: nat)
    requires vm.Valid() && IsRoot(vm.role, root)
    modifies vm
    ensures vm.Valid() && IsRoot(vm.role, root)
    ensures TopDropped(old(vm.pages), old(vm.role), old(vm.view), vm.pages, vm.role, vm.view, root)
  {
    hide FreeOk, TreeOk, Released, DataOk, IsRoot, ViewOk;
    ghost var p0, r0, v0 := vm.pages, vm.role, vm.view;
    SlotBelow(p0, r0, v0);
    vm.UvmUnmap(root, TRAMPOLINE, 1, false);
    ghost var p1, r1, v1 := vm.pages, vm.role, vm.view;
    TopUnmapped(p0, r0, v0, p1, r1, v1, root, TRAMPOLINE);
    vm.UvmUnmap(root, TRAPFRAME, 1, false);
    TopUnmapped(p1, r1, v1, vm.pages, vm.role, vm.view, root, TRAPFRAME);
  }

  lemma DroppedReclaimed(p0: Pages, r0: Roles, v0: View, p1: Pages, r1: Roles, v1: View, p2: Pages, r2: Roles,
                         v2: View, root: nat)
    requires TopDropped(p0, r0, v0, p1, r1, v1, root) && Reclaimed(p1, r1, v1, p2, r2, v2, root)
    ensures Reclaimed(p0, r0, v0, p2, r2, v2, root)
  {
  }

  /** proc_freepagetable: freewalk meets no leaf, and every frame of the tree is freed, once. */
  method FreePagetable(vm: Vm, root: nat, sz: nat)
    requires vm.Valid() && IsRoot(vm.role, root) && PagesOf(sz) <= TRAPFRAME
             && Vacant(vm.view, root, PagesOf(sz), TRAPFRAME)
    modifies vm
    ensures vm.Valid() && Reclaimed(old(vm.pages), old(vm.role), old(vm.view), vm.pages, vm.role, vm.view, root)
  {
    hide FreeOk, TreeOk, Reclaimed, DataOk, ViewOk, IsRoot;
    ghost var p0, r0, v0 := vm.pages, vm.role, vm.view;
    DropTop(vm, root);
    ghost var p1, r1, v1 := vm.pages, vm.role, vm.view;
    UvmFree(vm, root, sz);
    DroppedReclaimed(p0, r0, v0, p1, r1, v1, vm.pages, vm.role, vm.view, root);
  }
}
