/** kernel/vm.c and kernel/kalloc.c: the frame allocator and the operations on user page tables. */
module VirtualMemory {
  import opened Std
  import opened PageTable

  type Pages = map<nat, Page>
  type Roles = map<nat, Role>
  type View = map<Slot, Pte>

  predicate OfTree(r: Role, root: nat) {
    (r.TableOf? || r.DataOf?) && r.root == root
  }

  /** Frames have moved between the free list and one tree, and nowhere else: every other frame has the role it had. */
  ghost predicate RolesKept(role: Roles, role': Roles, root: nat) {
    && (forall f :: f in role' <==> f in role)
    && forall f :: f in role ==> role'[f] == role[f] || (Movable(role[f], root) && Movable(role'[f], root))
  }

  predicate Movable(r: Role, root: nat) { r == Free || OfTree(r, root) }

  /** If no frame has stopped being free, the list is no shorter. */
  lemma FreeMore(free: seq<nat>, role: Roles, free': seq<nat>, role': Roles)
    requires FreeOk(free, role) && FreeOk(free', role')
    requires forall f :: f in role && role[f] == Free ==> f in role' && role'[f] == Free
    ensures |free'| >= |free|
  {
    NoDupCard(free);
    NoDupCard(free');
    SubsetCardinality(Elements(free), Elements(free'));
  }

  /** Frames may have gone from free to page-table pages of one tree; every other frame keeps its role, and
      every frame that is no table its content. */
  ghost predicate TablesGrew(pages: Pages, role: Roles, pages': Pages, role': Roles, root: nat) {
    && (forall f :: f in role' <==> f in role) && (forall f :: f in pages' <==> f in pages)
    && (forall f :: f in role && role[f] != Free ==> role'[f] == role[f])
    && (forall f :: f in role && role[f] == Free ==> role'[f] == Free || (role'[f].TableOf? && role'[f].root == root))
    && (forall f :: f in role && f in pages && role[f] != Free && !role[f].TableOf? ==> pages'[f] == pages[f])
  }

  lemma GrewNone(pages: Pages, role: Roles, root: nat)
    ensures TablesGrew(pages, role, pages, role, root)
  {
  }

  lemma GrewRoot(pages: Pages, role: Roles, pages': Pages, role': Roles, root: nat)
    requires TablesGrew(pages, role, pages', role', root)
    ensures forall r :: IsRoot(role, r) ==> IsRoot(role', r)
  {
  }

  lemma GrewTransitive(pages: Pages, role: Roles, pages1: Pages, role1: Roles, pages2: Pages, role2: Roles, root: nat)
    requires TablesGrew(pages, role, pages1, role1, root) && TablesGrew(pages1, role1, pages2, role2, root)
    ensures TablesGrew(pages, role, pages2, role2, root)
  {
  }

  predicate InSpan(s: Slot, root: nat, vpn: nat, n: nat) {
    s.root == root && vpn <= s.vpn < vpn + n
  }

  /** The map insert that mappages is: n pages from vpn on go to the frames from `frame` on. */
  ghost predicate Mapped(view: View, view': View, root: nat, vpn: nat, n: nat, frame: nat, flags: Flags) {
    && (forall s :: s in view' <==> s in view || InSpan(s, root, vpn, n))
    && (forall s :: s in view' ==>
        view'[s] == if InSpan(s, root, vpn, n) then Pte(true, frame + (s.vpn - vpn), flags) else view[s])
  }

  /** The map remove that uvmunmap is. */
  ghost predicate Unmapped(view: View, view': View, root: nat, vpn: nat, n: nat) {
    && (forall s :: s in view' <==> s in view && !InSpan(s, root, vpn, n))
    && (forall s :: s in view' ==> view'[s] == view[s])
  }

  lemma MappedMore(view: View, view1: View, root: nat, vpn: nat, n: nat, frame: nat, flags: Flags)
    requires Mapped(view, view1, root, vpn, n, frame, flags)
    ensures Mapped(view, view1[Slot(root, vpn + n) := Pte(true, frame + n, flags)], root, vpn, n + 1, frame, flags)
  {
  }

  lemma UnmappedMore(view: View, view1: View, root: nat, vpn: nat, n: nat)
    requires Unmapped(view, view1, root, vpn, n)
    ensures Unmapped(view, view1 - {Slot(root, vpn + n)}, root, vpn, n + 1)
  {
  }

  /** The frames of n pages from vpn on have become free; every other frame keeps its role and content. */
  ghost predicate Released(pages: Pages, role: Roles, pages': Pages, role': Roles, root: nat, vpn: nat, n: nat) {
    && (forall f :: f in role' <==> f in role) && (forall f :: f in pages' <==> f in pages)
    && (forall f :: f in role ==>
          role'[f] == if role[f].DataOf? && role[f].root == root && vpn <= role[f].vpn < vpn + n then Free else role[f])
    && (forall f :: f in role && f in pages && !role[f].TableOf? && role'[f] == role[f] ==> pages'[f] == pages[f])
  }

  /** Dropping entries and freeing exactly their frames keeps every other page backed. */
  lemma ReleasedDataOk(pages: Pages, role: Roles, view: View, pages': Pages, role': Roles, view': View, root: nat,
                       vpn: nat, n: nat)
    requires DataOk(pages, role, view) && Released(pages, role, pages', role', root, vpn, n)
             && Unmapped(view, view', root, vpn, n)
    ensures DataOk(pages', role', view')
  {
    forall f | f in role' && role'[f].DataOf? ensures DataFrameOk(pages', role', view', f) {
      assert DataFrameOk(pages, role, view, f);
    }
  }

  lemma ReleasedMore(pages: Pages, role: Roles, view: View, pages1: Pages, role1: Roles, view1: View, pages2: Pages,
                     role2: Roles, view2: View, root: nat, vpn: nat, n: nat)
    requires Released(pages, role, pages1, role1, root, vpn, n)
             && Released(pages1, role1, pages2, role2, root, vpn + n, 1)
    requires Unmapped(view, view1, root, vpn, n) && view2 == view1 - {Slot(root, vpn + n)}
    ensures Released(pages, role, pages2, role2, root, vpn, n + 1) && Unmapped(view, view2, root, vpn, n + 1)
  {
    UnmappedMore(view, view1, root, vpn, n);
  }

  /** Frame f has gone from free to backing page vpn; other free frames may have become tables of that tree. */
  ghost predicate Added(pages: Pages, role: Roles, pages': Pages, role': Roles, root: nat, vpn: nat, f: nat) {
    && (forall f :: f in role' <==> f in role) && (forall f :: f in pages' <==> f in pages)
    && f in role && role[f] == Free && role'[f] == DataOf(root, vpn)
    && (forall g :: g in role && role[g] != Free ==> role'[g] == role[g])
    && (forall g :: g in role && role[g] == Free && g != f ==>
        role'[g] == Free || (role'[g].TableOf? && role'[g].root == root))
    && (forall g :: g in role && g in pages && role[g] != Free && !role[g].TableOf? ==> pages'[g] == pages[g])
  }

  /** A user page as a program sees it. */
  datatype UserPage = UserPage(flags: Flags, data: seq<Byte>)

  /** Page v of the tree is mapped to a frame of bytes. */
  ghost predicate HasPage(pages: Pages, view: View, root: nat, v: nat) {
    Slot(root, v) in view && view[Slot(root, v)].frame in pages && pages[view[Slot(root, v)].frame].Bytes?
  }

  ghost function PageAt(pages: Pages, view: View, root: nat, v: nat): UserPage
    requires HasPage(pages, view, root, v)
  {
    UserPage(view[Slot(root, v)].flags, pages[view[Slot(root, v)].frame].data)
  }

  /** The user memory of one tree. */
  ghost function UserMem(pages: Pages, view: View, root: nat): map<nat, UserPage> {
    map v: nat | v < TRAPFRAME && HasPage(pages, view, root, v) :: PageAt(pages, view, root, v)
  }

  ghost function Vpns(vpn: nat, n: nat): (r: set<nat>)
    ensures forall v: nat :: v in r <==> vpn <= v < vpn + n
  {
    if n == 0 then {} else Vpns(vpn, n - 1) + {vpn + n - 1}
  }

  lemma AddedDataOk(pages: Pages, role: Roles, view: View, pages': Pages, role': Roles, root: nat, vpn: nat, f: nat,
                    flags: Flags)
    requires DataOk(pages, role, view) && vpn < TRAPFRAME && Slot(root, vpn) !in view
    requires Added(pages, role, pages', role', root, vpn, f) && f in pages' && pages'[f].Bytes?
             && |pages'[f].data| == PGSIZE
    requires forall f :: f in role <==> f in pages
    ensures DataOk(pages', role', view[Slot(root, vpn) := Pte(true, f, flags)])
  {
    var view' := view[Slot(root, vpn) := Pte(true, f, flags)];
    forall g | g in role' && role'[g].DataOf? ensures DataFrameOk(pages', role', view', g) {
      if g != f { assert DataFrameOk(pages, role, view, g); }
    }
  }

  lemma ReleasedUserMem(pages: Pages, role: Roles, view: View, pages': Pages, role': Roles, view': View, root: nat,
                        vpn: nat, n: nat, r: nat)
    requires DataOk(pages, role, view) && Released(pages, role, pages', role', root, vpn, n)
             && Unmapped(view, view', root, vpn, n)
    requires forall f :: f in role <==> f in pages
    ensures forall v: nat :: v in UserMem(pages', view', r)
                             <==> v in UserMem(pages, view, r) && !InSpan(Slot(r, v), root, vpn, n)
    ensures forall v: nat :: v in UserMem(pages', view', r) ==>
              UserMem(pages', view', r)[v] == UserMem(pages, view, r)[v]
  {
  }

  // ---- Giving a tree several pages ----

  /** Tree `root` has gained exactly the pages of c, each on a frame of its own that was free. */
  ghost predicate Filled(pages: Pages, role: Roles, view: View, pages': Pages, role': Roles, view': View, root: nat,
                         c: map<nat, UserPage>) {
    && FramesTaken(pages, role, pages', role', root, c.Keys)
    && (forall s :: s in view ==> s in view' && view'[s] == view[s])
    && (forall s :: s in view' ==> s in view || (s.root == root && s.vpn in c))
    && (forall v :: v in c ==> Backs(pages', role, view', root, v, c[v]))
  }

  /** Free frames may have become tables or data pages of one tree; nothing else changed. */
  ghost predicate FramesTaken(pages: Pages, role: Roles, pages': Pages, role': Roles, root: nat, vs: set<nat>) {
    && (forall f :: f in role' <==> f in role) && (forall f :: f in pages' <==> f in pages)
    && (forall f :: f in role && role[f] != Free ==> role'[f] == role[f])
    && (forall f :: f in role && role[f] == Free ==>
          role'[f] == Free || (role'[f].TableOf? && role'[f].root == root)
          || (role'[f].DataOf? && role'[f].root == root && role'[f].vpn in vs))
    && (forall f :: f in role && f in pages && role[f] != Free && !role[f].TableOf? ==> pages'[f] == pages[f])
  }

  ghost predicate Backs(pages': Pages, role: Roles, view': View, root: nat, v: nat, p: UserPage) {
    var s := Slot(root, v);
    && s in view' && view'[s].valid && view'[s].flags == p.flags
    && view'[s].frame in role && role[view'[s].frame] == Free
    && view'[s].frame in pages' && pages'[view'[s].frame] == Bytes(p.data)
  }

  lemma TakenMore(pages: Pages, role: Roles, pages1: Pages, role1: Roles, pages2: Pages, role2: Roles, root: nat,
                  vs: set<nat>, v: nat, f: nat)
    requires FramesTaken(pages, role, pages1, role1, root, vs) && Added(pages1, role1, pages2, role2, root, v, f)
    ensures FramesTaken(pages, role, pages2, role2, root, vs + {v})
  {
  }

  lemma FilledMore(pages: Pages, role: Roles, view: View, pages1: Pages, role1: Roles, view1: View, pages2: Pages,
                   role2: Roles, view2: View, root: nat, c: map<nat, UserPage>, c2: map<nat, UserPage>, v: nat, f: nat,
                       p: UserPage)
    requires Filled(pages, role, view, pages1, role1, view1, root, c) && v !in c && c2 == c[v := p]
    requires DataOk(pages1, role1, view1) && forall u :: u in c ==> u < TRAPFRAME
    requires Added(pages1, role1, pages2, role2, root, v, f) && f in pages2 && pages2[f] == Bytes(p.data)
    requires view2 == view1[Slot(root, v) := Pte(true, f, p.flags)] && Slot(root, v) !in view1
    requires (forall g :: g in role1 <==> g in pages1)
    ensures Filled(pages, role, view, pages2, role2, view2, root, c2)
  {
    TakenMore(pages, role, pages1, role1, pages2, role2, root, c.Keys, v, f);
    assert c2.Keys == c.Keys + {v};
    forall u | u in c2 ensures Backs(pages2, role, view2, root, u, c2[u]) {
      if u != v {
        assert Backs(pages1, role, view1, root, u, c[u]);
      }
    }
  }

  /** Taking all the new pages away again leaves only page-table pages behind. */
  lemma FilledUndone(pages: Pages, role: Roles, view: View, pages1: Pages, role1: Roles, view1: View, pages2: Pages,
                     role2: Roles, view2: View, root: nat, c: map<nat, UserPage>, vpn: nat, n: nat)
    requires Filled(pages, role, view, pages1, role1, view1, root, c)
    requires forall v :: v in c ==> vpn <= v < vpn + n
    requires forall s :: s in view ==> !InSpan(s, root, vpn, n)
    requires DataOk(pages, role, view)
    requires Released(pages1, role1, pages2, role2, root, vpn, n) && Unmapped(view1, view2, root, vpn, n)
    ensures TablesGrew(pages, role, pages2, role2, root)
    ensures forall s :: s in view2 <==> s in view
    ensures forall s :: s in view ==> view2[s] == view[s]
  {
    forall f | f in role && role[f].DataOf? ensures DataFrameOk(pages, role, view, f) {
    }
  }

  lemma FilledMem(pages: Pages, role: Roles, view: View, pages': Pages, role': Roles, view': View, root: nat,
                  c: map<nat, UserPage>, r: nat)
    requires Filled(pages, role, view, pages', role', view', root, c) && DataOk(pages, role, view)
    requires forall v :: v in c ==> v < TRAPFRAME && Slot(root, v) !in view
    requires forall g :: g in role <==> g in pages
    ensures r == root ==> UserMem(pages', view', r) == UserMem(pages, view, r) + c
    ensures r != root ==> UserMem(pages', view', r) == UserMem(pages, view, r)
  {
    forall v: nat {
      FilledMemAt(pages, role, view, pages', role', view', root, c, r, v);
    }
    MapsEqual(UserMem(pages', view', r), UserMem(pages, view, r), if r == root then c else map[]);
  }

  lemma MapsEqual(m': map<nat, UserPage>, m: map<nat, UserPage>, c: map<nat, UserPage>)
    requires forall v: nat :: v in m' <==> v in m || v in c
    requires forall v: nat :: v in m' ==> m'[v] == if v in c then c[v] else m[v]
    ensures m' == m + c
    ensures c == map[] ==> m' == m
  {
  }

  lemma FilledMemAt(pages: Pages, role: Roles, view: View, pages': Pages, role': Roles, view': View, root: nat,
                    c: map<nat, UserPage>, r: nat, v: nat)
    requires Filled(pages, role, view, pages', role', view', root, c) && DataOk(pages, role, view)
    requires forall v :: v in c ==> v < TRAPFRAME && Slot(root, v) !in view
    requires forall g :: g in role <==> g in pages
    ensures v in UserMem(pages', view', r) <==> v in UserMem(pages, view, r) || (r == root && v in c)
    ensures v in UserMem(pages', view', r) ==>
              UserMem(pages', view', r)[v] == if r == root && v in c then c[v] else UserMem(pages, view, r)[v]
  {
    if v in c { assert Backs(pages', role, view', root, v, c[v]); }
    var s := Slot(r, v);
    if v < TRAPFRAME && s in view {
      assert role[view[s].frame] == DataOf(r, v);
      assert DataFrameOk(pages, role, view, view[s].frame);
    }
  }

  class Vm {
    var pages: Pages
    var free: seq<nat>
    ghost var role: Roles
    ghost var view: View

    /** The trees are well formed, their flat reading is `view`, and the free list is exact. */
    ghost predicate TreesOk()
      reads this
    {
      TreeOk(pages, role) && FreeOk(free, role) && ViewOk(pages, role, view)
    }

    /** Every frame is free, or a table of one tree, or the backing of one user page, or in the kernel's hands. */
    ghost predicate Valid()
      reads this
    {
      TreesOk() && DataOk(pages, role, view)
    }

    /** kinit and freerange: the frames [lo, hi) are all free, and there is no page table. */
    constructor (lo: nat, hi: nat)
      requires 0 < lo <= hi
      ensures Valid() && view == map[] && |free| == hi - lo && (forall f :: f in role <==> lo <= f < hi)
      ensures forall f :: f in role ==> role[f] == Free
    {
      pages := map f | f in Below(hi) && lo <= f :: Junk;
      free := [];
      role := map f | f in Below(hi) && lo <= f :: Owned;
      view := map[];
      new;
      var f := lo;
      while f < hi
        invariant lo <= f <= hi && TreesOk() && view == map[] && |free| == f - lo
                  && (forall g :: g in role <==> lo <= g < hi)
        invariant forall g :: lo <= g < hi ==> role[g] == if g < f then Free else Owned
      {
        Kfree(f);
        f := f + 1;
      }
    }

    /** kalloc; 0 when there is no frame. */
    method Kalloc() returns (f: nat)
      requires TreesOk()
      modifies this`pages, this`free, this`role
      ensures TreesOk()
      ensures old(free) == [] ==> f == 0 && pages == old(pages) && free == old(free) && role == old(role)
      ensures old(free) != [] ==>
                && f == old(free)[0] && f != 0 && free == old(free)[1..]
                && f in old(role) && old(role)[f] == Free && f in old(pages)
                && pages == old(pages)[f := Junk] && role == old(role)[f := Owned]
    {
      if free == [] { return 0; }
      f := free[0];
      assert f in free;
      OutsideTrees(pages, role, pages[f := Junk], role[f := Owned]);
      SameViewOk(pages, role, view, pages[f := Junk], role[f := Owned]);
      pages := pages[f := Junk];
      role := role[f := Owned];
      free := free[1..];
    }

    /** kfree of a frame that is no table and backs no page. */
    method Kfree(f: nat)
      requires TreesOk() && f in role && role[f] == Owned
      modifies this`pages, this`free, this`role
      ensures TreesOk() && f in old(pages)
      ensures pages == old(pages)[f := Junk] && role == old(role)[f := Free] && free == [f] + old(free)
    {
      OutsideTrees(pages, role, pages[f := Junk], role[f := Free]);
      SameViewOk(pages, role, view, pages[f := Junk], role[f := Free]);
      pages := pages[f := Junk];
      role := role[f := Free];
      free := [f] + free;
    }

    // ---- walk ----

    ghost predicate OnPath(root: nat, vpn: nat, level: nat, table: nat)
      requires level <= 2
      reads this
    {
      IsTable(role, table) && role[table].root == root && role[table].level == level
          && role[table].pre == Prefix(level, vpn)
    }

    /** memset(g, 0); *pte = PA2PTE(g) | PTE_V. */
    method AddTable(f: nat, i: nat, g: nat)
      requires TreesOk() && IsTable(role, f) && TableOk(pages, role, f) && role[f].level > 0
      requires i < ENTRIES && !pages[f].ptes[i].valid && (role[f].level == 2 ==> i < 256)
      requires g in role && role[g] == Owned
      modifies this`pages, this`role
      ensures TreesOk()
      ensures role == old(role)[g := TableOf(old(role)[f].root, old(role)[f].level - 1, old(role)[f].pre * 512 + i, f)]
      ensures pages == old(pages)[g := Table(NoPtes())][f := Table(old(pages)[f].ptes[i := Pte(true, g, NOFLAGS)])]
    {
      var pages' := pages[g := Table(NoPtes())][f := Table(pages[f].ptes[i := Pte(true, g, NOFLAGS)])];
      ghost var role' := role[g := TableOf(role[f].root, role[f].level - 1, role[f].pre * 512 + i, f)];
      NewTable(pages, role, f, i, g, pages', role');
      SameViewOk(pages, role, view, pages', role');
      pages := pages';
      role := role';
    }

    /** Make the table that an invalid entry on the path should point to.  0 is out of memory. */
    method MakeTable(root: nat, vpn: nat, level: nat, table: nat) returns (next: nat)
      requires TreesOk() && IsRoot(role, root) && vpn < NPAGES && 0 < level <= 2 && OnPath(root, vpn, level, table)
      requires TableOk(pages, role, table) && !pages[table].ptes[Px(level, vpn)].valid
      modifies this`pages, this`free, this`role
      ensures TreesOk() && IsRoot(role, root)
      ensures next == 0 <==> old(free) == []
      ensures next == 0 ==> pages == old(pages) && free == old(free) && role == old(role)
      ensures next != 0 ==> OnPath(root, vpn, level - 1, next) && |free| == |old(free)| - 1
      ensures TablesGrew(old(pages), old(role), pages, role, root)
    {
      PrefixSplits(level, vpn);
      next := Kalloc();
      if next != 0 {
        assert TableOk(pages, role, table);
        AddTable(table, Px(level, vpn), next);
      }
    }

    /** walk: the leaf table for page vpn.  With alloc, missing tables are made; None is then out of memory. */
    method Walk(root: nat, vpn: nat, alloc: bool) returns (r: Option<nat>)
      requires TreesOk() && IsRoot(role, root) && vpn < NPAGES
      modifies this`pages, this`free, this`role
      ensures TreesOk()
      ensures !alloc ==> r == WalkTable(pages, root, vpn) && pages == old(pages) && free == old(free)
                         && role == old(role)
      ensures r.Some? ==> r == WalkTable(pages, root, vpn) && r.value in pages && pages[r.value].Table?
                          && |pages[r.value].ptes| == ENTRIES
      ensures alloc && r.None? ==> free == []
      ensures |old(free)| >= |free| >= |old(free)| - 2 && (alloc && |old(free)| >= 2 ==> r.Some?)
      ensures TablesGrew(old(pages), old(role), pages, role, root)
    {
      assert IsRoot(role, root);
      var level := 2;
      var table := root;
      assert TableOk(pages, role, root);
      while level > 0
        invariant 0 <= level <= 2
        invariant TreesOk() && IsRoot(role, root) && OnPath(root, vpn, level, table)
        invariant !alloc ==> pages == old(pages) && free == old(free) && role == old(role)
        invariant |old(free)| >= |free| >= |old(free)| - (2 - level)
        invariant TablesGrew(old(pages), old(role), pages, role, root)
      {
        PrefixSplits(level, vpn);
        assert TableOk(pages, role, table);
        var e := pages[table].ptes[Px(level, vpn)];
        assert EntryOk(role, table, Px(level, vpn), e);
        if e.valid {
          table := e.frame;
        } else {
          if !alloc {
            MissingTable(pages, role, root, vpn, table);
            return None;
          }
          ghost var pages1, role1 := pages, role;
          table := MakeTable(root, vpn, level, table);
          GrewTransitive(old(pages), old(role), pages1, role1, pages, role, root);
          if table == 0 { return None; }
        }
        level := level - 1;
      }
      RoleWalk(pages, role, table, vpn);
      assert TableOk(pages, role, table);
      return Some(table);
    }

    /** The entry that walk's result designates. */
    method ReadPte(root: nat, vpn: nat, t: nat) returns (e: Pte)
      requires TreesOk() && IsRoot(role, root) && vpn < NPAGES && WalkTable(pages, root, vpn) == Some(t)
      requires t in pages && pages[t].Table? && |pages[t].ptes| == ENTRIES
      ensures e.valid <==> Slot(root, vpn) in view
      ensures e.valid ==> e == view[Slot(root, vpn)]
    {
      e := pages[t].ptes[Px(0, vpn)];
      assert e == Leaf(pages, root, vpn);
      assert Slot(root, vpn) in view ==> SlotOk(pages, role, view, Slot(root, vpn));
    }

    /** *pte = e. */
    method SetPte(root: nat, vpn: nat, t: nat, e: Pte)
      requires TreesOk() && IsRoot(role, root) && vpn < NPAGES && WalkTable(pages, root, vpn) == Some(t)
      requires t in pages && pages[t].Table? && |pages[t].ptes| == ENTRIES
      modifies this`pages, this`view
      ensures TreesOk() && (forall f :: f in pages <==> f in old(pages))
      ensures view == if e.valid then old(view)[Slot(root, vpn) := e] else old(view) - {Slot(root, vpn)}
      ensures forall f :: f in role && !role[f].TableOf? ==> pages[f] == old(pages)[f]
    {
      assert IsRoot(role, root);
      WalkRole(pages, role, root, vpn);
      var pages' := pages[t := Table(pages[t].ptes[Px(0, vpn) := e])];
      SetLeaf(pages, role, root, vpn, t, e, pages');
      ghost var view' := if e.valid then view[Slot(root, vpn) := e] else view - {Slot(root, vpn)};
      SetViewOk(pages, role, view, root, vpn, e, pages', view');
      pages := pages';
      view := view';
    }

    // ---- mappages and uvmunmap ----

    /** One round of mappages: walk with allocation, then set the entry. */
    method MapOne(root: nat, vpn: nat, frame: nat, flags: Flags) returns (ok: bool)
      requires TreesOk() && IsRoot(role, root) && vpn < NPAGES && Slot(root, vpn) !in view
      modifies this
      ensures TreesOk() && TablesGrew(old(pages), old(role), pages, role, root)
      ensures ok ==> view == old(view)[Slot(root, vpn) := Pte(true, frame, flags)]
      ensures !ok ==> view == old(view)
      ensures !ok ==> free == []
      ensures |old(free)| >= |free| >= |old(free)| - 2 && (|old(free)| >= 2 ==> ok)
    {
      var t := Walk(root, vpn, true);
      if t.None? { return false; }
      SetPte(root, vpn, t.value, Pte(true, frame, flags));
      return true;
    }

    /** mappages of n pages from vpn on to the frames from `frame` on; `done` counts the pages mapped, and
        fewer than n means out of memory. */
    method MapPages(root: nat, vpn: nat, n: nat, frame: nat, flags: Flags) returns (done: nat)
      requires TreesOk() && IsRoot(role, root) && 0 < n && vpn + n <= NPAGES
      requires forall s :: s in view && s.root == root ==> !(vpn <= s.vpn < vpn + n)
      modifies this
      ensures TreesOk() && done <= n && (done < n ==> free == [])
              && TablesGrew(old(pages), old(role), pages, role, root)
      ensures Mapped(old(view), view, root, vpn, done, frame, flags)
      ensures |old(free)| >= |free| >= |old(free)| - 2 * n && (|old(free)| >= 2 * n ==> done == n)
    {
      hide TreesOk, TablesGrew;
      done := 0;
      GrewNone(pages, role, root);
      while done < n
        invariant 0 <= done <= n
        invariant TreesOk() && IsRoot(role, root) && TablesGrew(old(pages), old(role), pages, role, root)
        invariant Mapped(old(view), view, root, vpn, done, frame, flags)
        invariant |old(free)| >= |free| >= |old(free)| - 2 * done
      {
        ghost var pages1, role1 := pages, role;
        assert Slot(root, vpn + done) !in view;
        MappedMore(old(view), view, root, vpn, done, frame, flags);
        var ok := MapOne(root, vpn + done, frame + done, flags);
        GrewRoot(pages1, role1, pages, role, root);
        GrewTransitive(old(pages), old(role), pages1, role1, pages, role, root);
        if !ok { return; }
        done := done + 1;
      }
    }

    /** The frame behind a dropped entry goes to the free list. */
    method FreeFrame(f: nat)
      requires TreesOk() && f in role && role[f].DataOf?
      modifies this`pages, this`free, this`role
      ensures TreesOk() && f in old(pages)
      ensures pages == old(pages)[f := Junk] && role == old(role)[f := Free] && free == [f] + old(free)
    {
      OutsideTrees(pages, role, pages, role[f := Owned]);
      SameViewOk(pages, role, view, pages, role[f := Owned]);
      role := role[f := Owned];
      Kfree(f);
    }

    /** One round of uvmunmap: drop the entry of page vpn if it has one, and with doFree its frame. */
    method UnmapOne(root: nat, vpn: nat, doFree: bool)
      requires Valid() && IsRoot(role, root) && vpn < NPAGES && (doFree <==> vpn < TRAPFRAME)
      modifies this
      ensures Valid() && IsRoot(role, root) && view == old(view) - {Slot(root, vpn)}
      ensures Released(old(pages), old(role), pages, role, root, vpn, 1)
    {
      var t := Walk(root, vpn, false);
      if t.Some? {
        var e := ReadPte(root, vpn, t.value);
        if e.valid {
          SetPte(root, vpn, t.value, NOPTE);
          if doFree { FreeFrame(e.frame); }
        }
      } else {
        assert Leaf(pages, root, vpn) == NOPTE;
        assert Slot(root, vpn) in view ==> SlotOk(pages, role, view, Slot(root, vpn));
      }
      OneReleased(old(pages), old(role), old(view), pages, role, root, vpn);
      ReleasedDataOk(old(pages), old(role), old(view), pages, role, view, root, vpn, 1);
    }

    ghost function Mem(root: nat): map<nat, UserPage>
      reads this
    {
      UserMem(pages, view, root)
    }

    /** A round of uvmunmap, counted from the state (p0, r0, v0) in which the loop began. */
    method UnmapNext(root: nat, vpn: nat, i: nat, doFree: bool, ghost p0: Pages, ghost r0: Roles, ghost v0: View)
      requires Valid() && IsRoot(role, root) && vpn + i < NPAGES && (doFree <==> vpn + i < TRAPFRAME)
      requires Released(p0, r0, pages, role, root, vpn, i) && Unmapped(v0, view, root, vpn, i)
      modifies this
      ensures Valid() && IsRoot(role, root)
      ensures Released(p0, r0, pages, role, root, vpn, i + 1) && Unmapped(v0, view, root, vpn, i + 1)
    {
      hide Valid, Released, Unmapped, IsRoot;
      ghost var pages1, role1, view1 := pages, role, view;
      UnmapOne(root, vpn + i, doFree);
      ReleasedMore(p0, r0, v0, pages1, role1, view1, pages, role, view, root, vpn, i);
    }

    /** uvmunmap. */
    method UvmUnmap(root: nat, vpn: nat, n: nat, doFree: bool)
      requires Valid() && IsRoot(role, root) && vpn + n <= NPAGES
               && (if doFree then vpn + n <= TRAPFRAME else vpn >= TRAPFRAME)
      modifies this
      ensures Valid() && IsRoot(role, root) && Unmapped(old(view), view, root, vpn, n)
      ensures Released(old(pages), old(role), pages, role, root, vpn, n)
    {
      var i := 0;
      while i < n
        invariant 0 <= i <= n && Valid() && IsRoot(role, root) && Unmapped(old(view), view, root, vpn, i)
        invariant Released(old(pages), old(role), pages, role, root, vpn, i)
      {
        UnmapNext(root, vpn, i, doFree, old(pages), old(role), old(view));
        i := i + 1;
      }
    }

    /** memset or memmove into a frame in the kernel's hands. */
    method Fill(f: nat, data: seq<Byte>)
      requires TreesOk() && f in role && role[f] == Owned
      modifies this`pages
      ensures TreesOk() && pages == old(pages)[f := Bytes(data)] && f in old(pages)
    {
      OutsideTrees(pages, role, pages[f := Bytes(data)], role);
      SameViewOk(pages, role, view, pages[f := Bytes(data)], role);
      pages := pages[f := Bytes(data)];
    }

    ghost method Give(f: nat, root: nat, vpn: nat)
      requires TreesOk() && f in role && role[f] == Owned
      modifies this`role
      ensures TreesOk() && role == old(role)[f := DataOf(root, vpn)]
    {
      OutsideTrees(pages, role, pages, role[f := DataOf(root, vpn)]);
      SameViewOk(pages, role, view, pages, role[f := DataOf(root, vpn)]);
      role := role[f := DataOf(root, vpn)];
    }

    /** kalloc, fill, mappages: the way uvmalloc, vmfault and uvmcopy give a process a page.  0 is out of memory;
        a frame that could not be mapped goes back. */
    method AddUserPage(root: nat, vpn: nat, data: seq<Byte>, flags: Flags) returns (f: nat)
      requires Valid() && IsRoot(role, root) && vpn < TRAPFRAME && Slot(root, vpn) !in view && |data| == PGSIZE
      modifies this
      ensures Valid()
      ensures f != 0 ==>
                && view == old(view)[Slot(root, vpn) := Pte(true, f, flags)]
                && Added(old(pages), old(role), pages, role, root, vpn, f)
                && f in pages && pages[f] == Bytes(data)
      ensures f == 0 ==> view == old(view) && TablesGrew(old(pages), old(role), pages, role, root) && |old(free)| < 3
                         && |free| <= 1
      ensures |free| >= |old(free)| - 3
    {
      f := Kalloc();
      if f == 0 { return; }
      hide ViewOk, DataOk, Added, TablesGrew;
      Fill(f, data);
      ghost var pages1, role1 := pages, role;
      assert pages1 == old(pages)[f := Bytes(data)];
      var ok := MapOne(root, vpn, f, flags);
      GrewOwned(pages1, role1, pages, role, root, f);
      if !ok {
        GrewBack(old(pages), old(role), pages, role, root, f, data);
        Kfree(f);
        StillDataOk(old(pages), old(role), old(view), pages, role, root);
        f := 0;
        return;
      }
      GrewAdded(old(pages), old(role), pages, role, root, vpn, f, data);
      Give(f, root, vpn);
      AddedDataOk(old(pages), old(role), old(view), pages, role, root, vpn, f, flags);
    }

    /** AddUserPage, counted from the state (p0, r0, v0) in which a loop began. */
    method AddNext(root: nat, v: nat, p: UserPage, ghost p0: Pages, ghost r0: Roles, ghost v0: View,
                   ghost c: map<nat, UserPage>, ghost c2: map<nat, UserPage>) returns (ok: bool)
      requires Valid() && IsRoot(role, root) && v < TRAPFRAME && Slot(root, v) !in view && |p.data| == PGSIZE
      requires Filled(p0, r0, v0, pages, role, view, root, c) && v !in c && c2 == c[v := p]
      requires forall u :: u in c ==> u < TRAPFRAME
      modifies this
      ensures Valid() && IsRoot(role, root)
      ensures ok ==> Filled(p0, r0, v0, pages, role, view, root, c2)
      ensures !ok ==> Filled(p0, r0, v0, pages, role, view, root, c)
      ensures !ok ==> view == old(view) && |old(free)| < 3 && |free| <= 1
      ensures |free| >= |old(free)| - 3
    {
      ghost var pages1, role1, view1 := pages, role, view;
      var f := AddUserPage(root, v, p.data, p.flags);
      if f == 0 {
        FilledGrew(p0, r0, v0, pages1, role1, view1, pages, role, root, c);
        return false;
      }
      FilledMore(p0, r0, v0, pages1, role1, view1, pages, role, view, root, c, c2, v, f, p);
      return true;
    }
  }

  lemma FilledGrew(pages: Pages, role: Roles, view: View, pages1: Pages, role1: Roles, view1: View, pages2: Pages,
                   role2: Roles, root: nat, c: map<nat, UserPage>)
    requires Filled(pages, role, view, pages1, role1, view1, root, c) && TablesGrew(pages1, role1, pages2, role2, root)
    requires DataOk(pages1, role1, view1) && (forall u :: u in c ==> u < TRAPFRAME)
    requires forall g :: g in role1 <==> g in pages1
    ensures Filled(pages, role, view, pages2, role2, view1, root, c)
  {
    forall u | u in c ensures Backs(pages2, role, view1, root, u, c[u]) {
      assert Backs(pages1, role, view1, root, u, c[u]);
    }
  }

  lemma StillDataOk(pages: Pages, role: Roles, view: View, pages': Pages, role': Roles, root: nat)
    requires DataOk(pages, role, view) && TablesGrew(pages, role, pages', role', root)
             && (forall f :: f in role <==> f in pages)
    ensures DataOk(pages', role', view)
  {
    forall f | f in role' && role'[f].DataOf? ensures DataFrameOk(pages', role', view, f) {
      assert DataFrameOk(pages, role, view, f);
    }
  }

  lemma GrewAdded(pages: Pages, role: Roles, pages': Pages, role2: Roles, root: nat, vpn: nat, f: nat, data: seq<Byte>)
    requires f in role && role[f] == Free && (forall f :: f in role <==> f in pages) && f in role2
    requires TablesGrew(pages[f := Bytes(data)], role[f := Owned], pages', role2, root)
    ensures Added(pages, role, pages', role2[f := DataOf(root, vpn)], root, vpn, f) && pages'[f] == Bytes(data)
  {
    var role1, pages1 := role[f := Owned], pages[f := Bytes(data)];
    assert role1.Keys == role.Keys && pages1.Keys == pages.Keys;
  }

  lemma GrewOwned(pages: Pages, role: Roles, pages': Pages, role': Roles, root: nat, f: nat)
    requires TablesGrew(pages, role, pages', role', root) && f in role && role[f] == Owned && f in pages
    ensures f in role' && role'[f] == Owned && f in pages' && pages'[f] == pages[f]
  {
  }

  /** A frame taken, filled and given back was no step at all for the others. */
  lemma GrewBack(pages: Pages, role: Roles, pages2: Pages, role2: Roles, root: nat, f: nat, data: seq<Byte>)
    requires f in role && role[f] == Free && (forall f :: f in role <==> f in pages)
    requires TablesGrew(pages[f := Bytes(data)], role[f := Owned], pages2, role2, root)
    ensures f in role2 && role2[f] == Owned
    ensures TablesGrew(pages, role, pages2[f := Junk], role2[f := Free], root)
  {
    var role1, pages1 := role[f := Owned], pages[f := Bytes(data)];
    assert role1.Keys == role.Keys && pages1.Keys == pages.Keys;
  }

  /** A page below TRAPFRAME is backed by the one frame its entry names; above, by none of ours. */
  lemma OneReleased(pages: Pages, role: Roles, view: View, pages': Pages, role': Roles, root: nat, vpn: nat)
    requires DataOk(pages, role, view) && (forall f :: f in role' <==> f in role)
             && (forall f :: f in pages' <==> f in pages)
    requires role' == if vpn < TRAPFRAME && Slot(root, vpn) in view then role[view[Slot(root, vpn)].frame := Free]
             else role
    requires forall f :: f in role && f in pages && !role[f].TableOf? && role'[f] == role[f] ==> pages'[f] == pages[f]
    ensures Released(pages, role, pages', role', root, vpn, 1)
  {
    forall f | f in role && role[f].DataOf? ensures DataFrameOk(pages, role, view, f) {
    }
  }

  /** Where a table on the path lacks the entry, the walk finds nothing. */
  lemma MissingTable(pages: Pages, role: Roles, root: nat, vpn: nat, f: nat)
    requires TreeOk(pages, role) && vpn < NPAGES && IsTable(role, f) && role[f].root == root && 0 < role[f].level <= 2
    requires role[f].pre == Prefix(role[f].level, vpn) && TableOk(pages, role, f)
    requires !pages[f].ptes[Px(role[f].level, vpn)].valid
    ensures WalkTable(pages, root, vpn) == None
  {
    if role[f].level == 1 {
      assert TableOk(pages, role, role[f].parent);
      assert role[f].parent == root by { assert role[role[f].parent].level == 2; }
      assert Px(2, vpn) == role[f].pre % 512;
    }
  }

  lemma SetViewOk(pages: Pages, role: Roles, view: View, root: nat, vpn: nat, e: Pte, pages': Pages, view': View)
    requires ViewOk(pages, role, view) && IsRoot(role, root) && Leaf(pages', root, vpn) == e
    requires forall r, v :: IsRoot(role, r) && !(r == root && v == vpn) ==> Leaf(pages', r, v) == Leaf(pages, r, v)
    requires view' == if e.valid then view[Slot(root, vpn) := e] else view - {Slot(root, vpn)}
    ensures ViewOk(pages', role, view')
  {
    forall s | s in view' ensures SlotOk(pages', role, view', s) {
      if s != Slot(root, vpn) { assert SlotOk(pages, role, view, s); }
    }
  }
}
