/** Sv39 page tables over physical frames (kernel/vm.c, kernel/kalloc.c): memory as a value, what it means
    for a frame to be free, to be a page-table page or to back a user page, and the flat view of a tree. */
module PageTable {
  import opened Std

  const PGSIZE: nat := 4096
  const ENTRIES: nat := 512
  /** Pages below MAXVA. */
  const NPAGES: nat := 67108864
  /** The pages of TRAPFRAME and TRAMPOLINE. */
  const TRAPFRAME: nat := NPAGES - 2
  const TRAMPOLINE: nat := NPAGES - 1


  datatype Flags = Flags(r: bool, w: bool, x: bool, u: bool)
  const NOFLAGS := Flags(false, false, false, false)

  /** An unpacked page-table entry; `frame` is the physical page number. */
  datatype Pte = Pte(valid: bool, frame: nat, flags: Flags)
  const NOPTE := Pte(false, 0, NOFLAGS)

  /** What a frame holds: the junk of kalloc and kfree, 512 entries, or 4096 bytes. */
  datatype Page = Junk | Table(ptes: seq<Pte>) | Bytes(data: seq<Byte>)

  /** A page after memset(p, 0, PGSIZE), read as bytes. */
  function Zeros(): (z: seq<Byte>)
    ensures |z| == PGSIZE && forall i :: 0 <= i < PGSIZE ==> z[i] == 0
  {
    seq(PGSIZE, i => 0)
  }

  /** The same, read as page-table entries. */
  function NoPtes(): (z: seq<Pte>)
    ensures |z| == ENTRIES && forall i :: 0 <= i < ENTRIES ==> z[i] == NOPTE
  {
    seq(ENTRIES, i => NOPTE)
  }

  /** What a frame is used for.  `parent` is the table that points to it, `pre` the page number shifted right
      by nine bits for each level from this table down. */
  datatype Role =
    | Free
    | Owned
    | TableOf(root: nat, level: nat, pre: nat, parent: nat)
    | DataOf(root: nat, vpn: nat)

  // ---- Indices ----

  /** PX(level, va) for page number vpn. */
  function Px(level: nat, vpn: nat): (i: nat)
    requires level <= 2 && vpn < NPAGES
    ensures i < ENTRIES
  {
    if level == 0 then vpn % 512 else if level == 1 then vpn / 512 % 512 else vpn / 262144
  }

  function Prefix(level: nat, vpn: nat): nat
    requires level <= 2
  {
    if level == 0 then vpn / 512 else if level == 1 then vpn / 262144 else 0
  }

  lemma PrefixSplits(level: nat, vpn: nat)
    requires level <= 2 && vpn < NPAGES
    ensures level > 0 ==> Prefix(level - 1, vpn) == Prefix(level, vpn) * 512 + Px(level, vpn)
    ensures vpn == Prefix(0, vpn) * 512 + Px(0, vpn)
  {
  }

  // ---- Well-formed memory ----

  ghost predicate IsTable(role: map<nat, Role>, f: nat) {
    f in role && role[f].TableOf?
  }

  ghost predicate IsRoot(role: map<nat, Role>, f: nat) {
    IsTable(role, f) && role[f].level == 2
  }

  /** A valid entry of an inner table points to the table one level down, with no permission bit. */
  ghost predicate EntryOk(role: map<nat, Role>, f: nat, i: nat, e: Pte)
    requires IsTable(role, f)
  {
    var t := role[f];
    e.valid && t.level > 0 ==>
      && e.flags == NOFLAGS && IsTable(role, e.frame)
      && role[e.frame] == TableOf(t.root, t.level - 1, t.pre * 512 + i, f)
  }

  ghost predicate TableOk(pages: map<nat, Page>, role: map<nat, Role>, f: nat)
    requires IsTable(role, f)
  {
    var t := role[f];
    && f in pages && pages[f].Table? && |pages[f].ptes| == ENTRIES
    && t.level <= 2 && (t.level == 2 <==> f == t.root) && (t.level == 2 ==> t.pre == 0)
        && (t.level == 1 ==> t.pre < 256)
    && (forall i :: 0 <= i < ENTRIES ==> EntryOk(role, f, i, pages[f].ptes[i]))
    && IsRoot(role, t.root)
    && (t.level < 2 ==>
          && IsTable(role, t.parent) && t.parent in pages && pages[t.parent].Table?
          && |pages[t.parent].ptes| == ENTRIES
          && role[t.parent].level == t.level + 1 && role[t.parent].root == t.root
          && role[t.parent].pre == t.pre / 512
          && pages[t.parent].ptes[t.pre % 512] == Pte(true, f, NOFLAGS))
  }

  ghost predicate TreeOk(pages: map<nat, Page>, role: map<nat, Role>) {
    && (forall f :: f in pages <==> f in role) && 0 !in role
    && forall f {:trigger TableOk(pages, role, f)} :: IsTable(role, f) ==> TableOk(pages, role, f)
  }

  /** The free list holds each free frame once. */
  ghost predicate FreeOk(free: seq<nat>, role: map<nat, Role>) {
    && NoDup(free)
    && (forall f :: f in free ==> f in role && role[f] == Free)
    && (forall f :: f in role && role[f] == Free ==> f in free)
  }

  // ---- The flat view ----

  /** The entry a walk without allocation finds for page `vpn`, or None if a table is missing. */
  ghost function WalkTable(pages: map<nat, Page>, root: nat, vpn: nat): Option<nat>
    requires vpn < NPAGES
  {
    if root !in pages || !pages[root].Table? || |pages[root].ptes| != ENTRIES then None
    else
      var e := pages[root].ptes[Px(2, vpn)];
      if !e.valid || e.frame !in pages || !pages[e.frame].Table? || |pages[e.frame].ptes| != ENTRIES then None
      else
        var e' := pages[e.frame].ptes[Px(1, vpn)];
        if !e'.valid || e'.frame !in pages || !pages[e'.frame].Table? || |pages[e'.frame].ptes| != ENTRIES then None
        else Some(e'.frame)
  }

  /** The tree rooted at `root`, read as a map from page numbers to entries. */
  ghost function Leaf(pages: map<nat, Page>, root: nat, vpn: nat): Pte {
    if vpn < NPAGES && WalkTable(pages, root, vpn).Some? then
      var t := WalkTable(pages, root, vpn).value;
      if t in pages && pages[t].Table? && |pages[t].ptes| == ENTRIES then pages[t].ptes[Px(0, vpn)] else NOPTE
    else NOPTE
  }

  /** The leaf table a walk reaches is the one whose role says so. */
  lemma WalkRole(pages: map<nat, Page>, role: map<nat, Role>, root: nat, vpn: nat)
    requires TreeOk(pages, role) && IsRoot(role, root) && vpn < NPAGES
    ensures WalkTable(pages, root, vpn).Some? ==>
              var t := WalkTable(pages, root, vpn).value;
              IsTable(role, t) && role[t].root == root && role[t].level == 0 && role[t].pre == Prefix(0, vpn)
  {
    PrefixSplits(2, vpn);
    PrefixSplits(1, vpn);
    assert TableOk(pages, role, root);
    var e := pages[root].ptes[Px(2, vpn)];
    assert EntryOk(role, root, Px(2, vpn), e);
    if e.valid {
      assert TableOk(pages, role, e.frame);
      var e' := pages[e.frame].ptes[Px(1, vpn)];
      assert EntryOk(role, e.frame, Px(1, vpn), e');
      if e'.valid { assert TableOk(pages, role, e'.frame); }
    }
  }

  /** And every leaf table is reached by the walks of its own pages. */
  lemma RoleWalk(pages: map<nat, Page>, role: map<nat, Role>, t: nat, vpn: nat)
    requires TreeOk(pages, role) && IsTable(role, t) && role[t].level == 0 && vpn < NPAGES
             && role[t].pre == Prefix(0, vpn)
    ensures WalkTable(pages, role[t].root, vpn) == Some(t)
  {
    assert TableOk(pages, role, t);
    var m := role[t].parent;
    assert TableOk(pages, role, m);
    var root := role[m].parent;
    assert TableOk(pages, role, root);
    assert vpn / 512 / 512 == vpn / 262144;
  }

  /** Writing one entry of a leaf table changes the view at one page of one tree and nowhere else. */
  lemma SetLeaf(pages: map<nat, Page>, role: map<nat, Role>, root: nat, vpn: nat, t: nat, e: Pte, pages': map<nat,
                Page>)
    requires TreeOk(pages, role) && IsRoot(role, root) && vpn < NPAGES && WalkTable(pages, root, vpn) == Some(t)
    requires t in pages && pages[t].Table? && |pages[t].ptes| == ENTRIES
    requires pages' == pages[t := Table(pages[t].ptes[Px(0, vpn) := e])]
    ensures TreeOk(pages', role)
    ensures Leaf(pages', root, vpn) == e
    ensures forall r, v :: IsRoot(role, r) && !(r == root && v == vpn) ==> Leaf(pages', r, v) == Leaf(pages, r, v)
  {
    WalkRole(pages, role, root, vpn);
    forall f | IsTable(role, f) ensures TableOk(pages', role, f) {
      assert TableOk(pages, role, f);
    }
    forall r, v: nat | IsRoot(role, r) && v < NPAGES
      ensures WalkTable(pages', r, v) == WalkTable(pages, r, v)
      ensures !(r == root && v == vpn) ==> Leaf(pages', r, v) == Leaf(pages, r, v)
    {
      SameWalk(pages, role, pages', t, r, v);
      WalkRole(pages, role, r, v);
      PrefixSplits(0, v);
      PrefixSplits(0, vpn);
    }
  }

  /** Changing a leaf table changes no walk. */
  lemma SameWalk(pages: map<nat, Page>, role: map<nat, Role>, pages': map<nat, Page>, t: nat, r: nat, v: nat)
    requires TreeOk(pages, role) && IsRoot(role, r) && v < NPAGES
    requires IsTable(role, t) && role[t].level == 0 && t in pages'
    requires pages' == pages[t := pages'[t]] && pages'[t].Table? && |pages'[t].ptes| == ENTRIES
    ensures WalkTable(pages', r, v) == WalkTable(pages, r, v)
  {
    assert TableOk(pages, role, r) && TableOk(pages, role, t);
    var e := pages[r].ptes[Px(2, v)];
    assert EntryOk(role, r, Px(2, v), e);
    if e.valid {
      assert TableOk(pages, role, e.frame);
      assert EntryOk(role, e.frame, Px(1, v), pages[e.frame].ptes[Px(1, v)]);
    }
  }

  /** A new, empty table below `f` changes no view. */
  lemma NewTable(pages: map<nat, Page>, role: map<nat, Role>, f: nat, i: nat, g: nat,
                 pages': map<nat, Page>, role': map<nat, Role>)
    requires TreeOk(pages, role) && IsTable(role, f) && TableOk(pages, role, f) && role[f].level > 0
    requires i < ENTRIES && !pages[f].ptes[i].valid && (role[f].level == 2 ==> i < 256)
    requires g in role && !role[g].TableOf?
    requires pages' == pages[g := Table(NoPtes())][f := Table(pages[f].ptes[i := Pte(true, g, NOFLAGS)])]
    requires role' == role[g := TableOf(role[f].root, role[f].level - 1, role[f].pre * 512 + i, f)]
    ensures TreeOk(pages', role')
    ensures forall r :: IsRoot(role', r) <==> IsRoot(role, r)
    ensures forall r, v :: IsRoot(role, r) ==> Leaf(pages', r, v) == Leaf(pages, r, v)
  {
    assert TableOk(pages, role, f);
    forall h | IsTable(role', h) ensures TableOk(pages', role', h) {
      if h == g {
        assert IsRoot(role, role[f].root);
      } else {
        assert TableOk(pages, role, h);
        forall k | 0 <= k < ENTRIES ensures EntryOk(role', h, k, pages'[h].ptes[k]) {
          assert EntryOk(role, h, k, pages[h].ptes[k]);
        }
        if role[h].level < 2 && role[h].parent == f {
          assert pages[f].ptes[role[h].pre % 512].valid;
        }
      }
    }
    forall r, v: nat | IsRoot(role, r) && v < NPAGES ensures Leaf(pages', r, v) == Leaf(pages, r, v) {
      NewTableLeaf(pages, role, f, i, g, pages', r, v);
    }
  }

  lemma NewTableLeaf(pages: map<nat, Page>, role: map<nat, Role>, f: nat, i: nat, g: nat, pages': map<nat, Page>,
                     r: nat, v: nat)
    requires TreeOk(pages, role) && IsTable(role, f) && TableOk(pages, role, f) && role[f].level > 0
    requires i < ENTRIES && !pages[f].ptes[i].valid
    requires g in role && !role[g].TableOf?
    requires pages' == pages[g := Table(NoPtes())][f := Table(pages[f].ptes[i := Pte(true, g, NOFLAGS)])]
    requires IsRoot(role, r) && v < NPAGES
    ensures Leaf(pages', r, v) == Leaf(pages, r, v)
  {
    assert TableOk(pages, role, f) && TableOk(pages, role, r);
    var e := pages[r].ptes[Px(2, v)];
    assert EntryOk(role, r, Px(2, v), e);
    if e.valid {
      assert TableOk(pages, role, e.frame);
      var e' := pages[e.frame].ptes[Px(1, v)];
      assert EntryOk(role, e.frame, Px(1, v), e');
      if e'.valid { assert TableOk(pages, role, e'.frame); }
    }
  }

  /** What happens to frames that are no tables concerns no tree. */
  lemma OutsideTrees(pages: map<nat, Page>, role: map<nat, Role>, pages': map<nat, Page>, role': map<nat, Role>)
    requires TreeOk(pages, role) && (forall f :: f in role' <==> f in role) && (forall f :: f in pages' <==> f in pages)
    requires forall f :: f in role && (role[f].TableOf? || role'[f].TableOf?) ==>
               role'[f] == role[f] && pages'[f] == pages[f]
    ensures TreeOk(pages', role')
    ensures forall r :: IsRoot(role', r) <==> IsRoot(role, r)
    ensures forall r, v :: IsRoot(role, r) ==> Leaf(pages', r, v) == Leaf(pages, r, v)
  {
    forall f | IsTable(role', f) ensures TableOk(pages', role', f) {
      assert TableOk(pages, role, f);
      forall k | 0 <= k < ENTRIES ensures EntryOk(role', f, k, pages'[f].ptes[k]) {
        assert EntryOk(role, f, k, pages[f].ptes[k]);
      }
    }
    forall r, v: nat | IsRoot(role, r) && v < NPAGES ensures Leaf(pages', r, v) == Leaf(pages, r, v) {
      SameLeaf(pages, role, pages', r, v);
    }
  }

  lemma SameLeaf(pages: map<nat, Page>, role: map<nat, Role>, pages': map<nat, Page>, r: nat, v: nat)
    requires TreeOk(pages, role) && IsRoot(role, r) && v < NPAGES && (forall f :: f in pages' <==> f in pages)
    requires forall f :: IsTable(role, f) ==> pages'[f] == pages[f]
    ensures Leaf(pages', r, v) == Leaf(pages, r, v)
  {
    assert TableOk(pages, role, r);
    var e := pages[r].ptes[Px(2, v)];
    assert EntryOk(role, r, Px(2, v), e);
    if e.valid {
      assert TableOk(pages, role, e.frame);
      var e' := pages[e.frame].ptes[Px(1, v)];
      assert EntryOk(role, e.frame, Px(1, v), e');
      if e'.valid { assert TableOk(pages, role, e'.frame); }
    }
  }

  // ---- The view as a map ----

  /** Page vpn of the tree rooted at frame root. */
  datatype Slot = Slot(root: nat, vpn: nat)

  /** `view` holds the valid entries of all trees. */
  ghost predicate ViewOk(pages: map<nat, Page>, role: map<nat, Role>, view: map<Slot, Pte>) {
    && (forall r, v {:trigger Leaf(pages, r, v)} :: IsRoot(role, r) && Leaf(pages, r, v).valid ==> Slot(r, v) in view)
    && (forall s {:trigger SlotOk(pages, role, view, s)} :: s in view ==> SlotOk(pages, role, view, s))
  }

  ghost predicate SlotOk(pages: map<nat, Page>, role: map<nat, Role>, view: map<Slot, Pte>, s: Slot) {
    s in view && view[s].valid && IsRoot(role, s.root) && view[s] == Leaf(pages, s.root, s.vpn)
  }

  /** Changes outside the trees, or a new empty table, leave the view as it is. */
  lemma SameViewOk(pages: map<nat, Page>, role: map<nat, Role>, view: map<Slot, Pte>, pages': map<nat, Page>,
                   role': map<nat, Role>)
    requires ViewOk(pages, role, view)
    requires forall r :: IsRoot(role', r) <==> IsRoot(role, r)
    requires forall r, v :: IsRoot(role, r) ==> Leaf(pages', r, v) == Leaf(pages, r, v)
    ensures ViewOk(pages', role', view)
  {
    forall s | s in view ensures SlotOk(pages', role', view, s) {
      assert SlotOk(pages, role, view, s);
    }
  }

  /** Every valid entry below TRAPFRAME has its own frame of bytes, and every such frame has its entry. */
  ghost predicate DataOk(pages: map<nat, Page>, role: map<nat, Role>, view: map<Slot, Pte>) {
    && (forall s :: s in view && s.vpn < TRAPFRAME ==>
        view[s].frame in role && role[view[s].frame] == DataOf(s.root, s.vpn))
    && (forall f :: f in role && role[f].DataOf? ==> DataFrameOk(pages, role, view, f))
  }

  ghost predicate DataFrameOk(pages: map<nat, Page>, role: map<nat, Role>, view: map<Slot, Pte>, f: nat)
    requires f in role && role[f].DataOf?
  {
    var s := Slot(role[f].root, role[f].vpn);
    && s in view && s.vpn < TRAPFRAME && view[s].frame == f
    && f in pages && pages[f].Bytes? && |pages[f].data| == PGSIZE
  }
}
