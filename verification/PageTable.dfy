/** Physical memory under the page allocator (kernel/pm.c) and the page tables (kernel/vm.c,
    kernel/uvm.c). `mem` and `freelist` are what the kernel sees; the ghost state names the owner of
    every page. */
module PageTable {
  import opened Sv39
  import opened PageState
  import opened PageChanges

  /** What walk finds at an entry above level 0. */
  lemma LinkEntry(s: St, n: Node, i: int)
    requires Inv(s) && Child(n, i) !in s.cut && n in s.tbl && n.level > 0 && 0 <= i < 512
    ensures Valid(Entry(s, n, i)) <==> Child(n, i) in s.tbl
    ensures Valid(Entry(s, n, i)) ==> Pte2Pa(Entry(s, n, i)) == s.tbl[Child(n, i)]
  {
    hide Inv;
    hide Entry;
    LinkIs(s, n, i);
    var c := Child(n, i);
    if c in s.tbl {
      TablePage(s, c);
      PteRoundTrip(s.tbl[c], 0);
    }
  }

  lemma LinkIs(s: St, n: Node, i: int)
    requires Inv(s) && n in s.tbl && n.level > 0 && 0 <= i < 512
    ensures Entry(s, n, i) == LinkTo(s, Child(n, i))
  {}

  /** Without a table on the way there is no table of leaf entries. */
  lemma MissingBelow(s: St, root: int, level: int, vpn: int)
    requires Inv(s) && 0 <= level <= 1 && Node(root, level, Num(level, vpn)) !in s.tbl
    ensures Node(root, 0, vpn / 512) !in s.tbl
  {
    if level == 1 {
      var n := Node(root, 0, vpn / 512);
      assert vpn / 512 / 512 == vpn / 0x4_0000;
      assert Parent(n) == Node(root, 1, Num(1, vpn));
    }
  }

  /** Before kpminit: nobody has given a page to the allocator. */
  function Boot(ram: map<int, Page>): St {
    St(ram, 0, [], map f | f in ram :: Lent, map[], {})
  }

  lemma BootInv(ram: map<int, Page>)
    requires forall f | f in ram :: Aligned(f) && 0 < f < PHYSTOP
    ensures Inv(Boot(ram)) && Boot(ram).mem == ram && Boot(ram).freelist == 0 && Boot(ram).cut == {}
            && Boot(ram).tbl == map[]
    ensures Boot(ram).owner.Keys == ram.Keys && forall f | f in ram :: Boot(ram).owner[f] == Lent
  {
    var s := Boot(ram);
    forall r, v ensures LeafOk(s, r, v) {}
  }

  /** freerange has reached `p`. */
  ghost predicate GivenUpTo(s: St, p: int) {
    forall f | f in s.owner :: s.owner[f] == if f < p then Free else Lent
  }

  lemma FirstPage(ram: map<int, Page>, end: int)
    requires forall f | f in ram :: Aligned(f) && end <= f
    ensures Aligned(PgRoundUp(end)) && end <= PgRoundUp(end) && GivenUpTo(Boot(ram), PgRoundUp(end))
  {}

  lemma GivenNext(s: St, p: int)
    requires Inv(s) && GivenUpTo(s, p) && Aligned(p)
    ensures Aligned(p + PGSIZE) && (p in s.owner ==> s.owner[p] == Lent)
    ensures 0 <= s.freelist < PHYSTOP ==> var t := Give(s, p);
      GivenUpTo(t, p + PGSIZE) && t.cut == s.cut && t.tbl == s.tbl && t.owner == s.owner[p := Free]
  {
    hide Inv;
    forall f | f in s.owner ensures Aligned(f) {
      PageBounds(s, f);
    }
  }

  lemma GivenAll(s: St, p: int)
    requires Inv(s) && GivenUpTo(s, p) && Aligned(p) && PHYSTOP < p + PGSIZE
    ensures forall f | f in s.owner :: s.owner[f] == Free
  {
    hide Inv;
    forall f | f in s.owner ensures f < p {
      PageBounds(s, f);
    }
  }

  class Machine {
    var mem: map<int, Page>
    var freelist: int
    ghost var s: St

    ghost predicate Ok()
      reads this
    {
      s.mem == mem && s.freelist == freelist && Inv(s)
    }

    // ----- kernel/pm.c

    /** kpminit: every whole page between the end of the kernel and the end of memory becomes free. */
    constructor (ram: map<int, Page>, end: int)
      requires 0 < end && forall f :: f in ram <==> Aligned(f) && end <= f < PHYSTOP
      ensures Ok() && s.cut == {} && s.tbl == map[] && s.owner.Keys == ram.Keys
      ensures forall f | f in s.owner :: s.owner[f] == Free
    {
      mem := ram;
      freelist := 0;
      s := Boot(ram);
      new;
      hide Inv;
      hide Boot;
      hide PgRoundUp;
      hide Aligned;
      hide Give;
      hide GivenUpTo;
      BootInv(ram);
      FirstPage(ram, end);
      var p := PgRoundUp(end);
      while p + PGSIZE <= PHYSTOP
        invariant Aligned(p) && end <= p && Ok() && s.cut == {} && s.tbl == map[] && s.owner.Keys == ram.Keys
        invariant GivenUpTo(s, p)
        decreases PHYSTOP - p
      {
        GivenNext(s, p);
        Discard(p);
        p := p + PGSIZE;
      }
      GivenAll(s, p);
    }

    method Kpmalloc() returns (r: int)
      requires Ok()
      modifies this
      ensures Ok()
      ensures r == 0 <==> old(s).free == []
      ensures r == 0 ==> s == old(s)
      ensures r != 0 ==> r == old(s).free[0] && s == Take(old(s))
    {
      hide Inv;
      r := freelist;
      if s.free != [] {
        FreePage(s);
        TakeInv(s);
      }
      FirstLink(s);
      if r != 0 {
        freelist := WordAt(mem, r, 0);
        mem := mem[r := Filled(5)];
        s := Take(s);
      }
    }

    /** What kpmfree does to memory; whose page it was is for the caller to say. */
    method Kpmfree(pa: int)
      requires pa in mem && Aligned(pa) && 0 < pa < PHYSTOP && 0 <= freelist < PHYSTOP
      modifies this`mem, this`freelist
      ensures freelist == pa && WordAt(mem, pa, 0) == old(freelist)
              && forall f | f != pa :: PageAt(mem, f) == PageAt(old(mem), f)
      ensures mem == old(mem)[pa := Store(Filled(1), 0, old(freelist))]
    {
      LoadStore(Filled(1), 0, freelist, 0);
      mem := mem[pa := Filled(1)];
      mem := mem[pa := Store(mem[pa], 0, freelist)];
      freelist := pa;
    }

    method Discard(pa: int)
      requires Ok() && pa in s.owner && s.owner[pa] == Lent
      modifies this
      ensures Ok() && 0 <= old(s).freelist < PHYSTOP && s == Give(old(s), pa)
    {
      hide Inv;
      GiveInv(s, pa);
      PageBounds(s, pa);
      Kpmfree(pa);
      s := Give(s, pa);
    }

    // ----- kernel/vm.c

    /** The body of the loop of walk where a table is missing. */
    method GrowAt(t: int, i: int, ghost n: Node) returns (p: int)
      requires Ok() && s.cut == {} && n in s.tbl && 1 <= n.level <= 2 && 0 <= i < 512 && s.tbl[n] == t
               && Child(n, i) !in s.tbl
      modifies this
      ensures Ok() && Extends(old(s), s, n.root)
      ensures forall r, v :: Leaf(s, r, v) == Leaf(old(s), r, v)
      ensures forall f | f in old(s).owner && old(s).owner[f].Lent? :: s.owner[f] == Lent
      ensures p == 0 ==> s == old(s) && s.free == []
      ensures p != 0 ==> Child(n, i) in s.tbl && s.tbl[Child(n, i)] == p
    {
      hide Inv;
      hide Extends;
      TablePage(s, n);
      ChildParent(n, i);
      if s.free == [] {
        ExtendsSelf(s, n.root);
      } else {
        GrowInv(s, Child(n, i));
      }
      p := Kpmalloc();
      if p != 0 {
        mem := mem[p := Filled(0)];
        PteFits(p);
        mem := mem[t := Store(mem[t], i, MakePte(p, 0))];
        s := Grow(old(s), Child(n, i));
      }
    }

    method Walk(root: int, va: int, alloc: bool) returns (t: int)
      requires Ok() && s.cut == {} && Node(root, 2, 0) in s.tbl && 0 <= va < MAXVA
      modifies this
      ensures Ok()
      ensures !alloc ==> s == old(s) && (t != 0 <==> Node(root, 0, va / PGSIZE / 512) in s.tbl)
      ensures Extends(old(s), s, root)
      ensures forall r, v :: Leaf(s, r, v) == Leaf(old(s), r, v)
      ensures forall f | f in old(s).owner && old(s).owner[f].Lent? :: s.owner[f] == Lent
      ensures t != 0 ==> Node(root, 0, va / PGSIZE / 512) in s.tbl && t == s.tbl[Node(root, 0, va / PGSIZE / 512)]
      ensures t == 0 && alloc ==> s.free == [] && Node(root, 0, va / PGSIZE / 512) !in s.tbl
    {
      hide Inv;
      hide Num;
      hide Idx;
      hide Valid;
      hide Pte2Pa;
      hide Extends;
      hide WordAt;
      ExtendsSelf(s, root);
      NumEnds(va);
      t := root;
      var level := 2;
      ghost var n := Node(root, 2, 0);
      TablePage(s, n);
      while level > 0
        invariant 0 <= level <= 2 && n == Node(root, level, Num(level, va / PGSIZE))
        invariant Ok() && s.cut == {} && n in s.tbl && s.tbl[n] == t && t != 0
        invariant Extends(old(s), s, root)
        invariant forall r, v :: Leaf(s, r, v) == Leaf(old(s), r, v)
        invariant forall f | f in old(s).owner && old(s).owner[f].Lent? :: f in s.owner && s.owner[f] == Lent
        invariant !alloc ==> s == old(s)
      {
        var i := Idx(level, va);
        ghost var c := Child(n, i);
        NumDown(level, va);
        assert c == Node(root, level - 1, Num(level - 1, va / PGSIZE));
        LinkEntry(s, n, i);
        var pte := WordAt(mem, t, i);
        if Valid(pte) {
          t := Pte2Pa(pte);
        } else {
          MissingBelow(s, root, level - 1, va / PGSIZE);
          if !alloc {
            return 0;
          }
          ghost var s1 := s;
          t := GrowAt(t, i, n);
          ExtendsTransitive(old(s), s1, s, root);
          GrownKeeps(old(s), s1, s, root);
          if t == 0 {
            return;
          }
        }
        level := level - 1;
        n := c;
        TablePage(s, n);
      }
    }

    /** `k` says how many pages were mapped before memory ran out. */
    method Mappages(root: int, va: int, pa: int, sz: int, mode: int) returns (r: int, ghost k: int)
      requires Ok() && s.cut == {} && Node(root, 2, 0) in s.tbl
      requires Aligned(va) && Aligned(sz) && 0 <= va && 0 < sz && va + sz <= MAXVA
      requires Mappable(s, root, va / PGSIZE, sz / PGSIZE, pa, mode)
      modifies this
      ensures Ok() && 0 <= k <= sz / PGSIZE
      ensures Mapped(old(s), s, root, va / PGSIZE, k, pa, mode)
      ensures r == 0 || r == -1
      ensures r == 0 <==> k == sz / PGSIZE
      ensures r == -1 ==> s.free == []
    {
      hide Inv;
      hide Leaf;
      hide MakePte;
      hide UserPage;
      hide Pte2Pa;
      hide Mapped;
      hide Extends;
      hide Mappable;
      var a, end, f := va, va + sz - PGSIZE, pa;
      k := 0;
      ghost var vpn, n := va / PGSIZE, sz / PGSIZE;
      MappedNothing(s, root, vpn, pa, mode);
      while true
        invariant 0 <= k < n && a == va + k * PGSIZE && f == Nth(pa, k)
        invariant Ok() && Mapped(old(s), s, root, vpn, k, pa, mode)
        decreases n - k
      {
        label Before:
        MappedTree(old(s), s, root, vpn, k, pa, mode);
        assert a / PGSIZE == vpn + k;
        var t := Walk(root, a, true);
        MappedWalk(old(s), old@Before(s), s, root, vpn, k, pa, mode);
        if t == 0 {
          return -1, k;
        }
        var i := Idx(0, a);
        TablePage(s, Node(root, 0, (vpn + k) / 512));
        MappableFits(old(s), root, vpn, n, pa, mode, k);
        ghost var e: Word := MakePte(f, mode);
        MapOne(old(s), s, SetLeaf(s, root, vpn + k, e), root, vpn, n, k, pa, mode, e);
        // mappages panics on an entry that is valid
        LeafAt(s, root, a);
        assert WordAt(mem, t, i) == 0;
        mem := mem[t := Store(mem[t], i, MakePte(f, mode))];
        s := SetLeaf(s, root, vpn + k, e);
        k := k + 1;
        if a == end {
          return 0, k;
        }
        a := a + PGSIZE;
        f := f + PGSIZE;
      }
    }
  }

  lemma NumEnds(va: int)
    requires 0 <= va < MAXVA
    ensures Num(2, va / PGSIZE) == 0 && Num(0, va / PGSIZE) == va / PGSIZE / 512
  {}

  lemma GrownKeeps(s: St, t: St, u: St, root: int)
    requires Extends(s, t, root) && Extends(t, u, root)
    requires forall f | f in s.owner && s.owner[f].Lent? :: t.owner[f] == Lent
    requires forall f | f in t.owner && t.owner[f].Lent? :: u.owner[f] == Lent
    ensures u.cut == s.cut && forall f | f in s.owner && s.owner[f].Lent? :: f in u.owner && u.owner[f] == Lent
  {}

  lemma MappedTree(s: St, t: St, root: int, vpn: int, k: int, pa: int, mode: int)
    requires Mapped(s, t, root, vpn, k, pa, mode) && Node(root, 2, 0) in s.tbl
    ensures t.cut == s.cut && Node(root, 2, 0) in t.tbl
  {}

  lemma MappableFits(s: St, root: int, vpn: int, n: int, pa: int, mode: int, k: int)
    requires Mappable(s, root, vpn, n, pa, mode) && 0 <= k < n
    ensures 0 <= MakePte(Nth(pa, k), mode) < 0x1_0000_0000_0000_0000
  {
    MapFits(pa, k, mode);
  }

  lemma LeafAt(s: St, root: int, a: int)
    requires Node(root, 0, a / PGSIZE / 512) in s.tbl && a >= 0
    ensures Leaf(s, root, a / PGSIZE) == WordAt(s.mem, s.tbl[Node(root, 0, a / PGSIZE / 512)], Idx(0, a))
    ensures Idx(0, a) == a / PGSIZE % 512
  {}

  lemma PageBounds(s: St, f: int)
    requires Inv(s) && f in s.owner
    ensures f in s.mem && Aligned(f) && 0 < f < PHYSTOP
  {}

  lemma FirstLink(s: St)
    requires Inv(s)
    ensures s.free == [] ==> s.freelist == 0
    ensures s.free != [] ==> WordAt(s.mem, s.free[0], 0) == FreeAt(s.free, 1)
  {}
}
