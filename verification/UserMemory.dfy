/** The page tables of processes (kernel/uvm.c). */
module UserMemory {
  import opened Sv39
  import opened PageState
  import opened PageChanges
  import opened PageTable

  /** uvmunmap panics unless every page is mapped; only frames mapped for the user are freed here. */
  ghost predicate CanUnmap(s: St, root: int, vpn: int, n: int, freed: bool) {
    forall v {:trigger Leaf(s, root, v)} | vpn <= v < vpn + n ::
      Valid(Leaf(s, root, v)) && PteFlags(Leaf(s, root, v)) != PTE_V && (freed ==> UserPage(Leaf(s, root, v)))
  }

  method Uvmunmap(m: Machine, root: int, va: int, npages: int, doFree: bool)
    requires m.Ok() && m.s.cut == {} && Node(root, 2, 0) in m.s.tbl
    requires Aligned(va) && 0 <= va && 0 <= npages && va + npages * PGSIZE <= MAXVA
    requires CanUnmap(m.s, root, va / PGSIZE, npages, doFree)
    modifies m
    ensures m.Ok() && Unmapped(old(m.s), m.s, root, va / PGSIZE, npages, doFree)
  {
    hide Inv;
    hide Leaf;
    hide UserPage;
    hide Pte2Pa;
    hide PteFlags;
    hide Unmapped;
    hide UnmapOne;
    hide Store;
    hide WordAt;
    hide Idx;
    var a := va;
    ghost var k, vpn := 0, va / PGSIZE;
    UnmappedNothing(m.s, root, vpn, doFree);
    while a < va + npages * PGSIZE
      invariant 0 <= k <= npages && a == va + k * PGSIZE
      invariant m.Ok() && Unmapped(old(m.s), m.s, root, vpn, k, doFree)
      decreases npages - k
    {
      UnmappedTree(old(m.s), m.s, root, vpn, k, doFree);
      assert a / PGSIZE == vpn + k;
      UnmapOneInv(m.s, root, vpn + k, doFree);
      MappedFrame(m.s, root, vpn + k);
      ghost var before, u := m.s, UnmapOne(m.s, root, vpn + k, doFree);
      UnmappedMore(old(m.s), m.s, u, root, vpn, k, doFree);
      var t := m.Walk(root, a, false);
      LeafAt(m.s, root, a);
      TablePage(m.s, Node(root, 0, (vpn + k) / 512));
      var i := Idx(0, a);
      var pte := WordAt(m.mem, t, i);
      assert t != 0 && Valid(pte) && PteFlags(pte) != PTE_V;
      if doFree {
        PageBounds(m.s, Pte2Pa(pte));
        m.Kpmfree(Pte2Pa(pte));
      }
      m.mem := m.mem[t := Store(m.mem[t], i, 0)];
      UnmapOneMemory(before, root, vpn + k, doFree);
      m.s := u;
      k := k + 1;
      a := a + PGSIZE;
    }
  }

  /** uvmunmap frees the frame before it clears the entry. */
  lemma UnmapOneMemory(s: St, root: int, v: int, freed: bool)
    requires Valid(Leaf(s, root, v)) && (freed ==> UserPage(Leaf(s, root, v)))
    requires Inv(s) && Node(root, 0, v / 512) in s.tbl && 0 <= s.freelist < PHYSTOP
    ensures var u, t, f := UnmapOne(s, root, v, freed), s.tbl[Node(root, 0, v / 512)], Pte2Pa(Leaf(s, root, v));
      && u.freelist == (if freed then f else s.freelist)
      && var mem := if freed then s.mem[f := Store(Filled(1), 0, s.freelist)] else s.mem;
         u.mem == mem[t := Store(PageAt(mem, t), v % 512, 0)]
  {
    hide Inv;
    hide Leaf;
    hide UserPage;
    hide Pte2Pa;
    MappedFrame(s, root, v);
    TablePage(s, Node(root, 0, v / 512));
  }

  lemma UnmappedTree(s: St, t: St, root: int, vpn: int, k: int, freed: bool)
    requires Unmapped(s, t, root, vpn, k, freed)
    ensures t.cut == s.cut && t.tbl == s.tbl
    ensures forall v | vpn + k <= v :: Leaf(t, root, v) == Leaf(s, root, v)
  {}

  // ----- uvmcreate

  /** A new tree without any mapped page. */
  ghost predicate Created(s: St, t: St, root: int) {
    && s.free != [] && root == s.free[0] && Node(root, 2, 0) !in s.tbl && t.cut == s.cut
    && t.tbl == s.tbl[Node(root, 2, 0) := root] && t.owner == s.owner[root := Table(Node(root, 2, 0))]
       && t.free == s.free[1..]
    && (forall v {:trigger Leaf(t, root, v)} :: Leaf(t, root, v) == 0)
    && (forall r, v {:trigger Leaf(t, r, v)} :: Leaf(t, r, v) == Leaf(s, r, v))
    && (forall f {:trigger PageAt(t.mem, f)} | f != root :: PageAt(t.mem, f) == PageAt(s.mem, f))
  }

  method Uvmcreate(m: Machine) returns (root: int)
    requires m.Ok()
    modifies m
    ensures m.Ok()
    ensures root == 0 <==> old(m.s).free == []
    ensures root == 0 ==> m.s == old(m.s)
    ensures root != 0 ==> Created(old(m.s), m.s, root)
  {
    hide Inv;
    hide Leaf;
    if m.s.free != [] {
      FreshInv(m.s, Filled(0));
      PageHeld(Fresh(m.s, Filled(0)), m.s.free[0]);
      NewRootInv(Fresh(m.s, Filled(0)), m.s.free[0]);
      NoLeaves(m.s, m.s.free[0]);
    }
    root := m.Kpmalloc();
    if root == 0 {
      return;
    }
    m.mem := m.mem[root := Filled(0)];
    m.s := NewRoot(Fresh(old(m.s), Filled(0)), root);
  }

  lemma PageHeld(s: St, f: int)
    requires Inv(s) && f in s.owner && s.owner[f] == Lent
    ensures f in s.mem
  {}

  lemma NoLeaves(s: St, root: int)
    requires Inv(s) && root in s.owner && s.owner[root].Free?
    ensures Node(root, 2, 0) !in s.tbl && forall v :: Leaf(s, root, v) == 0
  {
    FreeIsNoRoot(s, root);
    hide Inv;
    hide Leaf;
    forall v ensures Leaf(s, root, v) == 0 {
      if Leaf(s, root, v) != 0 {
        HasRoot(s, root, v);
      }
    }
  }

  lemma FreeIsNoRoot(s: St, root: int)
    requires Inv(s) && root in s.owner && s.owner[root].Free?
    ensures Node(root, 2, 0) !in s.tbl
  {}

  lemma HasRoot(s: St, root: int, v: int)
    requires Inv(s) && Leaf(s, root, v) != 0
    ensures Node(root, 2, 0) in s.tbl
  {
    var n := Node(root, 0, v / 512);
    assert Parent(n) in s.tbl && Parent(Parent(n)) in s.tbl;
  }

  // ----- uvmdealloc

  /** The number of pages that `a` bytes take. */
  function PagesFor(a: int): int {
    (a + PGSIZE - 1) / PGSIZE
  }

  method Uvmdealloc(m: Machine, root: int, oldsz: int, newsz: int) returns (r: int)
    requires m.Ok() && m.s.cut == {} && Node(root, 2, 0) in m.s.tbl
    requires 0 <= newsz && 0 <= oldsz <= MAXVA
    requires newsz < oldsz ==> CanUnmap(m.s, root, PagesFor(newsz), PagesFor(oldsz) - PagesFor(newsz), true)
    modifies m
    ensures m.Ok()
    ensures newsz >= oldsz ==> r == oldsz && m.s == old(m.s)
    ensures newsz < oldsz ==> r == newsz && Unmapped(old(m.s), m.s, root, PagesFor(newsz),
                              PagesFor(oldsz) - PagesFor(newsz), true)
  {
    hide Inv;
    hide Unmapped;
    hide CanUnmap;
    if newsz >= oldsz {
      return oldsz;
    }
    UnmappedNothing(m.s, root, PagesFor(newsz), true);
    if PgRoundUp(newsz) < PgRoundUp(oldsz) {
      var npages := (PgRoundUp(oldsz) - PgRoundUp(newsz)) / PGSIZE;
      Uvmunmap(m, root, PgRoundUp(newsz), npages, true);
    }
    return newsz;
  }

  // ----- uvmalloc

  /** PTE_R | PTE_U | xperm */
  function UserMode(xperm: nat): nat {
    SetBit(SetBit(xperm, 1), 4)
  }

  lemma UserModeBits(xperm: nat)
    requires xperm < 1024
    ensures 0 <= UserMode(xperm) < 1024 && UserPage(UserMode(xperm)) && Readable(UserMode(xperm))
    ensures forall k :: Bit(UserMode(xperm), k) == (k == 1 || k == 4 || Bit(xperm, k))
  {
    forall k ensures Bit(UserMode(xperm), k) == (k == 1 || k == 4 || Bit(xperm, k)) {
      SetBitBits(SetBit(xperm, 1), 4, k);
      SetBitBits(xperm, 1, k);
    }
    assert Two(10) == 1024 by {
      assert Two(5) == 32;
    }
    SetBitBound(xperm, 1, 10);
    SetBitBound(SetBit(xperm, 1), 4, 10);
  }

  /** mappages panics on a page that is mapped. */
  ghost predicate Unused(s: St, root: int, vpn: int, n: int) {
    forall v {:trigger Leaf(s, root, v)} | vpn <= v < vpn + n :: Leaf(s, root, v) == 0
  }

  /** All or nothing: with `done` the pages are there; otherwise the address map is as it was, and so
      little memory was free that not even now one page more than asked for is. */
  method Uvmalloc(m: Machine, root: int, oldsz: int, newsz: int, xperm: nat) returns (r: int, ghost done: bool)
    requires m.Ok() && m.s.cut == {} && Node(root, 2, 0) in m.s.tbl
    requires 0 <= oldsz && newsz <= MAXVA && xperm < 1024
    requires Unused(m.s, root, PagesFor(oldsz), PagesFor(newsz) - PagesFor(oldsz))
    modifies m
    ensures m.Ok()
    ensures newsz < oldsz ==> r == oldsz && m.s == old(m.s)
    ensures newsz >= oldsz && done ==>
              r == newsz && Allocated(old(m.s), m.s, root, PagesFor(oldsz), PagesFor(newsz) - PagesFor(oldsz),
                  UserMode(xperm))
    ensures newsz >= oldsz && !done ==>
              r == 0 && Allocated(old(m.s), m.s, root, PagesFor(oldsz), 0, UserMode(xperm)) &&
              |m.s.free| <= PagesFor(newsz) - PagesFor(oldsz)
  {
    hide Inv;
    hide Leaf;
    hide Allocated;
    hide Unmapped;
    hide UserMode;
    hide UserPage;
    hide Mapped;
    hide Mappable;
    hide Extends;
    hide Gained;
    if newsz < oldsz {
      return oldsz, true;
    }
    ghost var s0, vpn, n, k, mode := m.s, PagesFor(oldsz), PagesFor(newsz) - PagesFor(oldsz), 0, UserMode(xperm);
    UserModeBits(xperm);
    AllocatedNothing(m.s, root, vpn, mode);
    var start := PgRoundUp(oldsz);
    var a := start;
    while a < newsz
      invariant 0 <= k <= n && a == (vpn + k) * PGSIZE
      invariant m.Ok() && Allocated(s0, m.s, root, vpn, k, mode)
      decreases n - k
    {
      AllocatedTree(s0, m.s, root, vpn, k, n, mode);
      ghost var s1 := m.s;
      if m.s.free != [] {
        FreshInv(m.s, Filled(0));
        PageHeld(Fresh(m.s, Filled(0)), m.s.free[0]);
        OneMappable(m.s, root, vpn + k, Filled(0), mode);
      }
      var p := m.Kpmalloc();
      if p == 0 {
        RollBack(m, root, a, start, vpn, k, mode, s0);
        return 0, false;
      }
      m.mem := m.mem[p := Filled(0)];
      m.s := Fresh(s1, Filled(0));
      assert a / PGSIZE == vpn + k;
      var e, j := m.Mappages(root, a, p, PGSIZE, UserMode(xperm));
      FreshRound(s1, m.s, root, vpn + k, j, Filled(0), mode);
      if e != 0 {
        m.Discard(p);
        AllocatedMore(s0, s1, m.s, root, vpn, k, 0, mode);
        AllocatedTree(s0, m.s, root, vpn, k, n, mode);
        RollBack(m, root, a, start, vpn, k, mode, s0);
        return 0, false;
      }
      AllocRound(s1, m.s, root, vpn + k, mode);
      AllocatedMore(s0, s1, m.s, root, vpn, k, 1, mode);
      k := k + 1;
      a := a + PGSIZE;
    }
    return newsz, true;
  }

  /** Both failure exits of uvmalloc take the first `k` pages back. */
  method RollBack(m: Machine, root: int, a: int, start: int, ghost vpn: int, ghost k: int, ghost mode: int,
      ghost s0: St)
    requires m.Ok() && m.s.cut == {} && Node(root, 2, 0) in m.s.tbl
    requires 0 <= vpn && 0 <= k && start == vpn * PGSIZE && a == (vpn + k) * PGSIZE <= MAXVA
    requires 0 <= mode < 1024 && UserPage(mode)
    requires Inv(s0) && Allocated(s0, m.s, root, vpn, k, mode) && Unused(s0, root, vpn, k)
    modifies m
    ensures m.Ok() && Allocated(s0, m.s, root, vpn, 0, mode) && |m.s.free| == |old(m.s).free| + k
  {
    hide Inv;
    hide Allocated;
    hide Unmapped;
    hide CanUnmap;
    hide Unused;
    hide UserPage;
    assert PagesFor(start) == vpn && PagesFor(a) == vpn + k;
    ghost var s1 := m.s;
    AllocatedCanUnmap(s0, m.s, root, vpn, k, mode);
    var _ := Uvmdealloc(m, root, a, start);
    if k > 0 {
      AllocatedTakenBack(s0, s1, m.s, root, vpn, k, mode);
    }
  }

  lemma AllocatedTakenBack(s: St, t: St, u: St, root: int, vpn: int, n: int, mode: int)
    requires Inv(s) && Unused(s, root, vpn, n) && n >= 0
    requires Allocated(s, t, root, vpn, n, mode) && Unmapped(t, u, root, vpn, n, true)
    ensures Allocated(s, u, root, vpn, 0, mode) && |u.free| == |t.free| + n
  {
    hide Inv;
    AllocatedUnmapped(s, t, u, root, vpn, n, mode);
  }

  lemma AllocatedCanUnmap(s: St, t: St, root: int, vpn: int, k: int, mode: int)
    requires Allocated(s, t, root, vpn, k, mode) && 0 <= mode < 1024 && UserPage(mode)
    ensures CanUnmap(t, root, vpn, k, true)
  {
    hide Leaf;
    assert mode >= 16;
    PteRoundTrip(0, mode);
    forall v | vpn <= v < vpn + k
      ensures Valid(Leaf(t, root, v)) && PteFlags(Leaf(t, root, v)) != PTE_V && UserPage(Leaf(t, root, v))
    {
      assert NewPage(s, t, root, v, mode);
    }
  }

  lemma AllocatedTree(s: St, t: St, root: int, vpn: int, k: int, n: int, mode: int)
    requires Allocated(s, t, root, vpn, k, mode) && Node(root, 2, 0) in s.tbl && 0 <= k <= n && Unused(s, root, vpn, n)
    ensures t.cut == s.cut && Node(root, 2, 0) in t.tbl
    ensures k < n ==> Leaf(t, root, vpn + k) == 0
    ensures Unused(s, root, vpn, k)
  {
    hide Leaf;
  }

  lemma OneMappable(s: St, root: int, v: int, p: Page, mode: int)
    requires Inv(s) && s.free != [] && v >= 0 && Leaf(s, root, v) == 0 && 0 <= mode < 1024
    ensures Mappable(Fresh(s, p), root, v, 1, s.free[0], mode)
  {
    hide Inv;
    hide Leaf;
    hide UserPage;
    FreshInv(s, p);
  }
}
