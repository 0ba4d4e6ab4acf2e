/** Copying the memory of a process (uvmcopy in kernel/uvm.c), and undoing an attempt that failed. */
module UserCopy {
  import opened Sv39
  import opened PageState
  import opened PageChanges
  import opened PageTable
  import opened UserMemory
  import opened UserFree

  /** flags & (PTE_R | PTE_W | PTE_X | PTE_U) */
  function CopyMode(flags: int): int {
    flags / 2 % 16 * 2
  }

  predicate IsUser(e: int) {
    Valid(e) && UserPage(e)
  }

  lemma CopyModeBits(e: Word)
    ensures var mode := CopyMode(PteFlags(e)); 0 <= mode < 32 && forall k | 1 <= k <= 4 :: Bit(mode, k) == Bit(e, k)
  {
    var h := e % 1024 / 2;
    assert Two(4) == 16;
    assert Two(10) == 1024 by {
      assert Two(5) == 32;
    }
    forall k | 1 <= k <= 4 ensures Bit(CopyMode(PteFlags(e)), k) == Bit(e, k) {
      Halve(h % 16, 0);
      LowBits(h, 4, k - 1);
      LowBits(e, 10, k);
    }
  }

  /** Page `v` of the new tree grants what that of the old one does and nothing else, and has the same
      content in a frame that was free. */
  ghost predicate CopyOf(s: St, t: St, root: int, copy: int, v: int) {
    var e, c := Leaf(s, root, v), Leaf(t, copy, v);
    if IsUser(e) then
      && Valid(c) && PteFlags(c) < 32
      && Readable(c) == Readable(e) && Writable(c) == Writable(e) && Executable(c) == Executable(e) && UserPage(c)
      && Pte2Pa(c) in s.owner && s.owner[Pte2Pa(c)].Free? && PageAt(t.mem, Pte2Pa(c)) == PageAt(s.mem, Pte2Pa(e))
    else
      c == Leaf(s, copy, v)
  }

  /** The first `k` pages are copied; nothing but the new tree and the free list has changed. */
  ghost predicate Copied(s: St, t: St, root: int, copy: int, k: int) {
    && Apart(s, t, copy) && TablesStay(s, t) && UsersKept(s, t, copy, 0, k)
    && (forall r, v {:trigger Leaf(t, r, v)} | !(r == copy && 0 <= v < k) :: Leaf(t, r, v) == Leaf(s, r, v))
    && (forall v {:trigger Leaf(t, copy, v)} | 0 <= v < k :: CopyOf(s, t, root, copy, v))
  }

  lemma CopiedNothing(s: St, root: int, copy: int)
    ensures Copied(s, s, root, copy, 0)
  {}

  lemma CopiedSkip(s: St, t: St, root: int, copy: int, k: int)
    requires Copied(s, t, root, copy, k) && k >= 0 && !IsUser(Leaf(s, root, k))
    ensures Copied(s, t, root, copy, k + 1)
  {
    hide Apart;
    hide Leaf;
    hide IsUser;
    assert Leaf(t, copy, k) == Leaf(s, copy, k);
    assert CopyOf(s, t, root, copy, k);
    forall v | 0 <= v < k + 1 ensures CopyOf(s, t, root, copy, v) {}
  }

  /** Growing the tree without mapping anything keeps the copies. */
  lemma CopiedGrow(s: St, t: St, u: St, root: int, copy: int, k: int, mode: int)
    requires Copied(s, t, root, copy, k) && k >= 0 && Allocated(t, u, copy, k, 0, mode) && Inv(s) && Inv(t)
    ensures Copied(s, u, root, copy, k)
  {
    hide Inv;
    hide Apart;
    hide Leaf;
    hide IsUser;
    hide UserPage;
    hide Pte2Pa;
    ApartTransitive(s, t, u, copy);
    SameKeys(s, t, copy);
    AllocatedUsers(s, t, u, copy, 0, k, 0);
    forall v | 0 <= v < k ensures CopyOf(s, u, root, copy, v) {
      CopyStays(s, t, u, root, copy, k, v);
    }
  }

  lemma SameKeys(s: St, t: St, root: int)
    requires Apart(s, t, root)
    ensures t.owner.Keys == s.owner.Keys
  {}

  lemma CopyStays(s: St, t: St, u: St, root: int, copy: int, k: int, v: int)
    requires Copied(s, t, root, copy, k) && Inv(t) && 0 <= v < k
    requires Leaf(u, copy, v) == Leaf(t, copy, v)
    requires forall f {:trigger PageAt(u.mem, f)} | f in t.owner && t.owner[f].User? ::
              PageAt(u.mem, f) == PageAt(t.mem, f)
    ensures CopyOf(s, u, root, copy, v)
  {
    hide Inv;
    hide Leaf;
    hide Pte2Pa;
    hide Apart;
    assert CopyOf(s, t, root, copy, v);
    if IsUser(Leaf(s, root, v)) {
      MappedFrame(t, copy, v);
    }
  }

  lemma CopiedMore(s: St, t: St, u: St, root: int, copy: int, k: int)
    requires Copied(s, t, root, copy, k) && k >= 0 && root != copy && IsUser(Leaf(s, root, k)) && Inv(s) && Inv(t)
    requires Gained(t, u, copy, k, PageAt(t.mem, Pte2Pa(Leaf(t, root, k))), CopyMode(PteFlags(Leaf(t, root, k))))
    ensures Copied(s, u, root, copy, k + 1)
  {
    hide Inv;
    hide Apart;
    hide Leaf;
    hide UserPage;
    hide PteFlags;
    hide Valid;
    hide Pte2Pa;
    hide MakePte;
    ApartTransitive(s, t, u, copy);
    SameKeys(s, t, copy);
    AllocatedUsers(s, t, u, copy, 0, k, 1);
    forall v | 0 <= v < k + 1 ensures CopyOf(s, u, root, copy, v) {
      if v < k {
        CopyStays(s, t, u, root, copy, k, v);
      } else {
        CopyIs(s, t, u, root, copy, k);
      }
    }
  }

  lemma CopyIs(s: St, t: St, u: St, root: int, copy: int, k: int)
    requires Copied(s, t, root, copy, k) && root != copy && IsUser(Leaf(s, root, k)) && Inv(s) && Inv(t)
    requires Gained(t, u, copy, k, PageAt(t.mem, Pte2Pa(Leaf(t, root, k))), CopyMode(PteFlags(Leaf(t, root, k))))
    ensures CopyOf(s, u, root, copy, k)
  {
    hide Inv;
    hide Leaf;
    hide PteFlags;
    hide Valid;
    hide Pte2Pa;
    hide MakePte;
    hide Bit;
    hide CopyMode;
    var e := Leaf(s, root, k);
    assert Leaf(t, root, k) == e;
    MappedFrame(s, root, k);
    var f, mode := t.free[0], CopyMode(PteFlags(e));
    CopyModeBits(e);
    MadeCopy(f, mode);
    FreeBefore(s, t, copy, 0, k, f);
  }

  lemma MadeCopy(f: int, mode: int)
    requires Aligned(f) && 0 <= mode < 32
    ensures var c := MakePte(f, mode); Valid(c) && PteFlags(c) < 32 && Pte2Pa(c) == f
                                       && forall k | 1 <= k < 10 :: Bit(c, k) == Bit(mode, k)
  {
    PteRoundTrip(f, mode);
  }

  /** mappages panics on a page that is mapped. */
  ghost predicate CanCopy(s: St, root: int, copy: int, n: int) {
    forall v {:trigger Leaf(s, copy, v)} | 0 <= v < n && IsUser(Leaf(s, root, v)) :: Leaf(s, copy, v) == 0
  }

  /** `k` says how many pages were done before memory ran out. */
  method Uvmcopy(m: Machine, root: int, copy: int, sz: int) returns (r: int, ghost k: int)
    requires m.Ok() && m.s.cut == {} && root != copy && Node(root, 2, 0) in m.s.tbl && Node(copy, 2, 0) in m.s.tbl
    requires 0 <= sz <= MAXVA && CanCopy(m.s, root, copy, PagesFor(sz))
    modifies m
    ensures m.Ok() && 0 <= k <= PagesFor(sz) && Copied(old(m.s), m.s, root, copy, k)
    ensures r == 0 || r == -1
    ensures r == 0 <==> k == PagesFor(sz)
    ensures r == -1 ==> |m.s.free| <= 1 && IsUser(Leaf(old(m.s), root, k))
  {
    hide Inv;
    hide Leaf;
    hide Copied;
    hide CanCopy;
    hide Mapped;
    hide Mappable;
    hide Extends;
    hide Allocated;
    hide Gained;
    hide Bit;
    hide PteFlags;
    hide CopyMode;
    hide Pte2Pa;
    ghost var s0, n := m.s, PagesFor(sz);
    k := 0;
    CopiedNothing(m.s, root, copy);
    var i := 0;
    while i < sz
      invariant 0 <= k <= n && i == k * PGSIZE
      invariant m.Ok() && Copied(s0, m.s, root, copy, k)
      decreases n - k
    {
      ghost var s1 := m.s;
      CopiedTree(s0, m.s, root, copy, k, n);
      assert i / PGSIZE == k;
      var t := m.Walk(root, i, false);
      if t != 0 {
        LeafAt(m.s, root, i);
      } else {
        NoTableNoLeaf(m.s, root, k);
      }
      if t == 0 || !Valid(WordAt(m.mem, t, Idx(0, i))) || !UserPage(WordAt(m.mem, t, Idx(0, i))) {
        CopiedSkip(s0, m.s, root, copy, k);
      } else {
        var pte := WordAt(m.mem, t, Idx(0, i));
        var pa, flags := Pte2Pa(pte), PteFlags(pte);
        MappedFrame(m.s, root, k);
        PageBounds(m.s, pa);
        CopyModeBits(pte);
        ghost var p := m.mem[pa];
        if m.s.free != [] {
          FreshInv(m.s, p);
          PageHeld(Fresh(m.s, p), m.s.free[0]);
          OneMappable(m.s, copy, k, p, CopyMode(flags));
        }
        var mem := m.Kpmalloc();
        if mem == 0 {
          return -1, k;
        }
        TakeKeeps(s1, pa);
        m.mem := m.mem[mem := m.mem[pa]];
        m.s := Fresh(s1, p);
        var e, j := m.Mappages(copy, i, mem, PGSIZE, CopyMode(flags));
        FreshRound(s1, m.s, copy, k, j, p, CopyMode(flags));
        if e != 0 {
          m.Discard(mem);
          CopiedGrow(s0, s1, m.s, root, copy, k, CopyMode(flags));
          return -1, k;
        }
        CopiedMore(s0, s1, m.s, root, copy, k);
      }
      k := k + 1;
      i := i + PGSIZE;
    }
    return 0, k;
  }

  lemma CopiedTree(s: St, t: St, root: int, copy: int, k: int, n: int)
    requires Copied(s, t, root, copy, k) && 0 <= k && root != copy && CanCopy(s, root, copy, n)
    requires Node(root, 2, 0) in s.tbl && Node(copy, 2, 0) in s.tbl
    ensures t.cut == s.cut && Node(root, 2, 0) in t.tbl && Node(copy, 2, 0) in t.tbl
    ensures Leaf(t, root, k) == Leaf(s, root, k)
    ensures k < n && IsUser(Leaf(s, root, k)) ==> Leaf(t, copy, k) == 0
  {
    hide Leaf;
    hide IsUser;
  }

  lemma NoTableNoLeaf(s: St, root: int, v: int)
    requires Node(root, 0, v / 512) !in s.tbl
    ensures Leaf(s, root, v) == 0
  {}

  lemma TakeKeeps(s: St, pa: int)
    requires Inv(s) && s.free != [] && pa in s.owner && s.owner[pa].User?
    ensures pa in Take(s).mem && Take(s).mem[pa] == PageAt(s.mem, pa)
  {
    hide Inv;
    FreePage(s);
    PageBounds(s, pa);
  }

  /** A tree that was made, filled in any way that keeps to its own and to free pages (a copy, whole or
      not, does), and freed again leaves memory as before: the same pages are free, and every other page
      has its owner and its content. */
  lemma FreeRestores(s: St, created: St, filled: St, u: St, root: int)
    requires Created(s, created, root) && Apart(created, filled, root) && Destroyed(filled, u, root)
    requires Inv(s) && Inv(created) && Inv(filled)
    ensures u.owner == s.owner && u.tbl == s.tbl && u.cut == s.cut
    ensures forall f | f in s.owner && !s.owner[f].Free? :: PageAt(u.mem, f) == PageAt(s.mem, f)
    ensures forall r, v :: Leaf(u, r, v) == Leaf(s, r, v)
  {
    hide Inv;
    hide Leaf;
    FreePage(s);
    InvApartLeaves(created, filled, root);
    NoTreeYet(s, root);
    forall f | f in s.owner ensures u.owner[f] == s.owner[f] {}
    assert u.owner == s.owner;
    assert u.tbl == s.tbl;
  }

  lemma InvApartLeaves(s: St, t: St, root: int)
    requires Inv(s) && Apart(s, t, root)
    ensures forall r, v | r != root :: Leaf(t, r, v) == Leaf(s, r, v)
  {
    ApartLeaves(s, t, root);
  }

  lemma NoTreeYet(s: St, root: int)
    requires Inv(s) && Node(root, 2, 0) !in s.tbl
    ensures forall n | n in s.tbl :: n.root != root
    ensures forall f {:trigger s.owner[f]} | f in s.owner :: Mine(s.owner[f], root) ==> s.owner[f].Free?
    ensures forall v :: Leaf(s, root, v) == 0
  {
    hide Inv;
    hide Leaf;
    forall n | n in s.tbl ensures n.root != root {
      Ancestor2(s, n);
    }
    forall f | f in s.owner && Mine(s.owner[f], root) ensures s.owner[f].Free? {
      OwnedIn(s, f);
      if s.owner[f].User? {
        HasRoot(s, root, s.owner[f].vpn);
      }
    }
    forall v ensures Leaf(s, root, v) == 0 {
      if Leaf(s, root, v) != 0 {
        HasRoot(s, root, v);
      }
    }
  }

  lemma Ancestor2(s: St, n: Node)
    requires Inv(s) && n in s.tbl
    ensures Node(n.root, 2, 0) in s.tbl
  {
    hide Inv;
    TablePage(s, n);
    Ancestor(s, n, 2 - n.level);
    TablePage(s, Node(n.root, 2, Up(n.num, 2 - n.level)));
  }
}
