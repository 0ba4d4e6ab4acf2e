/** What the operations of kernel/vm.c and kernel/uvm.c may change, as relations between the state before
    and the state after, and how they compose. */
module PageChanges {
  import opened Sv39
  import opened PageState

  lemma TablePage(s: St, n: Node)
    requires Inv(s) && n in s.tbl
    ensures s.tbl[n] in s.owner && s.owner[s.tbl[n]] == Table(n) && s.tbl[n] in s.mem
    ensures 0 < s.tbl[n] < PHYSTOP && Aligned(s.tbl[n])
    ensures 0 <= n.level <= 2 && n.num >= 0 && (n.level == 2 ==> n.num == 0 && s.tbl[n] == n.root)
  {
    NodeOwner(s, n);
  }

  /** Only a mapped page owns a frame. */
  lemma Unowned(s: St, root: int, vpn: int)
    requires Inv(s) && !(Valid(Leaf(s, root, vpn)) && UserPage(Leaf(s, root, vpn)))
    ensures forall f {:trigger s.owner[f]} | f in s.owner :: s.owner[f] != User(root, vpn)
  {}

  /** The pages that an operation on the tree of `root` may use: the free ones and those of the tree. */
  predicate Mine(o: Owner, root: int) {
    o.Free? || (o.Table? && o.node.root == root) || (o.User? && o.root == root)
  }

  /** Every page that is neither free nor of the tree keeps its owner and its content, and all other
      trees are as before. */
  ghost predicate Apart(s: St, t: St, root: int) {
    && t.owner.Keys == s.owner.Keys && t.cut == s.cut
    && (forall n: Node {:trigger n in t.tbl} {:trigger n in s.tbl} | n.root != root :: n in t.tbl <==> n in s.tbl)
    && (forall n: Node {:trigger s.tbl[n]} {:trigger t.tbl[n]} | n in s.tbl && n in t.tbl && n.root != root ::
          t.tbl[n] == s.tbl[n])
    && (forall f {:trigger t.owner[f]} {:trigger s.owner[f]} | f in s.owner ::
          Mine(t.owner[f], root) == Mine(s.owner[f], root) && (!Mine(s.owner[f], root) ==> t.owner[f] == s.owner[f]))
    && (forall f {:trigger PageAt(t.mem, f)} | f in s.owner && !Mine(s.owner[f], root) ::
          PageAt(t.mem, f) == PageAt(s.mem, f))
  }

  lemma ApartLeaves(s: St, t: St, root: int)
    requires TableOwners(s) && Apart(s, t, root)
    ensures forall r, v | r != root :: Leaf(t, r, v) == Leaf(s, r, v)
  {
    forall r, v | r != root ensures Leaf(t, r, v) == Leaf(s, r, v) {
      var n := Node(r, 0, v / 512);
      if n in s.tbl {
        assert s.owner[s.tbl[n]] == Table(n);
      }
    }
  }

  lemma ApartTransitive(s: St, t: St, u: St, root: int)
    requires Apart(s, t, root) && Apart(t, u, root)
    ensures Apart(s, u, root)
  {
    forall f | f in s.owner
      ensures Mine(u.owner[f], root) == Mine(s.owner[f], root)
      ensures !Mine(s.owner[f], root) ==> u.owner[f] == s.owner[f] && PageAt(u.mem, f) == PageAt(s.mem, f)
    {
      assert Mine(t.owner[f], root) == Mine(s.owner[f], root);
    }
  }

  // ----- Growing a tree: walk with allocation, mappages

  /** The free list lost pages from its front only. */
  ghost predicate Suffix(shorter: seq<int>, longer: seq<int>) {
    |shorter| <= |longer| && shorter == longer[|longer| - |shorter|..]
  }

  lemma SuffixTransitive(a: seq<int>, b: seq<int>, c: seq<int>)
    requires Suffix(a, b) && Suffix(b, c)
    ensures Suffix(a, c)
  {}

  predicate TableOf(o: Owner, root: int) {
    o.Table? && o.node.root == root
  }

  /** What may become of a page while a tree grows. */
  predicate GrowsTo(was: Owner, now: Owner, root: int) {
    match was
    case Free => now.Free? || TableOf(now, root)
    case Lent => now.Lent? || (now.User? && now.root == root)
    case _ => now == was
  }

  ghost predicate Extends(s: St, t: St, root: int) {
    && t.owner.Keys == s.owner.Keys && t.cut == s.cut && Suffix(t.free, s.free)
    && (forall n: Node {:trigger n in t.tbl} {:trigger n in s.tbl} | n in s.tbl :: n in t.tbl && t.tbl[n] == s.tbl[n])
    && (forall n: Node {:trigger n in t.tbl} | n in t.tbl :: n.root == root || n in s.tbl)
    && (forall f {:trigger t.owner[f]} {:trigger s.owner[f]} | f in s.owner :: GrowsTo(s.owner[f], t.owner[f], root))
    && (forall f {:trigger PageAt(t.mem, f)} | f in s.owner && !s.owner[f].Free? && !TableOf(s.owner[f], root) ::
          PageAt(t.mem, f) == PageAt(s.mem, f))
  }

  lemma ExtendsSelf(s: St, root: int)
    ensures Extends(s, s, root)
  {}

  lemma ExtendsTransitive(s: St, t: St, u: St, root: int)
    requires Extends(s, t, root) && Extends(t, u, root)
    ensures Extends(s, u, root)
  {
    forall f | f in s.owner
      ensures GrowsTo(s.owner[f], u.owner[f], root)
      ensures !s.owner[f].Free? && !TableOf(s.owner[f], root) ==> PageAt(u.mem, f) == PageAt(s.mem, f)
    {
      assert GrowsTo(s.owner[f], t.owner[f], root);
      assert GrowsTo(t.owner[f], u.owner[f], root);
    }
  }

  /** Entry `j` of a run of pages that starts at `pa`. */
  function Nth(pa: int, j: int): int {
    pa + j * PGSIZE
  }

  /** The frame is the `i`th of the run, for some i below k. */
  predicate InFrames(pa: int, k: int, f: int) {
    pa <= f < Nth(pa, k) && Aligned(f)
  }

  /** The page that frame `f` of the run is mapped as. */
  function PageOf(vpn: int, pa: int, f: int): int {
    vpn + (f - pa) / PGSIZE
  }

  /** `k` pages from `vpn` on are mapped to the frames from `pa` on, nothing else is mapped anew. */
  ghost predicate Mapped(s: St, t: St, root: int, vpn: int, k: int, pa: int, mode: int) {
    && Extends(s, t, root)
    && (forall r, v {:trigger Leaf(t, r, v)} ::
          Leaf(t, r, v) == if r == root && vpn <= v < vpn + k then MakePte(Nth(pa, v - vpn), mode) else Leaf(s, r, v))
    && (forall f {:trigger t.owner[f]} | f in s.owner && s.owner[f].Lent? ::
          t.owner[f] == if UserPage(mode) && InFrames(pa, k, f) then User(root, PageOf(vpn, pa, f)) else Lent)
  }

  lemma MappedNothing(s: St, root: int, vpn: int, pa: int, mode: int)
    ensures Mapped(s, s, root, vpn, 0, pa, mode)
  {}

  /** What mappages asks for: pages that are not mapped and, to map them for the user, frames that the
      caller holds. */
  ghost predicate Mappable(s: St, root: int, vpn: int, n: int, pa: int, mode: int) {
    && vpn >= 0 && Aligned(pa) && 0 <= pa && Nth(pa, n) <= MAXPA && 0 <= mode < 1024
    && (forall v {:trigger Leaf(s, root, v)} | vpn <= v < vpn + n :: Leaf(s, root, v) == 0)
    && (UserPage(mode) ==> forall j {:trigger Nth(pa, j)} | 0 <= j < n ::
                           Nth(pa, j) in s.owner && s.owner[Nth(pa, j)].Lent?)
  }

  lemma MappedWalk(s: St, t: St, u: St, root: int, vpn: int, k: int, pa: int, mode: int)
    requires Mapped(s, t, root, vpn, k, pa, mode) && Extends(t, u, root)
    requires forall r, v :: Leaf(u, r, v) == Leaf(t, r, v)
    requires forall f | f in t.owner && t.owner[f].Lent? :: u.owner[f] == Lent
    ensures Mapped(s, u, root, vpn, k, pa, mode)
  {
    hide Leaf;
    ExtendsTransitive(s, t, u, root);
  }

  lemma MapFits(pa: int, k: int, mode: int)
    requires Aligned(pa) && 0 <= pa && 0 <= k && Nth(pa, k + 1) <= MAXPA && 0 <= mode < 1024
    ensures 0 <= MakePte(Nth(pa, k), mode) < 0x1_0000_0000_0000_0000
    ensures Aligned(Nth(pa, k)) && Valid(MakePte(Nth(pa, k), mode))
    ensures Pte2Pa(MakePte(Nth(pa, k), mode)) == Nth(pa, k)
    ensures UserPage(MakePte(Nth(pa, k), mode)) == UserPage(mode)
  {
    PteRoundTrip(Nth(pa, k), mode);
  }

  /** The `k`th round of mappages stores its entry. */
  lemma MapOne(s: St, t: St, u: St, root: int, vpn: int, n: int, k: int, pa: int, mode: int, e: Word)
    requires 0 <= k < n && e == MakePte(Nth(pa, k), mode)
    requires Node(root, 0, (vpn + k) / 512) in t.tbl && u == SetLeaf(t, root, vpn + k, e)
    requires Mappable(s, root, vpn, n, pa, mode) && Mapped(s, t, root, vpn, k, pa, mode) && Inv(t)
    ensures Leaf(t, root, vpn + k) == 0
    ensures Inv(u) && Mapped(s, u, root, vpn, k + 1, pa, mode)
  {
    hide Inv;
    hide Leaf;
    hide MakePte;
    hide UserPage;
    hide Valid;
    hide Pte2Pa;
    hide Nth;
    hide InFrames;
    hide PageOf;
    hide Aligned;
    hide Extends;
    hide OwnerAfter;
    hide SetLeaf;
    MappableAt(s, root, vpn, n, k, pa, mode);
    assert Leaf(s, root, vpn + k) == 0;
    MapOneLent(s, t, root, vpn, n, k, pa, mode);
    SetLeafInv(t, root, vpn + k, e);
    SetLeafExtends(t, u, root, vpn + k, e);
    ExtendsTransitive(s, t, u, root);
    MapOneOwners(s, t, u, root, vpn, n, k, pa, mode, e);
  }

  lemma MappableAt(s: St, root: int, vpn: int, n: int, k: int, pa: int, mode: int)
    requires Mappable(s, root, vpn, n, pa, mode) && 0 <= k < n
    ensures Leaf(s, root, vpn + k) == 0
    ensures var e := MakePte(Nth(pa, k), mode);
      0 <= e < 0x1_0000_0000_0000_0000 && Valid(e) && Pte2Pa(e) == Nth(pa, k) && UserPage(e) == UserPage(mode)
  {
    hide Leaf;
    MapFits(pa, k, mode);
  }

  lemma MapOneLent(s: St, t: St, root: int, vpn: int, n: int, k: int, pa: int, mode: int)
    requires Mappable(s, root, vpn, n, pa, mode) && Mapped(s, t, root, vpn, k, pa, mode) && 0 <= k < n
    ensures UserPage(mode) ==> Nth(pa, k) in t.owner && t.owner[Nth(pa, k)] == Lent
  {
    hide UserPage;
  }

  lemma SetLeafExtends(t: St, u: St, root: int, v: int, e: Word)
    requires Node(root, 0, v / 512) in t.tbl && u == SetLeaf(t, root, v, e)
    requires UserPage(e) ==> Pte2Pa(e) in t.owner && t.owner[Pte2Pa(e)] == Lent
    requires CanSetLeaf(t, root, v, e) && Leaf(t, root, v) == 0 && Inv(t)
    ensures Extends(t, u, root)
  {
    hide Inv;
    hide Leaf;
    hide UserPage;
    hide Pte2Pa;
    hide CanSetLeaf;
    SetLeafInv(t, root, v, e);
    var n := Node(root, 0, v / 512);
    TablePage(t, n);
    Unowned(t, root, v);
    forall f | f in t.owner ensures GrowsTo(t.owner[f], u.owner[f], root) {
      assert u.owner[f] == OwnerAfter(t, root, v, e, f);
    }
    assert u.mem == t.mem[t.tbl[n] := Store(PageAt(t.mem, t.tbl[n]), v % 512, e)];
  }

  lemma MapOneOwners(s: St, t: St, u: St, root: int, vpn: int, n: int, k: int, pa: int, mode: int, e: Word)
    requires 0 <= k < n && e == MakePte(Nth(pa, k), mode)
    requires Node(root, 0, (vpn + k) / 512) in t.tbl && u == SetLeaf(t, root, vpn + k, e)
    requires CanSetLeaf(t, root, vpn + k, e)
    requires Mappable(s, root, vpn, n, pa, mode) && Mapped(s, t, root, vpn, k, pa, mode) && Inv(t)
    ensures forall f {:trigger u.owner[f]} | f in s.owner && s.owner[f].Lent? :: f in u.owner &&
              u.owner[f] == if UserPage(mode) && InFrames(pa, k + 1, f) then User(root, PageOf(vpn, pa, f)) else Lent
  {
    hide Inv;
    hide Leaf;
    hide MakePte;
    hide UserPage;
    hide Valid;
    hide Pte2Pa;
    MapFits(pa, k, mode);
    SetLeafInv(t, root, vpn + k, e);
    forall f | f in s.owner && s.owner[f].Lent?
      ensures f in u.owner
      ensures u.owner[f] == if UserPage(mode) && InFrames(pa, k + 1, f) then User(root, PageOf(vpn, pa, f)) else Lent
    {
      assert u.owner[f] == OwnerAfter(t, root, vpn + k, e, f);
      Frames(pa, k, f);
    }
  }

  lemma Frames(pa: int, k: int, f: int)
    requires Aligned(pa) && 0 <= k
    ensures InFrames(pa, k + 1, f) <==> InFrames(pa, k, f) || f == Nth(pa, k)
    ensures forall vpn :: PageOf(vpn, pa, Nth(pa, k)) == vpn + k
  {}

  /** walk with `alloc`: a page from the free list becomes the missing table `c`. */
  function Grow(s: St, c: Node): St
    requires s.free != [] && Parent(c) in s.tbl && 0 < s.free[0] < MAXPA
  {
    PteFits(s.free[0]);
    Install(Fresh(s, Filled(0)), c, s.free[0])
  }

  lemma GrowInv(s: St, c: Node)
    requires Inv(s) && s.free != [] && Parent(c) in s.tbl && c !in s.tbl && 0 <= c.level <= 1 && c.num >= 0
    ensures 0 < s.free[0] < MAXPA && Inv(Grow(s, c))
    ensures forall r, v :: Leaf(Grow(s, c), r, v) == Leaf(s, r, v)
    ensures Extends(s, Grow(s, c), c.root)
    ensures Grow(s, c).tbl == s.tbl[c := s.free[0]]
    ensures forall f | f in s.owner && s.owner[f].Lent? :: Grow(s, c).owner[f] == Lent
  {
    hide Inv;
    hide Leaf;
    var f, b := s.free[0], Fresh(s, Filled(0));
    FreshInv(s, Filled(0));
    InstallInv(b, c, f);
    GrowExtends(s, c);
  }

  lemma FreePage(s: St)
    requires Inv(s) && s.free != []
    ensures s.free[0] in s.owner && s.owner[s.free[0]] == Free && 0 < s.free[0] < PHYSTOP && Aligned(s.free[0])
    ensures s.freelist == s.free[0]
  {
    FirstFree(s);
  }

  lemma GrowExtends(s: St, c: Node)
    requires Inv(s) && s.free != [] && Parent(c) in s.tbl && c !in s.tbl && 0 < s.free[0] < MAXPA
    ensures Extends(s, Grow(s, c), c.root)
  {
    hide Inv;
    FreePage(s);
    TablePage(s, Parent(c));
    var t := Grow(s, c);
    assert t.free == s.free[1..];
    assert t.tbl == s.tbl[c := s.free[0]];
  }

  // ----- Taking pages out of a tree: uvmunmap

  predicate UserIn(o: Owner, root: int, vpn: int, n: int) {
    o.User? && o.root == root && vpn <= o.vpn < vpn + n
  }

  /** The entries of `n` pages from `vpn` on are cleared; the frames they mapped for the user are put on
      the free list or stay with the caller. */
  ghost predicate Unmapped(s: St, t: St, root: int, vpn: int, n: int, freed: bool) {
    && t.owner.Keys == s.owner.Keys && t.cut == s.cut && t.tbl == s.tbl
    && Suffix(s.free, t.free) && |t.free| == |s.free| + (if freed then n else 0)
    && (forall r, v {:trigger Leaf(t, r, v)} ::
          Leaf(t, r, v) == if r == root && vpn <= v < vpn + n then 0 else Leaf(s, r, v))
    && (forall f {:trigger t.owner[f]} {:trigger s.owner[f]} | f in s.owner ::
          t.owner[f] == if UserIn(s.owner[f], root, vpn, n) then (if freed then Free else Lent) else s.owner[f])
    && (forall f {:trigger PageAt(t.mem, f)} |
          f in s.owner && !TableOf(s.owner[f], root) && !(freed && UserIn(s.owner[f], root, vpn, n)) ::
          PageAt(t.mem, f) == PageAt(s.mem, f))
  }

  lemma UnmappedNothing(s: St, root: int, vpn: int, freed: bool)
    ensures Unmapped(s, s, root, vpn, 0, freed)
  {}

  lemma UnmappedMore(s: St, t: St, u: St, root: int, vpn: int, k: int, freed: bool)
    requires Unmapped(s, t, root, vpn, k, freed) && Unmapped(t, u, root, vpn + k, 1, freed) && k >= 0
    ensures Unmapped(s, u, root, vpn, k + 1, freed)
  {
    hide Leaf;
    SuffixTransitive(s.free, t.free, u.free);
    forall f | f in s.owner
      ensures u.owner[f] == if UserIn(s.owner[f], root, vpn, k + 1) then (if freed then Free else Lent) else s.owner[f]
    {
      assert t.owner[f] == if UserIn(s.owner[f], root, vpn, k) then (if freed then Free else Lent) else s.owner[f];
    }
  }

  lemma Nonnegative(s: St, n: Node)
    requires Inv(s)
    ensures n in s.tbl ==> n.num >= 0
  {}

  lemma MappedFrame(s: St, root: int, v: int)
    requires Inv(s) && Valid(Leaf(s, root, v))
    ensures Node(root, 0, v / 512) in s.tbl && v >= 0
    ensures UserPage(Leaf(s, root, v)) ==>
              var f := Pte2Pa(Leaf(s, root, v)); f in s.owner && s.owner[f] == User(root, v)
  {
    assert LeafOk(s, root, v);
    Nonnegative(s, Node(root, 0, v / 512));
  }

  /** The effect of one round of uvmunmap. */
  function UnmapOne(s: St, root: int, v: int, freed: bool): St
    requires Node(root, 0, v / 512) in s.tbl && 0 <= s.freelist < PHYSTOP
  {
    var u := SetLeaf(s, root, v, 0);
    if freed then Give(u, Pte2Pa(Leaf(s, root, v))) else u
  }

  lemma UnmapOneInv(s: St, root: int, v: int, freed: bool)
    requires Valid(Leaf(s, root, v)) && (freed ==> UserPage(Leaf(s, root, v)))
    requires Inv(s)
    ensures Node(root, 0, v / 512) in s.tbl && 0 <= s.freelist < PHYSTOP
    ensures Inv(UnmapOne(s, root, v, freed)) && Unmapped(s, UnmapOne(s, root, v, freed), root, v, 1, freed)
  {
    hide Inv;
    hide Leaf;
    hide UserPage;
    hide Pte2Pa;
    FreelistIs(s);
    MappedFrame(s, root, v);
    SetLeafInv(s, root, v, 0);
    var u := SetLeaf(s, root, v, 0);
    TablePage(s, Node(root, 0, v / 512));
    assert Unmapped(s, u, root, v, 1, false) by {
      forall f | f in s.owner
        ensures u.owner[f] == if UserIn(s.owner[f], root, v, 1) then Lent else s.owner[f]
      {
        assert u.owner[f] == OwnerAfter(s, root, v, 0, f);
      }
    }
    if freed {
      var f := Pte2Pa(Leaf(s, root, v));
      assert u.owner[f] == OwnerAfter(s, root, v, 0, f) == Lent;
      GiveInv(u, f);
      GiveUnmapped(s, u, root, v);
    }
  }

  lemma GiveUnmapped(s: St, u: St, root: int, v: int)
    requires Unmapped(s, u, root, v, 1, false) && 0 <= u.freelist < PHYSTOP
    requires Inv(s) && Inv(u) && Valid(Leaf(s, root, v)) && UserPage(Leaf(s, root, v))
    ensures Unmapped(s, Give(u, Pte2Pa(Leaf(s, root, v))), root, v, 1, true)
  {
    hide Inv;
    hide UserPage;
    hide Pte2Pa;
    hide Leaf;
    var f := Pte2Pa(Leaf(s, root, v));
    MappedFrame(s, root, v);
    assert u.owner[f] == Lent;
    GiveInv(u, f);
    var t := Give(u, f);
    InvEntriesKept(u, t);
    OneFrame(s, root, v);
    forall g | g in s.owner && g != f ensures PageAt(t.mem, g) == PageAt(u.mem, g) && t.owner[g] == u.owner[g] {}
    SuffixTransitive(s.free, u.free, t.free);
  }

  lemma InvEntriesKept(s: St, t: St)
    requires Inv(s) && SameUse(s, t)
    ensures forall r, v :: Leaf(t, r, v) == Leaf(s, r, v)
  {
    EntriesKept(s, t);
  }

  lemma OneFrame(s: St, root: int, v: int)
    requires Inv(s)
    ensures forall f {:trigger s.owner[f]} | f in s.owner && s.owner[f] == User(root, v) ::
              f == Pte2Pa(Leaf(s, root, v))
  {}

  // ----- New user pages: uvmalloc

  /** Page `v` is mapped to a frame that was free, filled with zeros. */
  ghost predicate NewPage(s: St, t: St, root: int, v: int, mode: int) {
    var e := Leaf(t, root, v);
    && Valid(e) && UserPage(e) && PteFlags(e) == PteFlags(MakePte(0, mode))
    && Pte2Pa(e) in s.owner && s.owner[Pte2Pa(e)].Free? && PageAt(t.mem, Pte2Pa(e)) == Filled(0)
  }

  /** No user page is lost or changed, and others come only from the free list. */
  ghost predicate UsersKept(s: St, t: St, root: int, vpn: int, n: int) {
    && (forall f {:trigger t.owner[f]} {:trigger s.owner[f]} | f in s.owner && s.owner[f].User? ::
          f in t.owner && t.owner[f] == s.owner[f])
    && (forall f {:trigger PageAt(t.mem, f)} | f in s.owner && s.owner[f].User? :: PageAt(t.mem, f) == PageAt(s.mem, f))
    && (forall f {:trigger t.owner[f]} {:trigger s.owner[f]} | f in s.owner && f in t.owner && t.owner[f].User?
       && !s.owner[f].User? ::
          s.owner[f].Free? && UserIn(t.owner[f], root, vpn, n))
  }

  ghost predicate TablesStay(s: St, t: St) {
    forall n: Node {:trigger n in t.tbl} {:trigger n in s.tbl} | n in s.tbl :: n in t.tbl && t.tbl[n] == s.tbl[n]
  }

  /** `n` zeroed pages from `vpn` on are new. With n == 0 this says that the address map is as before. */
  ghost predicate Allocated(s: St, t: St, root: int, vpn: int, n: int, mode: int) {
    && Apart(s, t, root) && TablesStay(s, t) && UsersKept(s, t, root, vpn, n)
    && (forall r, v {:trigger Leaf(t, r, v)} | !(r == root && vpn <= v < vpn + n) :: Leaf(t, r, v) == Leaf(s, r, v))
    && (forall v {:trigger Leaf(t, root, v)} | vpn <= v < vpn + n :: NewPage(s, t, root, v, mode))
  }

  lemma AllocatedNothing(s: St, root: int, vpn: int, mode: int)
    ensures Allocated(s, s, root, vpn, 0, mode)
  {}

  lemma AllocatedMore(s: St, t: St, u: St, root: int, vpn: int, k: int, j: int, mode: int)
    requires Inv(s) && Inv(t) && Allocated(s, t, root, vpn, k, mode) && Allocated(t, u, root, vpn + k, j, mode)
             && k >= 0 && 0 <= j <= 1
    ensures Allocated(s, u, root, vpn, k + j, mode)
  {
    hide Inv;
    hide Leaf;
    hide UserPage;
    hide Pte2Pa;
    hide PteFlags;
    hide Apart;
    hide MakePte;
    hide Valid;
    ApartTransitive(s, t, u, root);
    AllocatedUsers(s, t, u, root, vpn, k, j);
    forall v | vpn <= v < vpn + k + j ensures NewPage(s, u, root, v, mode) {
      if v < vpn + k {
        assert NewPage(s, t, root, v, mode);
        MappedFrame(t, root, v);
      } else {
        assert NewPage(t, u, root, v, mode);
        FreeBefore(s, t, root, vpn, k, Pte2Pa(Leaf(u, root, v)));
      }
    }
  }

  lemma FreeBefore(s: St, t: St, root: int, vpn: int, k: int, f: int)
    requires Apart(s, t, root) && TablesStay(s, t) && UsersKept(s, t, root, vpn, k) && f in t.owner && t.owner[f].Free?
    requires Inv(s) && Inv(t)
    ensures f in s.owner && s.owner[f].Free?
  {
    if s.owner[f].Table? {
      TableInv(s, f);
      TablePage(t, s.owner[f].node);
    }
  }

  lemma TableInv(s: St, f: int)
    requires Inv(s) && f in s.owner && s.owner[f].Table?
    ensures s.owner[f].node in s.tbl && s.tbl[s.owner[f].node] == f
  {}

  lemma AllocatedUsers(s: St, t: St, u: St, root: int, vpn: int, k: int, j: int)
    requires Apart(s, t, root) && TablesStay(s, t) && UsersKept(s, t, root, vpn, k)
             && UsersKept(t, u, root, vpn + k, j) && k >= 0 && j >= 0
    requires Inv(s) && Inv(t)
    ensures UsersKept(s, u, root, vpn, k + j)
  {
    hide Inv;
    assert t.owner.Keys == s.owner.Keys;
    forall f | f in s.owner && f in u.owner && u.owner[f].User? && !s.owner[f].User?
      ensures s.owner[f].Free? && UserIn(u.owner[f], root, vpn, k + j)
    {
      if !t.owner[f].User? {
        FreeBefore(s, t, root, vpn, k, f);
      }
    }
  }

  /** The first free page, with content `p`, held by the caller. */
  function Fresh(s: St, p: Page): St
    requires s.free != []
  {
    Put(Take(s), s.free[0], p)
  }

  lemma FreshInv(s: St, p: Page)
    requires Inv(s) && s.free != []
    ensures Inv(Fresh(s, p)) && Fresh(s, p).tbl == s.tbl && Fresh(s, p).cut == s.cut && Fresh(s, p).free == s.free[1..]
    ensures s.free[0] in s.owner && s.owner[s.free[0]] == Free && 0 < s.free[0] < PHYSTOP && Aligned(s.free[0])
    ensures Fresh(s, p).owner == s.owner[s.free[0] := Lent]
    ensures forall f {:trigger PageAt(Fresh(s, p).mem, f)} ::
              PageAt(Fresh(s, p).mem, f) == if f == s.free[0] then p else PageAt(s.mem, f)
    ensures forall r, v :: Leaf(Fresh(s, p), r, v) == Leaf(s, r, v)
  {
    hide Inv;
    hide Leaf;
    var f := s.free[0];
    FreePage(s);
    TakeInv(s);
    InvEntriesKept(s, Take(s));
    PutInv(Take(s), f, p);
    InvEntriesKept(Take(s), Fresh(s, p));
  }

  /** A fresh page was mapped as page `v` of the tree. */
  ghost predicate Gained(s: St, t: St, root: int, v: int, p: Page, mode: int) {
    && s.free != [] && Apart(s, t, root) && TablesStay(s, t) && UsersKept(s, t, root, v, 1) && |t.free| < |s.free|
    && (forall r, x {:trigger Leaf(t, r, x)} | !(r == root && x == v) :: Leaf(t, r, x) == Leaf(s, r, x))
    && var f := s.free[0];
       Leaf(t, root, v) == MakePte(f, mode) && Aligned(f) && f in s.owner && s.owner[f].Free? && PageAt(t.mem, f) == p
  }

  /** One round of uvmalloc or uvmcopy maps the fresh page, or only the tree grew and the page is given back. */
  lemma FreshRound(s: St, u: St, root: int, v: int, k: int, p: Page, mode: int)
    requires s.free != [] && 0 <= k <= 1 && UserPage(mode)
    requires Mapped(Fresh(s, p), u, root, v, k, s.free[0], mode) && Inv(s) && Inv(u)
    ensures k == 1 ==> Gained(s, u, root, v, p, mode)
    ensures k == 0 ==> s.free[0] in u.owner && u.owner[s.free[0]] == Lent && 0 <= u.freelist < PHYSTOP
    ensures k == 0 ==> Inv(Give(u, s.free[0])) && Allocated(s, Give(u, s.free[0]), root, v, 0, mode)
  {
    hide Inv;
    hide Leaf;
    hide UserPage;
    hide Pte2Pa;
    hide PteFlags;
    hide MakePte;
    hide Valid;
    FreshInv(s, p);
    var b, f := Fresh(s, p), s.free[0];
    Frames(f, 0, f);
    if k == 1 {
      RoundUsers(s, b, u, root, v, p, mode);
      assert MakePte(Nth(f, 0), mode) == MakePte(f, mode);
    } else {
      FreelistIs(u);
      GiveInv(u, f);
      InvEntriesKept(u, Give(u, f));
      GiveBack(s, b, u, root, v, p, mode);
    }
  }

  /** A round of uvmalloc. */
  lemma AllocRound(s: St, u: St, root: int, v: int, mode: int)
    requires Gained(s, u, root, v, Filled(0), mode) && 0 <= mode < 1024 && UserPage(mode)
    ensures Allocated(s, u, root, v, 1, mode)
  {
    hide Leaf;
    hide UserPage;
    hide Pte2Pa;
    hide PteFlags;
    hide MakePte;
    hide Valid;
    MadePage(s.free[0], mode);
  }

  lemma MadePage(f: int, mode: int)
    requires Aligned(f) && 0 <= mode < 1024 && UserPage(mode)
    ensures var e := MakePte(f, mode); Valid(e) && UserPage(e) && PteFlags(e) == PteFlags(MakePte(0, mode))
                                       && Pte2Pa(e) == f
  {
    PteRoundTrip(f, mode);
    PteRoundTrip(0, mode);
  }

  lemma RoundUsers(s: St, b: St, u: St, root: int, v: int, p: Page, mode: int)
    requires s.free != [] && b == Fresh(s, p) && UserPage(mode)
    requires Mapped(b, u, root, v, 1, s.free[0], mode) && Inv(s)
    ensures Apart(s, u, root) && TablesStay(s, u) && UsersKept(s, u, root, v, 1)
  {
    hide Inv;
    hide Leaf;
    hide UserPage;
    FreshInv(s, p);
    var f := s.free[0];
    Frames(f, 0, f);
    forall g | g in s.owner
      ensures u.owner[g] == (if g == f then User(root, v) else b.owner[g])
              || (s.owner[g].Free? && TableOf(u.owner[g], root))
    {
      assert GrowsTo(b.owner[g], u.owner[g], root);
      Frames(f, 0, g);
    }
  }

  lemma GiveBack(s: St, b: St, u: St, root: int, v: int, p: Page, mode: int)
    requires s.free != [] && b == Fresh(s, p) && 0 <= u.freelist < PHYSTOP
    requires Mapped(b, u, root, v, 0, s.free[0], mode) && Inv(s)
    ensures var t := Give(u, s.free[0]); Apart(s, t, root) && TablesStay(s, t) && UsersKept(s, t, root, v, 0)
  {
    hide Inv;
    hide Leaf;
    FreshInv(s, p);
    var f, t := s.free[0], Give(u, s.free[0]);
    forall g | g in s.owner
      ensures t.owner[g] == s.owner[g] || (s.owner[g].Free? && TableOf(t.owner[g], root))
      ensures g != f ==> PageAt(t.mem, g) == PageAt(u.mem, g)
    {
      assert GrowsTo(b.owner[g], u.owner[g], root);
    }
  }

  /** New pages that are unmapped again leave the address map as it was before. */
  lemma AllocatedUnmapped(s: St, t: St, u: St, root: int, vpn: int, n: int, mode: int)
    requires Allocated(s, t, root, vpn, n, mode) && Unmapped(t, u, root, vpn, n, true) && n >= 0
    requires Inv(s) && forall v {:trigger Leaf(s, root, v)} | vpn <= v < vpn + n :: Leaf(s, root, v) == 0
    ensures Allocated(s, u, root, vpn, 0, mode)
  {
    hide Inv;
    hide Leaf;
    hide Pte2Pa;
    hide PteFlags;
    hide UserPage;
    hide Valid;
    UnmappedUsers(s, vpn, n, root);
    forall f | f in s.owner ensures u.owner[f] == if UserIn(t.owner[f], root, vpn, n) then Free else t.owner[f] {}
    assert Apart(t, u, root);
    ApartTransitive(s, t, u, root);
  }

  lemma UnmappedUsers(s: St, vpn: int, n: int, root: int)
    requires Inv(s) && forall v {:trigger Leaf(s, root, v)} | vpn <= v < vpn + n :: Leaf(s, root, v) == 0
    ensures forall f {:trigger s.owner[f]} | f in s.owner :: !UserIn(s.owner[f], root, vpn, n)
  {
    forall f | f in s.owner && s.owner[f].User? && s.owner[f].root == root ensures !(vpn <= s.owner[f].vpn < vpn + n) {
      assert Valid(Leaf(s, root, s.owner[f].vpn));
    }
  }
}
