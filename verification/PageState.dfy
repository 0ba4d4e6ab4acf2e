/** Physical memory as the allocator (kernel/pm.c) and the page tables (kernel/vm.c, kernel/uvm.c) share
    it: every allocatable page has one owner, and what lies in memory (the free list, the table entries)
    agrees with the owners. */
module PageState {
  import opened Sv39

  /** A table page: its tree (the address of the root), its level, and its number at that level. */
  datatype Node = Node(root: int, level: int, num: int)

  datatype Owner =
    | Free                                // on the free list
    | Lent                                // handed out by kpmalloc, not part of a page table
    | Table(node: Node)                   // a page of a page table
    | User(root: int, vpn: int)           // mapped with PTE_U as page `vpn` of a tree

  /** `free` lists the free pages in list order, `tbl` gives the pages of the page tables. While a tree is
      being taken down, `cut` has the tables whose entry in the parent is already cleared. */
  datatype St = St(mem: map<int, Page>, freelist: int, free: seq<int>,
                   owner: map<int, Owner>, tbl: map<Node, int>, cut: set<Node>)

  function Child(n: Node, i: int): Node {
    Node(n.root, n.level - 1, n.num * 512 + i)
  }

  function Parent(n: Node): Node {
    Node(n.root, n.level + 1, n.num / 512)
  }

  function PageAt(mem: map<int, Page>, f: int): Page {
    if f in mem then mem[f] else Filled(0)
  }

  function WordAt(mem: map<int, Page>, f: int, i: int): Word
    requires 0 <= i < 512
  {
    Load(PageAt(mem, f), i)
  }

  /** Entry `i` of table `n`; 0 if there is no such table. */
  function Entry(s: St, n: Node, i: int): Word
    requires 0 <= i < 512
  {
    if n in s.tbl then WordAt(s.mem, s.tbl[n], i) else 0
  }

  /** The leaf entry of page `vpn`; 0 if a table is missing on the way. */
  function Leaf(s: St, root: int, vpn: int): Word {
    Entry(s, Node(root, 0, vpn / 512), vpn % 512)
  }

  // ----- The invariant

  ghost predicate Pages(s: St) {
    && s.mem.Keys == s.owner.Keys
    && (forall f | f in s.owner :: Aligned(f) && 0 < f < PHYSTOP)
  }

  ghost predicate TableOwners(s: St) {
    && (forall n {:trigger s.tbl[n]} | n in s.tbl :: s.tbl[n] in s.owner && s.owner[s.tbl[n]] == Table(n))
    && (forall f {:trigger s.owner[f]} | f in s.owner && s.owner[f].Table? ::
          s.owner[f].node in s.tbl && s.tbl[s.owner[f].node] == f)
  }

  ghost predicate Shape(s: St) {
    && (forall n | n in s.tbl :: 0 <= n.level <= 2 && n.num >= 0 && (n.level == 2 ==> n.num == 0 && s.tbl[n] == n.root))
    && (forall n | n in s.tbl && n.level < 2 :: Parent(n) in s.tbl)
    && (forall n | n in s.cut :: n in s.tbl)
  }

  /** What entry `i` of table `n` above level 0 holds. */
  function LinkTo(s: St, c: Node): int {
    if c in s.tbl && c !in s.cut then MakePte(s.tbl[c], 0) else 0
  }

  ghost predicate Links(s: St) {
    forall n, i {:trigger Entry(s, n, i)} | n in s.tbl && n.level > 0 && 0 <= i < 512 ::
      Entry(s, n, i) == LinkTo(s, Child(n, i))
  }

  ghost predicate LeafOk(s: St, root: int, vpn: int) {
    var e := Leaf(s, root, vpn);
    e == 0 || (Valid(e) && (UserPage(e) ==> Pte2Pa(e) in s.owner && s.owner[Pte2Pa(e)] == User(root, vpn)))
  }

  ghost predicate Leaves(s: St) {
    && (forall r, v {:trigger Leaf(s, r, v)} :: LeafOk(s, r, v))
    && (forall f {:trigger s.owner[f]} | f in s.owner && s.owner[f].User? ::
          var e := Leaf(s, s.owner[f].root, s.owner[f].vpn);
          s.owner[f].vpn >= 0 && Valid(e) && UserPage(e) && Pte2Pa(e) == f)
  }

  /** The address of the `k`th free page, 0 after the last. */
  function FreeAt(free: seq<int>, k: int): int {
    if 0 <= k < |free| then free[k] else 0
  }

  ghost predicate FreeList(s: St) {
    && s.freelist == FreeAt(s.free, 0)
    && (forall k {:trigger s.free[k]} | 0 <= k < |s.free| ::
          s.free[k] in s.owner && s.owner[s.free[k]] == Free && WordAt(s.mem, s.free[k], 0) == FreeAt(s.free, k + 1))
    && (forall j, k | 0 <= j < k < |s.free| :: s.free[j] != s.free[k])
    && (forall f | f in s.owner && s.owner[f] == Free :: f in s.free)
  }

  ghost predicate Inv(s: St) {
    Pages(s) && TableOwners(s) && Shape(s) && Links(s) && Leaves(s) && FreeList(s)
  }

  // ----- The steps of the allocator and the page tables

  /** Change the content of one page. */
  function Put(s: St, f: int, p: Page): St {
    s.(mem := s.mem[f := p])
  }

  function PutWord(s: St, f: int, i: int, w: Word): St
    requires 0 <= i < 512
  {
    Put(s, f, Store(PageAt(s.mem, f), i, w))
  }

  function Own(s: St, f: int, o: Owner): St {
    s.(owner := s.owner[f := o])
  }

  /** kpmalloc: the first free page, filled with 5. */
  function Take(s: St): St
    requires s.free != []
  {
    var f := s.free[0];
    Own(Put(s, f, Filled(5)), f, Lent).(free := s.free[1..], freelist := FreeAt(s.free, 1))
  }

  /** kpmfree: the page is filled with 1 and put in front of the free list. */
  function Give(s: St, f: int): St
    requires 0 <= s.freelist < PHYSTOP
  {
    Own(PutWord(Put(s, f, Filled(1)), f, 0, s.freelist), f, Free).(free := [f] + s.free, freelist := f)
  }

  // ----- Steps that only concern pages outside the page tables

  predicate Spare(o: Owner) {
    o.Free? || o.Lent?
  }

  /** Pages may go between Free and Lent, and only pages that are no tables change their content. */
  ghost predicate SameUse(s: St, t: St) {
    && t.tbl == s.tbl && t.cut == s.cut && t.owner.Keys == s.owner.Keys
    && (forall f {:trigger t.owner[f]} {:trigger s.owner[f]} | f in s.owner ::
          t.owner[f] == s.owner[f] || (Spare(t.owner[f]) && Spare(s.owner[f])))
    && (forall f {:trigger PageAt(t.mem, f)} | f in s.owner && s.owner[f].Table? ::
          PageAt(t.mem, f) == PageAt(s.mem, f))
  }

  lemma NodeOwner(s: St, n: Node)
    requires TableOwners(s) && n in s.tbl
    ensures s.tbl[n] in s.owner && s.owner[s.tbl[n]] == Table(n)
  {}

  lemma EntriesKept(s: St, t: St)
    requires TableOwners(s) && SameUse(s, t)
    ensures forall n, i | 0 <= i < 512 :: Entry(t, n, i) == Entry(s, n, i)
    ensures forall r, v :: Leaf(t, r, v) == Leaf(s, r, v)
  {
    forall n, i | 0 <= i < 512 ensures Entry(t, n, i) == Entry(s, n, i) {
      if n in s.tbl {
        assert s.owner[s.tbl[n]] == Table(n);
      }
    }
  }

  lemma TablesKept(s: St, t: St)
    requires TableOwners(s) && SameUse(s, t) && Shape(s) && Links(s)
    ensures TableOwners(t) && Shape(t) && Links(t)
  {
    EntriesKept(s, t);
    forall n | n in t.tbl ensures t.tbl[n] in t.owner && t.owner[t.tbl[n]] == Table(n) {
      var f := s.tbl[n];
      assert s.owner[f] == Table(n);
      assert t.owner[f] == s.owner[f];
    }
    forall n, i | n in t.tbl && n.level > 0 && 0 <= i < 512 ensures Entry(t, n, i) == LinkTo(t, Child(n, i)) {
      assert Entry(s, n, i) == LinkTo(s, Child(n, i));
    }
  }

  lemma LeavesKept(s: St, t: St)
    requires TableOwners(s) && SameUse(s, t) && Leaves(s)
    ensures Leaves(t)
  {
    EntriesKept(s, t);
    forall r, v ensures LeafOk(t, r, v) {
      assert LeafOk(s, r, v);
    }
    forall f | f in t.owner && t.owner[f].User?
      ensures t.owner[f].vpn >= 0
      ensures var e := Leaf(t, t.owner[f].root, t.owner[f].vpn); Valid(e) && UserPage(e) && Pte2Pa(e) == f
    {
      assert t.owner[f] == s.owner[f];
    }
  }

  lemma FirstFree(s: St)
    requires FreeList(s) && s.free != []
    ensures s.free[0] in s.owner && s.owner[s.free[0]] == Free
  {}

  lemma TakeInv(s: St)
    requires Inv(s) && s.free != []
    ensures Inv(Take(s)) && SameUse(s, Take(s)) && s.free[0] in s.owner && s.owner[s.free[0]] == Free
  {
    hide TableOwners;
    hide Shape;
    hide Links;
    hide Leaves;
    hide FreeList;
    var t, f := Take(s), s.free[0];
    FirstFree(s);
    TablesKept(s, t);
    LeavesKept(s, t);
    TakeFreeList(s);
  }

  lemma TakeFreeList(s: St)
    requires FreeList(s) && s.free != []
    ensures FreeList(Take(s))
  {
    var t := Take(s);
    forall k | 0 <= k < |t.free|
      ensures t.free[k] in t.owner && t.owner[t.free[k]] == Free
      ensures WordAt(t.mem, t.free[k], 0) == FreeAt(t.free, k + 1)
    {
      assert t.free[k] == s.free[k + 1];
    }
  }

  lemma GiveInv(s: St, f: int)
    requires Inv(s) && f in s.owner && s.owner[f] == Lent
    ensures 0 <= s.freelist < PHYSTOP && Inv(Give(s, f)) && SameUse(s, Give(s, f))
  {
    hide TableOwners;
    hide Shape;
    hide Links;
    hide Leaves;
    hide FreeList;
    FreelistBound(s);
    var t := Give(s, f);
    TablesKept(s, t);
    LeavesKept(s, t);
    GiveFreeList(s, f);
  }

  lemma FreelistBound(s: St)
    requires Pages(s) && FreeList(s)
    ensures 0 <= s.freelist < PHYSTOP
  {
    if s.free != [] {
      assert s.free[0] in s.owner;
    }
  }

  lemma GiveFreeList(s: St, f: int)
    requires FreeList(s) && 0 <= s.freelist < PHYSTOP && f in s.owner && s.owner[f] == Lent
    ensures FreeList(Give(s, f))
  {
    hide Load;
    hide Store;
    hide Filled;
    var t := Give(s, f);
    LoadStore(Filled(1), 0, s.freelist, 0);
    forall k | 0 <= k < |t.free|
      ensures t.free[k] in t.owner && t.owner[t.free[k]] == Free
      ensures WordAt(t.mem, t.free[k], 0) == FreeAt(t.free, k + 1)
    {
      if k > 0 {
        assert t.free[k] == s.free[k - 1];
      }
    }
  }

  lemma GiveParts(s: St, f: int)
    requires 0 <= s.freelist < PHYSTOP
    ensures var t := Give(s, f);
      && t.free == [f] + s.free && t.freelist == f && t.owner == s.owner[f := Free] && t.tbl == s.tbl && t.cut == s.cut
      && forall g | g != f :: PageAt(t.mem, g) == PageAt(s.mem, g)
  {
    hide Store;
    hide Filled;
  }

  lemma TakeParts(s: St)
    requires s.free != []
    ensures var t := Take(s);
      && t.free == s.free[1..] && t.freelist == FreeAt(s.free, 1) && t.owner == s.owner[s.free[0] := Lent]
      && t.tbl == s.tbl && t.cut == s.cut
      && forall g | g != s.free[0] :: PageAt(t.mem, g) == PageAt(s.mem, g)
  {
    hide Filled;
  }

  lemma FreelistIs(s: St)
    requires Inv(s)
    ensures 0 <= s.freelist < PHYSTOP && s.freelist == FreeAt(s.free, 0)
            && (s.free != [] ==> s.owner[s.free[0]] == Free)
    ensures s.free != [] ==> s.free[0] in s.owner
  {
    hide TableOwners;
    hide Shape;
    hide Links;
    hide Leaves;
    FreelistBound(s);
  }

  /** kpmalloc right after kpmfree gives the page back, and leaves the free list and all other pages as they
      were. */
  lemma GiveTake(s: St, f: int)
    requires Inv(s) && f in s.owner && s.owner[f] == Lent
    ensures 0 <= s.freelist < PHYSTOP && Give(s, f).free != [] && Give(s, f).free[0] == f
    ensures var t := Take(Give(s, f));
      && t.free == s.free && t.freelist == s.freelist && t.owner == s.owner && t.tbl == s.tbl && t.cut == s.cut
      && forall g | g != f :: PageAt(t.mem, g) == PageAt(s.mem, g)
  {
    hide Give;
    hide Take;
    hide Inv;
    hide PageAt;
    FreelistIs(s);
    GiveParts(s, f);
    TakeParts(Give(s, f));
    assert s.owner[f := Free][f := Lent] == s.owner;
    assert ([f] + s.free)[1..] == s.free;
  }

  /** And kpmfree of a page right after kpmalloc puts it back where it was. */
  lemma TakeGive(s: St)
    requires Inv(s) && s.free != []
    ensures 0 <= Take(s).freelist < PHYSTOP
    ensures var t := Give(Take(s), s.free[0]);
      && t.free == s.free && t.freelist == s.freelist && t.owner == s.owner && t.tbl == s.tbl && t.cut == s.cut
      && forall g | g != s.free[0] :: PageAt(t.mem, g) == PageAt(s.mem, g)
  {
    hide Give;
    hide Take;
    hide Inv;
    hide PageAt;
    TakeInv(s);
    FreelistIs(s);
    FreelistIs(Take(s));
    TakeParts(s);
    GiveParts(Take(s), s.free[0]);
    assert s.owner[s.free[0] := Lent][s.free[0] := Free] == s.owner;
    assert [s.free[0]] + s.free[1..] == s.free;
  }

  /** Writing data to a page that is lent or a user's. */
  lemma PutInv(s: St, f: int, p: Page)
    requires Inv(s) && f in s.owner && (s.owner[f] == Lent || s.owner[f].User?)
    ensures Inv(Put(s, f, p)) && SameUse(s, Put(s, f, p))
  {
    hide FreeList;
    hide TableOwners;
    hide Shape;
    hide Links;
    hide Leaves;
    var t := Put(s, f, p);
    TablesKept(s, t);
    LeavesKept(s, t);
    FreeFrame(s, t);
  }

  // ----- Steps that change a page table

  lemma ChildParent(n: Node, i: int)
    requires 0 <= i < 512
    ensures Parent(Child(n, i)) == n && Child(n, i).num % 512 == i
  {
    assert (n.num * 512 + i) / 512 == n.num;
  }

  lemma ParentChild(c: Node)
    ensures Child(Parent(c), c.num % 512) == c
  {}

  /** walk: a zeroed page becomes the missing table `c`. */
  function Install(s: St, c: Node, f: int): St
    requires Parent(c) in s.tbl && 0 <= MakePte(f, 0) < 0x1_0000_0000_0000_0000
  {
    PutWord(Own(s, f, Table(c)), s.tbl[Parent(c)], c.num % 512, MakePte(f, 0)).(tbl := s.tbl[c := f])
  }

  ghost predicate CanInstall(s: St, c: Node, f: int) {
    && Parent(c) in s.tbl && c !in s.tbl && 0 <= c.level <= 1 && c.num >= 0
    && f in s.owner && s.owner[f] == Lent && PageAt(s.mem, f) == Filled(0)
  }

  lemma PteFits(f: int)
    requires 0 < f < MAXPA
    ensures 0 <= MakePte(f, 0) < 0x1_0000_0000_0000_0000
  {}

  lemma InstallEntries(s: St, c: Node, f: int)
    requires Pages(s) && TableOwners(s) && CanInstall(s, c, f)
    ensures 0 <= MakePte(f, 0) < 0x1_0000_0000_0000_0000
    ensures var t := Install(s, c, f);
      && (forall n, i | n in t.tbl && n != c && 0 <= i < 512 ::
            Entry(t, n, i) == if n == Parent(c) && i == c.num % 512 then MakePte(f, 0) else Entry(s, n, i))
      && (forall i | 0 <= i < 512 :: Entry(t, c, i) == 0)
  {
    PteFits(f);
    var t, p := Install(s, c, f), Parent(c);
    var j := c.num % 512;
    assert s.owner[s.tbl[p]] == Table(p);
    forall n, i | n in t.tbl && n != c && 0 <= i < 512
      ensures Entry(t, n, i) == if n == p && i == j then MakePte(f, 0) else Entry(s, n, i)
    {
      assert s.owner[s.tbl[n]] == Table(n);
      LoadStore(PageAt(s.mem, s.tbl[p]), j, MakePte(f, 0), i);
    }
    forall i | 0 <= i < 512 ensures Entry(t, c, i) == 0 {
      LoadZero(i);
    }
  }

  lemma InstallLeaves(s: St, c: Node, f: int)
    requires Pages(s) && TableOwners(s) && Shape(s) && CanInstall(s, c, f)
    ensures 0 <= MakePte(f, 0) < 0x1_0000_0000_0000_0000
    ensures forall r, v :: Leaf(Install(s, c, f), r, v) == Leaf(s, r, v)
  {
    InstallEntries(s, c, f);
  }

  lemma InstallInv(s: St, c: Node, f: int)
    requires Inv(s) && CanInstall(s, c, f)
    ensures 0 <= MakePte(f, 0) < 0x1_0000_0000_0000_0000
    ensures Inv(Install(s, c, f))
    ensures forall r, v :: Leaf(Install(s, c, f), r, v) == Leaf(s, r, v)
  {
    hide TableOwners;
    hide Shape;
    hide Links;
    hide Leaves;
    InstallLeaves(s, c, f);
    InstallTables(s, c, f);
    var t := Install(s, c, f);
    LeavesFrame(s, t);
    NodeOwner(s, Parent(c));
    FreeFrame(s, t);
  }

  /** Pages stay mapped as they are if the leaf entries and their owners do. */
  lemma LeavesFrame(s: St, t: St)
    requires Leaves(s) && forall r, v :: Leaf(t, r, v) == Leaf(s, r, v)
    requires t.owner.Keys == s.owner.Keys
    requires forall f | f in s.owner && (s.owner[f].User? || t.owner[f].User?) :: t.owner[f] == s.owner[f]
    ensures Leaves(t)
  {
    forall r, v ensures LeafOk(t, r, v) {
      assert LeafOk(s, r, v);
    }
    forall f | f in t.owner && t.owner[f].User?
      ensures t.owner[f].vpn >= 0
      ensures var e := Leaf(t, t.owner[f].root, t.owner[f].vpn); Valid(e) && UserPage(e) && Pte2Pa(e) == f
    {
      assert t.owner[f] == s.owner[f];
    }
  }

  /** The free list is unchanged if no free page is. */
  lemma FreeFrame(s: St, t: St)
    requires FreeList(s) && t.free == s.free && t.freelist == s.freelist && t.owner.Keys == s.owner.Keys
    requires forall f | f in s.owner && (s.owner[f] == Free || t.owner[f] == Free) ::
               t.owner[f] == s.owner[f] && PageAt(t.mem, f) == PageAt(s.mem, f)
    ensures FreeList(t)
  {
    forall k | 0 <= k < |t.free|
      ensures t.free[k] in t.owner && t.owner[t.free[k]] == Free
      ensures WordAt(t.mem, t.free[k], 0) == FreeAt(t.free, k + 1)
    {
      assert s.free[k] in s.owner && s.owner[s.free[k]] == Free;
    }
  }

  lemma InstallTables(s: St, c: Node, f: int)
    requires Pages(s) && TableOwners(s) && Shape(s) && Links(s) && CanInstall(s, c, f)
    ensures 0 <= MakePte(f, 0) < 0x1_0000_0000_0000_0000
    ensures var t := Install(s, c, f); Pages(t) && TableOwners(t) && Shape(t) && Links(t)
  {
    PteFits(f);
    var t := Install(s, c, f);
    NodeOwner(s, Parent(c));
    forall n | n in t.tbl ensures t.tbl[n] in t.owner && t.owner[t.tbl[n]] == Table(n) {
      if n != c {
        assert s.owner[s.tbl[n]] == Table(n);
      }
    }
    InstallLinks(s, c, f);
  }

  lemma InstallLinks(s: St, c: Node, f: int)
    requires Pages(s) && TableOwners(s) && Shape(s) && Links(s) && CanInstall(s, c, f)
    ensures 0 <= MakePte(f, 0) < 0x1_0000_0000_0000_0000
    ensures Links(Install(s, c, f))
  {
    InstallEntries(s, c, f);
    var t := Install(s, c, f);
    hide TableOwners;
    ParentChild(c);
    forall n, i | n in t.tbl && n.level > 0 && 0 <= i < 512 ensures Entry(t, n, i) == LinkTo(t, Child(n, i)) {
      ChildParent(n, i);
      if n != c {
        assert Entry(s, n, i) == LinkTo(s, Child(n, i));
      }
    }
  }

  /** mappages and uvmunmap: the leaf entry of page `vpn` changes, and with it who owns the pages that
      the old and the new entry map for the user. */
  function SetLeaf(s: St, root: int, vpn: int, e: Word): St
    requires Node(root, 0, vpn / 512) in s.tbl
  {
    var was := Leaf(s, root, vpn);
    var t := PutWord(s, s.tbl[Node(root, 0, vpn / 512)], vpn % 512, e);
    if Valid(e) && UserPage(e) then Own(t, Pte2Pa(e), User(root, vpn))
    else if Valid(was) && UserPage(was) then Own(t, Pte2Pa(was), Lent)
    else t
  }

  ghost predicate CanSetLeaf(s: St, root: int, vpn: int, e: Word) {
    && vpn >= 0 && Node(root, 0, vpn / 512) in s.tbl
    && (e == 0 || (Leaf(s, root, vpn) == 0 && Valid(e) &&
                   (UserPage(e) ==> Pte2Pa(e) in s.owner && s.owner[Pte2Pa(e)] == Lent)))
  }

  lemma SetLeafEntries(s: St, root: int, vpn: int, e: Word)
    requires TableOwners(s) && CanSetLeaf(s, root, vpn, e)
    ensures var t, m := SetLeaf(s, root, vpn, e), Node(root, 0, vpn / 512);
      forall n, i | 0 <= i < 512 :: Entry(t, n, i) == if n == m && i == vpn % 512 then e else Entry(s, n, i)
    ensures forall r, v :: Leaf(SetLeaf(s, root, vpn, e), r, v) == if r == root && v == vpn then e else Leaf(s, r, v)
  {
    var t, m := SetLeaf(s, root, vpn, e), Node(root, 0, vpn / 512);
    assert s.owner[s.tbl[m]] == Table(m);
    forall n, i | 0 <= i < 512
      ensures Entry(t, n, i) == if n == m && i == vpn % 512 then e else Entry(s, n, i)
    {
      if n in s.tbl {
        assert s.owner[s.tbl[n]] == Table(n);
        LoadStore(PageAt(s.mem, s.tbl[m]), vpn % 512, e, i);
      }
    }
  }

  lemma SetLeafOwners(s: St, root: int, vpn: int, e: Word)
    requires Leaves(s) && CanSetLeaf(s, root, vpn, e)
    ensures SetLeaf(s, root, vpn, e).owner.Keys == s.owner.Keys
    ensures forall f | f in s.owner :: SetLeaf(s, root, vpn, e).owner[f] == OwnerAfter(s, root, vpn, e, f)
  {
    var was := Leaf(s, root, vpn);
    assert LeafOk(s, root, vpn);
    forall f | f in s.owner ensures SetLeaf(s, root, vpn, e).owner[f] == OwnerAfter(s, root, vpn, e, f) {
      if s.owner[f] == User(root, vpn) {
        assert Valid(was) && UserPage(was) && Pte2Pa(was) == f;
      }
    }
  }

  /** Who owns page `f` when the leaf entry of page `vpn` becomes `e`. */
  function OwnerAfter(s: St, root: int, vpn: int, e: Word, f: int): Owner
    requires f in s.owner
  {
    if Valid(e) && UserPage(e) && f == Pte2Pa(e) then User(root, vpn)
    else if s.owner[f] == User(root, vpn) then Lent
    else s.owner[f]
  }

  lemma ZeroNotValid()
    ensures !Valid(0)
  {}

  lemma SetLeafLeaves(s: St, root: int, vpn: int, e: Word)
    requires TableOwners(s) && Leaves(s) && CanSetLeaf(s, root, vpn, e)
    ensures Leaves(SetLeaf(s, root, vpn, e))
  {
    hide Leaf;
    hide SetLeaf;
    hide Valid;
    hide UserPage;
    hide Pte2Pa;
    ZeroNotValid();
    SetLeafEntries(s, root, vpn, e);
    SetLeafOwners(s, root, vpn, e);
    var t := SetLeaf(s, root, vpn, e);
    forall r, v ensures LeafOk(t, r, v) {
      assert LeafOk(s, r, v);
    }
    forall f | f in t.owner && t.owner[f].User?
      ensures t.owner[f].vpn >= 0
      ensures var x := Leaf(t, t.owner[f].root, t.owner[f].vpn); Valid(x) && UserPage(x) && Pte2Pa(x) == f
    {
      if t.owner[f] == s.owner[f] {
        assert Pte2Pa(Leaf(s, s.owner[f].root, s.owner[f].vpn)) == f;
      }
    }
  }

  lemma SetLeafTables(s: St, root: int, vpn: int, e: Word)
    requires Pages(s) && TableOwners(s) && Shape(s) && Links(s) && LeafOk(s, root, vpn) && CanSetLeaf(s, root, vpn, e)
    ensures var t := SetLeaf(s, root, vpn, e); Pages(t) && TableOwners(t) && Shape(t) && Links(t)
  {
    hide Entry;
    SetLeafEntries(s, root, vpn, e);
    var t, m := SetLeaf(s, root, vpn, e), Node(root, 0, vpn / 512);
    assert s.owner[s.tbl[m]] == Table(m);
    forall n | n in t.tbl ensures t.tbl[n] in t.owner && t.owner[t.tbl[n]] == Table(n) {
      assert s.owner[s.tbl[n]] == Table(n);
    }
    SetLeafLinks(s, t, m, vpn % 512, e);
  }

  lemma SetLeafLinks(s: St, t: St, m: Node, j: int, e: Word)
    requires Links(s) && m.level == 0 && t.tbl == s.tbl && t.cut == s.cut
    requires forall n, i | 0 <= i < 512 :: Entry(t, n, i) == if n == m && i == j then e else Entry(s, n, i)
    ensures Links(t)
  {
    hide Entry;
    forall n, i | n in t.tbl && n.level > 0 && 0 <= i < 512 ensures Entry(t, n, i) == LinkTo(t, Child(n, i)) {
      assert Entry(s, n, i) == LinkTo(s, Child(n, i));
    }
  }

  lemma LeafIsOk(s: St, root: int, vpn: int)
    requires Leaves(s)
    ensures LeafOk(s, root, vpn)
  {}

  lemma SetLeafInv(s: St, root: int, vpn: int, e: Word)
    requires Inv(s) && CanSetLeaf(s, root, vpn, e)
    ensures Inv(SetLeaf(s, root, vpn, e))
    ensures forall r, v :: Leaf(SetLeaf(s, root, vpn, e), r, v) == if r == root && v == vpn then e else Leaf(s, r, v)
    ensures SetLeaf(s, root, vpn, e).owner.Keys == s.owner.Keys
    ensures forall f | f in s.owner :: SetLeaf(s, root, vpn, e).owner[f] == OwnerAfter(s, root, vpn, e, f)
  {
    hide Leaf;
    hide TableOwners;
    hide Shape;
    hide Links;
    hide Leaves;
    SetLeafOwners(s, root, vpn, e);
    var t, m := SetLeaf(s, root, vpn, e), Node(root, 0, vpn / 512);
    LeafIsOk(s, root, vpn);
    SetLeafEntries(s, root, vpn, e);
    SetLeafLeaves(s, root, vpn, e);
    SetLeafTables(s, root, vpn, e);
    NodeOwner(s, m);
    FreeFrame(s, t);
  }

  // ----- Steps that take a page table down

  /** uvmfree_recursive clears the entry of a table before it goes down into it. */
  function Cut(s: St, c: Node): St
    requires Parent(c) in s.tbl
  {
    PutWord(s, s.tbl[Parent(c)], c.num % 512, 0).(cut := s.cut + {c})
  }

  lemma CutInv(s: St, c: Node)
    requires Inv(s) && c in s.tbl && c.level < 2
    ensures Inv(Cut(s, c))
    ensures forall r, v :: Leaf(Cut(s, c), r, v) == Leaf(s, r, v)
  {
    hide Links;
    hide Leaves;
    hide FreeList;
    var t := Cut(s, c);
    NodeOwner(s, Parent(c));
    CutEntries(s, c);
    ParentChild(c);
    CutLinks(s, c);
    LeavesFrame(s, t);
    FreeFrame(s, t);
  }

  lemma CutEntries(s: St, c: Node)
    requires TableOwners(s) && c in s.tbl && Parent(c) in s.tbl
    ensures forall n, i | n in s.tbl && 0 <= i < 512 ::
              Entry(Cut(s, c), n, i) == if n == Parent(c) && i == c.num % 512 then 0 else Entry(s, n, i)
    ensures forall r, v :: Leaf(Cut(s, c), r, v) == if Node(r, 0, v / 512) == Parent(c)
                           && v % 512 == c.num % 512 then 0 else Leaf(s, r, v)
  {
    var t, p, j := Cut(s, c), Parent(c), c.num % 512;
    NodeOwner(s, p);
    forall n, i | n in s.tbl && 0 <= i < 512 ensures Entry(t, n, i) == if n == p && i == j then 0 else Entry(s, n, i) {
      assert s.owner[s.tbl[n]] == Table(n);
      LoadStore(PageAt(s.mem, s.tbl[p]), j, 0, i);
    }
  }

  lemma CutLinks(s: St, c: Node)
    requires Links(s) && c in s.tbl && c.level < 2 && Parent(c) in s.tbl
    requires forall n, i | n in s.tbl && 0 <= i < 512 ::
               Entry(Cut(s, c), n, i) == if n == Parent(c) && i == c.num % 512 then 0 else Entry(s, n, i)
    ensures Links(Cut(s, c))
  {
    var t := Cut(s, c);
    ParentChild(c);
    forall n, i | n in t.tbl && n.level > 0 && 0 <= i < 512 ensures Entry(t, n, i) == LinkTo(t, Child(n, i)) {
      ChildParent(n, i);
      assert Entry(s, n, i) == LinkTo(s, Child(n, i));
    }
  }

  /** A table whose entries are all clear and that nothing refers to stops being one. */
  function Drop(s: St, n: Node): St
    requires n in s.tbl
  {
    Own(s, s.tbl[n], Lent).(tbl := s.tbl - {n}, cut := s.cut - {n})
  }

  ghost predicate CanDrop(s: St, n: Node) {
    && n in s.tbl && (n.level == 2 || n in s.cut)
    && (forall i | 0 <= i < 512 :: Child(n, i) !in s.tbl)
    && (forall i {:trigger Entry(s, n, i)} | 0 <= i < 512 :: Entry(s, n, i) == 0)
  }

  lemma DropEntries(s: St, n: Node)
    requires CanDrop(s, n)
    ensures forall m, i | 0 <= i < 512 :: Entry(Drop(s, n), m, i) == Entry(s, m, i)
    ensures forall r, v :: Leaf(Drop(s, n), r, v) == Leaf(s, r, v)
  {}

  lemma DropTables(s: St, n: Node)
    requires TableOwners(s) && Shape(s) && Links(s) && CanDrop(s, n)
    ensures TableOwners(Drop(s, n)) && Shape(Drop(s, n)) && Links(Drop(s, n))
  {
    var t := Drop(s, n);
    NodeOwner(s, n);
    forall m | m in t.tbl ensures t.tbl[m] in t.owner && t.owner[t.tbl[m]] == Table(m) {
      assert s.owner[s.tbl[m]] == Table(m);
    }
    forall m | m in t.tbl && m.level < 2 ensures Parent(m) in t.tbl {
      assert Parent(m) in s.tbl;
      ParentChild(m);
    }
    DropLinks(s, n);
  }

  lemma DropLinks(s: St, n: Node)
    requires Shape(s) && Links(s) && CanDrop(s, n)
    ensures Links(Drop(s, n))
  {
    var t := Drop(s, n);
    DropEntries(s, n);
    forall m, i | m in t.tbl && m.level > 0 && 0 <= i < 512 ensures Entry(t, m, i) == LinkTo(t, Child(m, i)) {
      assert Entry(s, m, i) == LinkTo(s, Child(m, i));
    }
  }

  lemma DropInv(s: St, n: Node)
    requires Inv(s) && CanDrop(s, n)
    ensures Inv(Drop(s, n))
    ensures forall r, v :: Leaf(Drop(s, n), r, v) == Leaf(s, r, v)
  {
    hide TableOwners;
    hide Shape;
    hide Links;
    hide Leaves;
    var t := Drop(s, n);
    DropEntries(s, n);
    DropTables(s, n);
    NodeOwner(s, n);
    LeavesFrame(s, t);
    FreeFrame(s, t);
  }

  /** uvmcreate: a zeroed page becomes the root of a new tree. */
  function NewRoot(s: St, f: int): St {
    Own(s, f, Table(Node(f, 2, 0))).(tbl := s.tbl[Node(f, 2, 0) := f])
  }

  lemma NewRootInv(s: St, f: int)
    requires Inv(s) && f in s.owner && s.owner[f] == Lent && PageAt(s.mem, f) == Filled(0)
    ensures Inv(NewRoot(s, f)) && Node(f, 2, 0) !in s.tbl
    ensures forall r, v :: Leaf(NewRoot(s, f), r, v) == Leaf(s, r, v)
  {
    var t, m := NewRoot(s, f), Node(f, 2, 0);
    assert m !in s.tbl;
    forall n, i | 0 <= i < 512 ensures Entry(t, n, i) == Entry(s, n, i) {
      LoadZero(i);
    }
    NewRootTables(s, f);
    LeavesFrame(s, t);
    FreeFrame(s, t);
  }

  lemma NewRootTables(s: St, f: int)
    requires Pages(s) && TableOwners(s) && Shape(s) && Links(s)
    requires f in s.owner && s.owner[f] == Lent && Node(f, 2, 0) !in s.tbl
    requires forall n, i | 0 <= i < 512 :: Entry(NewRoot(s, f), n, i) == Entry(s, n, i)
    ensures var t := NewRoot(s, f); Pages(t) && TableOwners(t) && Shape(t) && Links(t)
  {
    hide Entry;
    var t, m := NewRoot(s, f), Node(f, 2, 0);
    forall n | n in t.tbl ensures t.tbl[n] in t.owner && t.owner[t.tbl[n]] == Table(n) {
      if n != m {
        assert s.owner[s.tbl[n]] == Table(n);
      }
    }
    NewRootLinks(s, f);
  }

  lemma NewRootLinks(s: St, f: int)
    requires Shape(s) && Links(s) && Node(f, 2, 0) !in s.tbl
    requires forall n, i | 0 <= i < 512 :: Entry(NewRoot(s, f), n, i) == Entry(s, n, i)
    ensures Links(NewRoot(s, f))
  {
    var t, m := NewRoot(s, f), Node(f, 2, 0);
    forall n, i | n in t.tbl && n.level > 0 && 0 <= i < 512 ensures Entry(t, n, i) == LinkTo(t, Child(n, i)) {
      ChildParent(n, i);
      if n != m {
        assert Entry(s, n, i) == LinkTo(s, Child(n, i));
      }
    }
  }
}
