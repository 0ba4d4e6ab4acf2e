/** Taking a whole page table down (uvmfree in kernel/uvm.c): every table page and every user page of the
    tree goes to the free list exactly once, and nothing else does. */
module UserFree {
  import opened Sv39
  import opened PageState
  import opened PageChanges
  import opened PageTable

  /** The number of the ancestor `k` levels up. */
  function Up(x: int, k: nat): int
    decreases k
  {
    if k == 0 then x else Up(x / 512, k - 1)
  }

  lemma {:induction false} UpOnce(x: int, k: nat)
    ensures Up(x, k + 1) == Up(x, k) / 512
    decreases k
  {
    if k > 0 {
      UpOnce(x / 512, k - 1);
    }
  }

  // ----- Parts of a tree: what lies under the items lo..hi of a level; level -1 is that of the pages

  predicate TabIn(c: Node, root: int, level: int, lo: int, hi: int) {
    c.root == root && c.level <= level && lo <= Up(c.num, level - c.level) < hi
  }

  predicate PageIn(v: int, level: int, lo: int, hi: int)
    requires level >= -1
  {
    lo <= Up(v, level + 1) < hi
  }

  predicate OwnerIn(o: Owner, root: int, level: int, lo: int, hi: int)
    requires level >= -1
  {
    (o.Table? && TabIn(o.node, root, level, lo, hi)) || (o.User? && o.root == root && PageIn(o.vpn, level, lo, hi))
  }

  ghost predicate TablesGone(s: St, t: St, root: int, level: int, lo: int, hi: int) {
    && (forall n: Node {:trigger n in t.tbl} {:trigger n in s.tbl} ::
          n in t.tbl <==> n in s.tbl && !TabIn(n, root, level, lo, hi))
    && (forall n: Node {:trigger s.tbl[n]} {:trigger t.tbl[n]} | n in s.tbl && n in t.tbl :: t.tbl[n] == s.tbl[n])
    && (forall n: Node {:trigger n in t.cut} {:trigger n in s.cut} ::
          n in t.cut <==> n in s.cut && !TabIn(n, root, level, lo, hi))
  }

  ghost predicate LeavesGone(s: St, t: St, root: int, level: int, lo: int, hi: int)
    requires level >= -1
  {
    forall r, v {:trigger Leaf(t, r, v)} ::
        Leaf(t, r, v) == if r == root && PageIn(v, level, lo, hi) then 0 else Leaf(s, r, v)
  }

  ghost predicate PagesGone(s: St, t: St, root: int, level: int, lo: int, hi: int)
    requires level >= -1
  {
    && t.owner.Keys == s.owner.Keys && Suffix(s.free, t.free)
    && (forall f {:trigger t.owner[f]} {:trigger s.owner[f]} | f in s.owner ::
          t.owner[f] == if OwnerIn(s.owner[f], root, level, lo, hi) then Free else s.owner[f])
    && (forall f {:trigger PageAt(t.mem, f)} | f in s.owner && !TableOf(s.owner[f], root)
       && !OwnerIn(s.owner[f], root, level, lo, hi) ::
          PageAt(t.mem, f) == PageAt(s.mem, f))
  }

  ghost predicate Freed(s: St, t: St, root: int, level: int, lo: int, hi: int)
    requires level >= -1
  {
    TablesGone(s, t, root, level, lo, hi) && LeavesGone(s, t, root, level, lo, hi)
        && PagesGone(s, t, root, level, lo, hi)
  }

  lemma FreedNothing(s: St, root: int, level: int, lo: int)
    requires level >= -1
    ensures Freed(s, s, root, level, lo, lo)
  {}

  lemma FreedMore(s: St, t: St, u: St, root: int, level: int, lo: int, j: int)
    requires level >= -1 && lo <= j
    requires Freed(s, t, root, level, lo, j) && Freed(t, u, root, level, j, j + 1)
    ensures Freed(s, u, root, level, lo, j + 1)
  {
    hide Up;
    hide Leaf;
    TablesGoneMore(s, t, u, root, level, lo, j);
    SuffixTransitive(s.free, t.free, u.free);
    forall f | f in s.owner
      ensures u.owner[f] == if OwnerIn(s.owner[f], root, level, lo, j + 1) then Free else s.owner[f]
    {
      assert t.owner[f] == if OwnerIn(s.owner[f], root, level, lo, j) then Free else s.owner[f];
    }
  }

  lemma TablesGoneMore(s: St, t: St, u: St, root: int, level: int, lo: int, j: int)
    requires lo <= j && TablesGone(s, t, root, level, lo, j) && TablesGone(t, u, root, level, j, j + 1)
    ensures TablesGone(s, u, root, level, lo, j + 1)
  {
    hide Up;
  }

  // ----- One entry

  /** A leaf entry. */
  lemma FreedLeaf(s: St, t: St, root: int, v: int)
    requires Valid(Leaf(s, root, v)) && Inv(s) && Unmapped(s, t, root, v, 1, UserPage(Leaf(s, root, v)))
    ensures Freed(s, t, root, -1, v, v + 1)
  {
    hide Inv;
    hide Leaf;
    hide UserPage;
    hide Valid;
    LevelsIn(s);
    if !UserPage(Leaf(s, root, v)) {
      Unowned(s, root, v);
    }
  }

  lemma FreedNoLeaf(s: St, root: int, v: int)
    requires Inv(s) && !Valid(Leaf(s, root, v))
    ensures Freed(s, s, root, -1, v, v + 1)
  {
    hide Inv;
    hide Leaf;
    hide UserPage;
    hide Valid;
    LevelsIn(s);
    Unowned(s, root, v);
    LeafZero(s, root, v);
  }

  lemma LevelsIn(s: St)
    requires Inv(s)
    ensures forall n | n in s.tbl || n in s.cut :: 0 <= n.level
    ensures forall f {:trigger s.owner[f]} | f in s.owner && s.owner[f].Table? :: 0 <= s.owner[f].node.level
  {}

  lemma LeafZero(s: St, root: int, v: int)
    requires Inv(s) && !Valid(Leaf(s, root, v))
    ensures Leaf(s, root, v) == 0
  {
    assert LeafOk(s, root, v);
  }

  lemma {:induction false} Ancestor(s: St, n: Node, k: nat)
    requires Inv(s) && n in s.tbl && n.level + k <= 2
    ensures Node(n.root, n.level + k, Up(n.num, k)) in s.tbl
    decreases k
  {
    hide Inv;
    if k > 0 {
      ParentIn(s, n);
      Ancestor(s, Parent(n), k - 1);
    }
  }

  lemma ParentIn(s: St, n: Node)
    requires Inv(s) && n in s.tbl && n.level < 2
    ensures Parent(n) in s.tbl
  {}

  lemma LeafTable(s: St, root: int, v: int)
    requires Inv(s) && Leaf(s, root, v) != 0
    ensures Node(root, 0, v / 512) in s.tbl
  {}

  /** Nothing lies under a table that is not there. */
  lemma FreedNoTable(s: St, c: Node)
    requires Inv(s) && c !in s.tbl && c !in s.cut && 0 <= c.level <= 2
    ensures Freed(s, s, c.root, c.level, c.num, c.num + 1)
  {
    hide Inv;
    hide Leaf;
    forall n | n in s.tbl ensures !TabIn(n, c.root, c.level, c.num, c.num + 1) {
      if TabIn(n, c.root, c.level, c.num, c.num + 1) {
        Ancestor(s, n, c.level - n.level);
      }
    }
    CutInTables(s);
    forall v | PageIn(v, c.level, c.num, c.num + 1) ensures Leaf(s, c.root, v) == 0 {
      if Leaf(s, c.root, v) != 0 {
        LeafTable(s, c.root, v);
      }
    }
    forall f | f in s.owner ensures !OwnerIn(s.owner[f], c.root, c.level, c.num, c.num + 1) {
      OwnedIn(s, f);
    }
  }

  lemma CutInTables(s: St)
    requires Inv(s)
    ensures forall n :: n in s.cut ==> n in s.tbl
  {}

  lemma OwnedIn(s: St, f: int)
    requires Inv(s) && f in s.owner
    ensures s.owner[f].Table? ==> s.owner[f].node in s.tbl
    ensures s.owner[f].User? ==> Leaf(s, s.owner[f].root, s.owner[f].vpn) != 0
  {
    hide Inv;
    hide Leaf;
    if s.owner[f].Table? {
      TableInv(s, f);
    } else if s.owner[f].User? {
      UserInv(s, f);
    }
  }

  lemma UserInv(s: St, f: int)
    requires Inv(s) && f in s.owner && s.owner[f].User?
    ensures Valid(Leaf(s, s.owner[f].root, s.owner[f].vpn)) && UserPage(Leaf(s, s.owner[f].root, s.owner[f].vpn))
    ensures Pte2Pa(Leaf(s, s.owner[f].root, s.owner[f].vpn)) == f && s.owner[f].vpn >= 0
  {
    hide Leaf;
  }

  /** An entry that refers to a table: it is cleared, then the table is taken down. */
  lemma FreedLink(s: St, t: St, c: Node)
    requires Inv(s) && c in s.tbl && 0 <= c.level < 2 && Parent(c) in s.tbl && c !in s.cut
    requires Freed(Cut(s, c), t, c.root, c.level, c.num, c.num + 1)
    ensures Freed(s, t, c.root, c.level, c.num, c.num + 1)
  {
    hide Inv;
    hide Leaf;
    CutInv(s, c);
    TablePage(s, Parent(c));
    var u := Cut(s, c);
    assert TabIn(c, c.root, c.level, c.num, c.num + 1);
    forall f | f in s.owner && f != s.tbl[Parent(c)] ensures PageAt(u.mem, f) == PageAt(s.mem, f) {}
  }

  // ----- The table itself

  lemma UnderTable(x: int, k: nat, num: int)
    ensures Up(x, k + 1) == num <==> num * 512 <= Up(x, k) < num * 512 + 512
  {
    UpOnce(x, k);
  }

  lemma TabUnder(c: Node, n: Node)
    requires 0 <= n.level
    ensures TabIn(c, n.root, n.level, n.num, n.num + 1) <==>
            c == n || TabIn(c, n.root, n.level - 1, n.num * 512, n.num * 512 + 512)
  {
    if c.level < n.level {
      UnderTable(c.num, n.level - 1 - c.level, n.num);
    }
  }

  lemma PageUnder(v: int, n: Node)
    requires 0 <= n.level
    ensures PageIn(v, n.level, n.num, n.num + 1) <==> PageIn(v, n.level - 1, n.num * 512, n.num * 512 + 512)
  {
    UnderTable(v, n.level, n.num);
  }

  lemma FreedTable(s: St, t: St, n: Node)
    requires n in t.tbl && CanDrop(t, n) && Inv(s) && Inv(t) && n in s.tbl && 0 <= n.level <= 2
    requires Freed(s, t, n.root, n.level - 1, n.num * 512, n.num * 512 + 512)
    ensures t.tbl[n] in t.owner && 0 <= t.freelist < PHYSTOP
    ensures Drop(t, n).owner[t.tbl[n]] == Lent && Inv(Drop(t, n))
    ensures Inv(Give(Drop(t, n), t.tbl[n])) && Freed(s, Give(Drop(t, n), t.tbl[n]), n.root, n.level, n.num, n.num + 1)
  {
    hide Inv;
    hide Leaf;
    hide Freed;
    hide CanDrop;
    TablePage(t, n);
    DropInv(t, n);
    FreelistIs(t);
    var d, f := Drop(t, n), t.tbl[n];
    GiveInv(d, f);
    InvEntriesKept(d, Give(d, f));
    FreedTableTabs(s, t, n, Give(d, f));
    FreedTableLeaves(s, t, n, Give(d, f));
    FreedTablePages(s, t, n, f);
    FreedParts(s, Give(d, f), n.root, n.level, n.num, n.num + 1);
  }

  lemma FreedParts(s: St, t: St, root: int, level: int, lo: int, hi: int)
    requires level >= -1
    requires TablesGone(s, t, root, level, lo, hi) && LeavesGone(s, t, root, level, lo, hi)
             && PagesGone(s, t, root, level, lo, hi)
    ensures Freed(s, t, root, level, lo, hi)
  {}

  lemma FreedTableTabs(s: St, t: St, n: Node, u: St)
    requires 0 <= n.level && Freed(s, t, n.root, n.level - 1, n.num * 512, n.num * 512 + 512)
    requires u.tbl == t.tbl - {n} && u.cut == t.cut - {n}
    ensures TablesGone(s, u, n.root, n.level, n.num, n.num + 1)
  {
    var root, level, lo, hi := n.root, n.level, n.num, n.num + 1;
    var low, high := n.num * 512, n.num * 512 + 512;
    forall c: Node ensures TabIn(c, root, level, lo, hi) <==> c == n || TabIn(c, root, level - 1, low, high) {
      TabUnder(c, n);
    }
    hide TabIn;
  }

  lemma FreedTableLeaves(s: St, t: St, n: Node, u: St)
    requires 0 <= n.level && Freed(s, t, n.root, n.level - 1, n.num * 512, n.num * 512 + 512)
    requires forall r, v :: Leaf(u, r, v) == Leaf(t, r, v)
    ensures LeavesGone(s, u, n.root, n.level, n.num, n.num + 1)
  {
    var level, lo, hi := n.level, n.num, n.num + 1;
    var low, high := n.num * 512, n.num * 512 + 512;
    forall v ensures PageIn(v, level, lo, hi) <==> PageIn(v, level - 1, low, high) {
      PageUnder(v, n);
    }
    hide PageIn;
    hide Leaf;
  }

  lemma FreedTablePages(s: St, t: St, n: Node, f: int)
    requires 0 <= n.level && Freed(s, t, n.root, n.level - 1, n.num * 512, n.num * 512 + 512)
    requires n in t.tbl && f == t.tbl[n] && f in t.owner && t.owner[f] == Table(n) && 0 <= t.freelist < PHYSTOP
    requires Inv(s) && n in s.tbl
    ensures PagesGone(s, Give(Drop(t, n), f), n.root, n.level, n.num, n.num + 1)
  {
    hide Inv;
    hide Up;
    hide Leaf;
    hide TablesGone;
    hide LeavesGone;
    var u := Give(Drop(t, n), f);
    TableTab(s, t, n);
    assert s.owner[f] == Table(n);
    SuffixTransitive(s.free, t.free, u.free);
    forall g | g in s.owner
      ensures u.owner[g] == if OwnerIn(s.owner[g], n.root, n.level, n.num, n.num + 1) then Free else s.owner[g]
      ensures g != f ==> PageAt(u.mem, g) == PageAt(t.mem, g)
    {
      OwnerUnder(s.owner[g], n);
      SameOwner(s, g, n);
    }
  }

  lemma TableTab(s: St, t: St, n: Node)
    requires Inv(s) && n in s.tbl && n in t.tbl && 0 <= n.level
    requires Freed(s, t, n.root, n.level - 1, n.num * 512, n.num * 512 + 512)
    ensures s.tbl[n] == t.tbl[n] && s.tbl[n] in s.owner && s.owner[s.tbl[n]] == Table(n)
  {
    TablePage(s, n);
  }

  lemma SameOwner(s: St, g: int, n: Node)
    requires Inv(s) && n in s.tbl && g in s.owner
    ensures s.owner[g] == Table(n) <==> g == s.tbl[n]
  {
    TablePage(s, n);
  }

  lemma OwnerUnder(o: Owner, n: Node)
    requires 0 <= n.level
    ensures OwnerIn(o, n.root, n.level, n.num, n.num + 1) <==>
            o == Table(n) || OwnerIn(o, n.root, n.level - 1, n.num * 512, n.num * 512 + 512)
  {
    if o.Table? {
      TabUnder(o.node, n);
    } else if o.User? {
      PageUnder(o.vpn, n);
    }
  }

  // ----- uvmfree

  /** An entry that refers to a table grants nothing. */
  lemma LinkFlags(s: St, n: Node, i: int)
    requires Inv(s) && n in s.tbl && n.level > 0 && 0 <= i < 512 && Valid(Entry(s, n, i))
    ensures var e := Entry(s, n, i); !Readable(e) && !Writable(e) && !Executable(e)
  {
    hide Inv;
    hide Entry;
    LinkIs(s, n, i);
    var c := Child(n, i);
    assert c in s.tbl;
    TablePage(s, c);
    PteRoundTrip(s.tbl[c], 0);
    ZeroBits(1);
    ZeroBits(2);
    ZeroBits(3);
  }

  lemma LeafEntry(s: St, n: Node, i: int)
    requires Inv(s) && n in s.tbl && n.level == 0 && 0 <= i < 512
    ensures var v := n.num * 512 + i; Entry(s, n, i) == Leaf(s, n.root, v) && Node(n.root, 0, v / 512) == n
                                      && v % 512 == i && v >= 0
  {
    hide Inv;
    ChildParent(n, i);
    TablePage(s, n);
  }

  /** Clearing a leaf entry and freeing the page it maps for the user. */
  method FreeLeaf(m: Machine, frame: int, i: int, ghost n: Node)
    requires m.Ok() && n in m.s.tbl && n.level == 0 && m.s.tbl[n] == frame && 0 <= i < 512
    requires frame in m.mem && Valid(WordAt(m.mem, frame, i))
    modifies m
    ensures m.Ok() && Freed(old(m.s), m.s, n.root, -1, n.num * 512 + i, n.num * 512 + i + 1)
  {
    hide Inv;
    hide Leaf;
    hide Freed;
    hide Bit;
    hide Pte2Pa;
    hide Store;
    var pte := WordAt(m.mem, frame, i);
    ghost var s0, v := m.s, n.num * 512 + i;
    LeafEntry(m.s, n, i);
    UnmapOneInv(m.s, n.root, v, UserPage(pte));
    SetLeafInv(m.s, n.root, v, 0);
    ghost var t := SetLeaf(m.s, n.root, v, 0);
    FreedLeaf(s0, UnmapOne(s0, n.root, v, UserPage(pte)), n.root, v);
    if UserPage(pte) {
      MappedFrame(s0, n.root, v);
      assert t.owner[Pte2Pa(pte)] == OwnerAfter(s0, n.root, v, 0, Pte2Pa(pte)) == Lent;
    }
    m.mem := m.mem[frame := Store(m.mem[frame], i, 0)];
    m.s := t;
    if UserPage(pte) {
      m.Discard(Pte2Pa(pte));
    }
  }

  /** One round of the loop of uvmfree_recursive. */
  method FreeEntry(m: Machine, frame: int, level: int, i: int, ghost n: Node)
    requires m.Ok() && n in m.s.tbl && n.level == level && m.s.tbl[n] == frame && 0 <= i < 512
    requires forall c | c in m.s.cut :: c.level >= level
    modifies m
    ensures m.Ok() && Freed(old(m.s), m.s, n.root, level - 1, n.num * 512 + i, n.num * 512 + i + 1)
    decreases level, 0
  {
    hide Inv;
    hide Leaf;
    hide Freed;
    hide Bit;
    hide Valid;
    hide Store;
    TablePage(m.s, n);
    ghost var s0, c := m.s, Child(n, i);
    var pte := WordAt(m.mem, frame, i);
    if !Valid(pte) {
      if level > 0 {
        LinkEntry(m.s, n, i);
        FreedNoTable(m.s, c);
      } else {
        LeafEntry(m.s, n, i);
        FreedNoLeaf(m.s, n.root, n.num * 512 + i);
      }
      return;
    }
    if level > 0 {
      LinkEntry(m.s, n, i);
      LinkFlags(m.s, n, i);
      ChildParent(n, i);
      CutInv(m.s, c);
    }
    if level > 0 && !Readable(pte) && !Writable(pte) && !Executable(pte) {
      m.mem := m.mem[frame := Store(m.mem[frame], i, 0)];
      m.s := Cut(m.s, c);
      UvmfreeRecursive(m, Pte2Pa(pte), level - 1, c);
      FreedLink(s0, m.s, c);
    } else {
      FreeLeaf(m, frame, i, n);
    }
  }

  method UvmfreeRecursive(m: Machine, frame: int, level: int, ghost n: Node)
    requires m.Ok() && n in m.s.tbl && n.level == level && m.s.tbl[n] == frame && (level < 2 ==> n in m.s.cut)
    requires forall c | c in m.s.cut :: c.level >= level
    modifies m
    ensures m.Ok() && Freed(old(m.s), m.s, n.root, level, n.num, n.num + 1)
    decreases level, 1
  {
    hide Inv;
    hide Leaf;
    hide Freed;
    hide CanDrop;
    ghost var s0 := m.s;
    TablePage(m.s, n);
    FreedNothing(m.s, n.root, level - 1, n.num * 512);
    FreedKeeps(s0, m.s, n, 0);
    var i := 0;
    while i < 512
      invariant 0 <= i <= 512
      invariant m.Ok() && Freed(s0, m.s, n.root, level - 1, n.num * 512, n.num * 512 + i)
      invariant n in m.s.tbl && m.s.tbl[n] == frame && (level < 2 ==> n in m.s.cut)
      invariant forall c | c in m.s.cut :: c.level >= level
    {
      ghost var s1 := m.s;
      FreeEntry(m, frame, level, i, n);
      FreedMore(s0, s1, m.s, n.root, level - 1, n.num * 512, n.num * 512 + i);
      FreedKeeps(s0, m.s, n, i + 1);
      i := i + 1;
    }
    FreedCanDrop(s0, m.s, n);
    FreedTable(s0, m.s, n);
    m.s := Drop(m.s, n);
    m.Discard(frame);
  }

  /** Taking down what is under a table keeps the table. */
  lemma FreedKeeps(s: St, t: St, n: Node, i: int)
    requires 0 <= n.level && n in s.tbl && (n.level < 2 ==> n in s.cut) && forall c | c in s.cut :: c.level >= n.level
    requires Freed(s, t, n.root, n.level - 1, n.num * 512, n.num * 512 + i)
    ensures n in t.tbl && t.tbl[n] == s.tbl[n] && (n.level < 2 ==> n in t.cut)
            && forall c | c in t.cut :: c.level >= n.level
  {}

  lemma FreedCanDrop(s: St, t: St, n: Node)
    requires Inv(t) && n in t.tbl && 0 <= n.level <= 2 && (n.level < 2 ==> n in t.cut)
    requires Freed(s, t, n.root, n.level - 1, n.num * 512, n.num * 512 + 512)
    ensures CanDrop(t, n)
  {
    hide Inv;
    hide Leaf;
    LevelsIn(t);
    forall i | 0 <= i < 512 ensures Child(n, i) !in t.tbl && Entry(t, n, i) == 0 {
      if n.level > 0 {
        assert TabIn(Child(n, i), n.root, n.level - 1, n.num * 512, n.num * 512 + 512);
        LinkIs(t, n, i);
      } else {
        LeafEntry(t, n, i);
        assert PageIn(n.num * 512 + i, -1, n.num * 512, n.num * 512 + 512);
      }
    }
  }

  /** The tree is gone: its tables and its user pages are free, and everything else is as before. */
  ghost predicate Destroyed(s: St, t: St, root: int) {
    && t.owner.Keys == s.owner.Keys && t.cut == s.cut && Suffix(s.free, t.free)
    && (forall n: Node {:trigger n in t.tbl} {:trigger n in s.tbl} :: n in t.tbl <==> n in s.tbl && n.root != root)
    && (forall n: Node {:trigger s.tbl[n]} {:trigger t.tbl[n]} | n in s.tbl && n in t.tbl :: t.tbl[n] == s.tbl[n])
    && (forall r, v {:trigger Leaf(t, r, v)} :: Leaf(t, r, v) == if r == root then 0 else Leaf(s, r, v))
    && (forall f {:trigger t.owner[f]} {:trigger s.owner[f]} | f in s.owner ::
          t.owner[f] == if Mine(s.owner[f], root) then Free else s.owner[f])
    && (forall f {:trigger PageAt(t.mem, f)} | f in s.owner && !Mine(s.owner[f], root) ::
          PageAt(t.mem, f) == PageAt(s.mem, f))
  }

  /** Every table of a tree lies under its root. */
  lemma TabOfTree(s: St, n: Node)
    requires Inv(s) && n in s.tbl
    ensures TabIn(n, n.root, 2, 0, 1)
  {
    hide Inv;
    TablePage(s, n);
    Ancestor(s, n, 2 - n.level);
    TablePage(s, Node(n.root, 2, Up(n.num, 2 - n.level)));
  }

  lemma PageOfTree(s: St, root: int, v: int)
    requires Inv(s) && Leaf(s, root, v) != 0
    ensures PageIn(v, 2, 0, 1)
  {
    hide Inv;
    hide Leaf;
    LeafTable(s, root, v);
    Ancestor(s, Node(root, 0, v / 512), 2);
    TablePage(s, Node(root, 2, Up(v / 512, 2)));
  }

  lemma FreedAll(s: St, t: St, root: int)
    requires Inv(s) && s.cut == {} && Freed(s, t, root, 2, 0, 1)
    ensures Destroyed(s, t, root)
  {
    hide Inv;
    hide Leaf;
    hide TabIn;
    hide PageIn;
    assert forall n | n in s.tbl && TabIn(n, root, 2, 0, 1) :: n.root == root by {
      TabRoot(root, 2, 0, 1);
    }
    forall n | n in s.tbl && n.root == root ensures TabIn(n, root, 2, 0, 1) {
      TabOfTree(s, n);
    }
    forall v | Leaf(s, root, v) != 0 ensures PageIn(v, 2, 0, 1) {
      PageOfTree(s, root, v);
    }
    forall f | f in s.owner ensures OwnerIn(s.owner[f], root, 2, 0, 1) <==>
        !s.owner[f].Free? && Mine(s.owner[f], root) {
      OwnedIn(s, f);
    }
  }

  lemma TabRoot(root: int, level: int, lo: int, hi: int)
    ensures forall n :: TabIn(n, root, level, lo, hi) ==> n.root == root
  {}

  /** `sz` plays no part. */
  method Uvmfree(m: Machine, root: int, sz: int)
    requires m.Ok() && m.s.cut == {} && Node(root, 2, 0) in m.s.tbl
    modifies m
    ensures m.Ok() && Destroyed(old(m.s), m.s, root)
  {
    hide Inv;
    hide Freed;
    hide Destroyed;
    TablePage(m.s, Node(root, 2, 0));
    UvmfreeRecursive(m, root, 2, Node(root, 2, 0));
    FreedAll(old(m.s), m.s, root);
  }
}
