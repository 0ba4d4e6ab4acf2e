/** The kernel's access to user memory: walkaddr (kernel/uvm.c), copyout and copyin (kernel/vm.c), as
    reads and writes of single bytes through the address map. */
module UserAccess {
  import opened Wrappers
  import opened Sv39
  import opened PageState
  import opened PageChanges
  import opened PageTable
  import opened UserMemory
  import opened UserCopy

  predicate Permitted(s: St, root: int, v: int, write: bool) {
    var e := Leaf(s, root, v);
    IsUser(e) && (write ==> Writable(e))
  }

  predicate PermittedAt(s: St, root: int, a: int, write: bool) {
    Permitted(s, root, a / PGSIZE, write)
  }

  /** The byte at a user address, if its page is mapped. */
  function UserByte(s: St, root: int, a: int): Byte {
    PageAt(s.mem, Pte2Pa(Leaf(s, root, a / PGSIZE)))[a % PGSIZE]
  }

  method Walkaddr(m: Machine, root: int, va: int) returns (pa: int)
    requires m.Ok() && m.s.cut == {} && Node(root, 2, 0) in m.s.tbl && 0 <= va
    modifies m
    ensures m.Ok() && m.s == old(m.s)
    ensures va < MAXVA && IsUser(Leaf(m.s, root, va / PGSIZE)) ==>
              pa == Pte2Pa(Leaf(m.s, root, va / PGSIZE)) && pa in m.s.owner && m.s.owner[pa] == User(root, va / PGSIZE)
    ensures !(va < MAXVA && IsUser(Leaf(m.s, root, va / PGSIZE))) ==> pa == 0
  {
    hide Inv;
    hide Leaf;
    if va >= MAXVA {
      return 0;
    }
    var t := m.Walk(root, va, false);
    if t == 0 {
      NoTableNoLeaf(m.s, root, va / PGSIZE);
      return 0;
    }
    LeafAt(m.s, root, va);
    var pte := WordAt(m.mem, t, Idx(0, va));
    if !Valid(pte) {
      return 0;
    }
    if !UserPage(pte) {
      return 0;
    }
    MappedFrame(m.s, root, va / PGSIZE);
    pa := Pte2Pa(pte);
  }

  datatype Outcome = Done | Fault | Panic

  /** Why a transfer that stands at address `a` goes no further. The check against MAXVA is off by one, so
      that the address MAXVA itself makes walk panic. */
  ghost predicate Stops(s: St, root: int, a: int, write: bool, why: Outcome) {
    match why
    case Done => false
    case Fault => PgRoundDown(a) > MAXVA || (PgRoundDown(a) < MAXVA && !Permitted(s, root, a / PGSIZE, write))
    case Panic => PgRoundDown(a) == MAXVA
  }

  lemma PageStart(a: int)
    requires a >= 0
    ensures var b := PgRoundDown(a);
      0 <= b <= a && b / PGSIZE == a / PGSIZE && a - b == a % PGSIZE && Aligned(b) && Aligned(b + PGSIZE)
          && (b < MAXVA ==> b + PGSIZE <= MAXVA)
  {}

  lemma StopsAt(s: St, root: int, a: int, write: bool)
    ensures PgRoundDown(a) > MAXVA ==> Stops(s, root, a, write, Fault)
    ensures PgRoundDown(a) == MAXVA ==> Stops(s, root, a, write, Panic)
    ensures PgRoundDown(a) < MAXVA && !Permitted(s, root, a / PGSIZE, write) ==> Stops(s, root, a, write, Fault)
  {}

  /** When a transfer of `len` bytes from address `a` on panics: it comes to the address MAXVA, all pages
      before which it may access. */
  ghost predicate Panics(s: St, root: int, a: int, len: nat, write: bool) {
    && len > 0 && PgRoundDown(a) <= MAXVA < a + len
    && forall x {:trigger PermittedAt(s, root, x, write)} | a <= x < MAXVA :: PermittedAt(s, root, x, write)
  }

  /** A transfer that has come to its `n`th byte. */
  lemma PanicsAt(s: St, root: int, a: int, n: nat, len: nat, write: bool)
    requires 0 <= a && n <= len && (n > 0 ==> a + n <= MAXVA && (Aligned(a + n) || n == len))
    requires forall x {:trigger PermittedAt(s, root, x, write)} | a <= x < a + n :: PermittedAt(s, root, x, write)
    ensures n == len ==> !Panics(s, root, a, len, write)
    ensures n < len && Stops(s, root, a + n, write, Panic) ==> Panics(s, root, a, len, write)
    ensures n < len && Stops(s, root, a + n, write, Fault) ==> !Panics(s, root, a, len, write)
  {
    hide Permitted;
    var x := a + n;
    PageBefore(a);
    PageBefore(x);
    if n < len && PgRoundDown(x) < MAXVA && !Permitted(s, root, x / PGSIZE, write) {
      assert !PermittedAt(s, root, x, write);
    }
  }

  /** A caller that stays below MAXVA is safe. */
  lemma NoPanic(s: St, root: int, a: int, len: nat, write: bool)
    ensures a + len <= MAXVA ==> !Panics(s, root, a, len, write)
  {}

  /** The address MAXVA itself, which the check lets through, makes any transfer panic. */
  lemma AtMaxva(s: St, root: int, write: bool)
    ensures Panics(s, root, MAXVA, 1, write)
  {}

  lemma PageBefore(a: int)
    ensures PgRoundDown(a) <= a < PgRoundDown(a) + PGSIZE && (PgRoundDown(a) < MAXVA <==> a < MAXVA)
            && (Aligned(a) ==> PgRoundDown(a) == a)
  {}

  // ----- copyout

  /** The bytes of `src` are at the user addresses from `dst` on; no other byte of any process has changed,
      nor has anything that is not a user page. */
  ghost predicate CopiedOut(s: St, t: St, root: int, dst: int, src: seq<Byte>) {
    && t == s.(mem := t.mem) && t.mem.Keys == s.mem.Keys
    && (forall r, v {:trigger Leaf(t, r, v)} :: Leaf(t, r, v) == Leaf(s, r, v))
    && (forall f {:trigger PageAt(t.mem, f)} | f in s.owner && !s.owner[f].User? ::
          PageAt(t.mem, f) == PageAt(s.mem, f))
    && (forall a {:trigger PermittedAt(s, root, a, true)} | dst <= a < dst + |src| :: PermittedAt(s, root, a, true))
    && (forall r, a {:trigger UserByte(t, r, a)} | IsUser(Leaf(s, r, a / PGSIZE)) ::
          UserByte(t, r, a) == if r == root && dst <= a < dst + |src| then src[a - dst] else UserByte(s, r, a))
  }

  lemma CopiedOutNothing(s: St, root: int, dst: int)
    ensures CopiedOut(s, s, root, dst, [])
  {
    hide Leaf;
    hide UserByte;
  }

  lemma CopiedOutMore(s: St, t: St, u: St, root: int, dst: int, a: seq<Byte>, b: seq<Byte>)
    requires CopiedOut(s, t, root, dst, a) && CopiedOut(t, u, root, dst + |a|, b)
    ensures CopiedOut(s, u, root, dst, a + b)
  {
    hide Leaf;
    hide UserByte;
    hide IsUser;
    hide Writable;
    forall x | dst <= x < dst + |a + b| ensures PermittedAt(s, root, x, true) {
      if x >= dst + |a| {
        assert PermittedAt(t, root, x, true);
        assert Leaf(t, root, x / PGSIZE) == Leaf(s, root, x / PGSIZE);
      }
    }
    forall r, x | IsUser(Leaf(s, r, x / PGSIZE))
      ensures UserByte(u, r, x) == if r == root && dst <= x < dst + |a + b| then (a + b)[x - dst] else UserByte(s, r, x)
    {
      assert Leaf(t, r, x / PGSIZE) == Leaf(s, r, x / PGSIZE);
      assert UserByte(t, r, x) == if r == root && dst <= x < dst + |a| then a[x - dst] else UserByte(s, r, x);
    }
  }

  /** memmove to the middle of a page. */
  function Patched(p: Page, off: int, b: seq<Byte>): Page
    requires 0 <= off && off + |b| <= PGSIZE
  {
    p[..off] + b + p[off + |b|..]
  }

  lemma PatchedAt(p: Page, off: int, b: seq<Byte>, i: int)
    requires 0 <= off && off + |b| <= PGSIZE && 0 <= i < PGSIZE
    ensures Patched(p, off, b)[i] == if off <= i < off + |b| then b[i - off] else p[i]
  {}

  /** One round of copyout stays within one page. */
  lemma CopyOutRound(s: St, root: int, dst: int, b: seq<Byte>)
    requires Inv(s) && dst >= 0 && b != [] && Permitted(s, root, dst / PGSIZE, true) && dst % PGSIZE + |b| <= PGSIZE
    ensures var f := Pte2Pa(Leaf(s, root, dst / PGSIZE));
      f in s.owner && var t := Put(s, f, Patched(PageAt(s.mem, f), dst % PGSIZE, b));
          Inv(t) && CopiedOut(s, t, root, dst, b)
  {
    hide Inv;
    hide Leaf;
    hide UserPage;
    hide Writable;
    hide Valid;
    hide Pte2Pa;
    hide Patched;
    hide UserByte;
    var v := dst / PGSIZE;
    MappedFrame(s, root, v);
    var f := Pte2Pa(Leaf(s, root, v));
    var t := Put(s, f, Patched(PageAt(s.mem, f), dst % PGSIZE, b));
    PageBounds(s, f);
    PutInv(s, f, Patched(PageAt(s.mem, f), dst % PGSIZE, b));
    InvEntriesKept(s, t);
    forall a | dst <= a < dst + |b| ensures PermittedAt(s, root, a, true) {
      SamePage(dst, a - dst);
    }
    forall r, a | IsUser(Leaf(s, r, a / PGSIZE))
      ensures UserByte(t, r, a) == if r == root && dst <= a < dst + |b| then b[a - dst] else UserByte(s, r, a)
    {
      CopyOutByte(s, t, root, dst, b, r, a);
    }
  }

  lemma SamePage(dst: int, i: int)
    requires 0 <= i && dst % PGSIZE + i < PGSIZE
    ensures (dst + i) / PGSIZE == dst / PGSIZE && (dst + i) % PGSIZE == dst % PGSIZE + i
  {}

  lemma CopyOutByte(s: St, t: St, root: int, dst: int, b: seq<Byte>, r: int, a: int)
    requires Inv(s) && b != [] && IsUser(Leaf(s, root, dst / PGSIZE)) && dst % PGSIZE + |b| <= PGSIZE
    requires IsUser(Leaf(s, r, a / PGSIZE)) && forall r, v :: Leaf(t, r, v) == Leaf(s, r, v)
    requires var f := Pte2Pa(Leaf(s, root, dst / PGSIZE)); t == Put(s, f, Patched(PageAt(s.mem, f), dst % PGSIZE, b))
    ensures UserByte(t, r, a) == if r == root && dst <= a < dst + |b| then b[a - dst] else UserByte(s, r, a)
  {
    hide Inv;
    hide Leaf;
    hide UserPage;
    hide Valid;
    hide Pte2Pa;
    hide Patched;
    MappedFrame(s, root, dst / PGSIZE);
    MappedFrame(s, r, a / PGSIZE);
    var f := Pte2Pa(Leaf(s, root, dst / PGSIZE));
    PatchedAt(PageAt(s.mem, f), dst % PGSIZE, b, a % PGSIZE);
    if r == root && a / PGSIZE == dst / PGSIZE {
      assert a - dst == a % PGSIZE - dst % PGSIZE;
    } else {
      assert Pte2Pa(Leaf(s, r, a / PGSIZE)) != f;
      if r == root && dst <= a < dst + |b| {
        SamePage(dst, a - dst);
      }
    }
  }

  /** The body of the loop of copyout: one page, or the reason why the transfer stops here. */
  method CopyoutPage(m: Machine, root: int, dst: int, src: seq<Byte>) returns (r: Outcome, n: nat, next: int)
    requires m.Ok() && m.s.cut == {} && Node(root, 2, 0) in m.s.tbl && 0 <= dst && src != []
    modifies m
    ensures m.Ok()
    ensures r == Done ==> 0 < n <= |src| && dst + n <= MAXVA && CopiedOut(old(m.s), m.s, root, dst, src[..n])
    ensures r == Done && n < |src| ==> next == dst + n && Aligned(next)
    ensures r != Done ==> n == 0 && m.s == old(m.s) && Stops(m.s, root, dst, true, r)
  {
    hide Inv;
    hide Leaf;
    hide CopiedOut;
    hide Permitted;
    hide Patched;
    hide Pte2Pa;
    hide UserPage;
    hide Writable;
    hide WordAt;
    hide Valid;
    hide Stops;
    hide PgRoundDown;
    hide Aligned;
    n, next := 0, dst;
    var va0 := PgRoundDown(dst);
    PageStart(dst);
    StopsAt(m.s, root, dst, true);
    if va0 > MAXVA {
      return Fault, n, next;
    }
    if va0 == MAXVA {
      return Panic, n, next;
    }
    var t := m.Walk(root, va0, false);
    if t == 0 {
      NotPermitted(m.s, root, dst / PGSIZE);
      return Fault, n, next;
    }
    LeafAt(m.s, root, va0);
    var pte := WordAt(m.mem, t, Idx(0, va0));
    PermittedIs(m.s, root, dst / PGSIZE, true);
    if !Valid(pte) || !UserPage(pte) || !Writable(pte) {
      return Fault, n, next;
    }
    var pa0 := Pte2Pa(pte);
    n := PGSIZE - (dst - va0);
    n := if n > |src| then |src| else n;
    CopyOutRound(m.s, root, dst, src[..n]);
    PageBounds(m.s, pa0);
    m.mem := m.mem[pa0 := Patched(m.mem[pa0], dst - va0, src[..n])];
    m.s := m.s.(mem := m.mem);
    return Done, n, va0 + PGSIZE;
  }

  /** `k` bytes are copied before the transfer stops. */
  method Copyout(m: Machine, root: int, dst: int, src: seq<Byte>) returns (r: Outcome, ghost k: int)
    requires m.Ok() && m.s.cut == {} && Node(root, 2, 0) in m.s.tbl && 0 <= dst
    modifies m
    ensures m.Ok() && 0 <= k <= |src| && CopiedOut(old(m.s), m.s, root, dst, src[..k])
    ensures r == Done <==> k == |src|
    ensures k > 0 ==> dst + k <= MAXVA
    ensures r == Panic <==> Panics(old(m.s), root, dst, |src|, true)
    ensures dst + |src| <= MAXVA ==> r != Panic
    ensures r != Done ==> Stops(old(m.s), root, dst + k, true, r) && (k == 0 || Aligned(dst + k))
  {
    hide Inv;
    hide Leaf;
    hide CopiedOut;
    hide Permitted;
    hide Stops;
    hide PgRoundDown;
    hide Aligned;
    hide Panics;
    NoPanic(m.s, root, dst, |src|, true);
    ghost var s0 := m.s;
    var d, rest := dst, src;
    k := 0;
    CopiedOutNothing(m.s, root, dst);
    while |rest| > 0
      invariant 0 <= k <= |src| && rest == src[k..] && (rest != [] ==> d == dst + k && (k == 0 || Aligned(d)))
      invariant k > 0 ==> dst + k <= MAXVA
      invariant m.Ok() && CopiedOut(s0, m.s, root, dst, src[..k])
      decreases |rest|
    {
      ghost var s1 := m.s;
      CopiedOutTree(s0, m.s, root, dst, src[..k], d);
      PanicsOut(s0, m.s, root, dst, src, k);
      var n;
      r, n, d := CopyoutPage(m, root, d, rest);
      if r != Done {
        SameStop(s0, s1, root, dst, src[..k], r);
        return;
      }
      CopiedOutMore(s0, s1, m.s, root, dst, src[..k], rest[..n]);
      assert src[..k] + rest[..n] == src[..k + n];
      rest := rest[n..];
      k := k + n;
    }
    PanicsOut(s0, m.s, root, dst, src, k);
    return Done, k;
  }

  lemma SameStop(s: St, t: St, root: int, dst: int, b: seq<Byte>, r: Outcome)
    requires CopiedOut(s, t, root, dst, b)
    ensures Stops(t, root, dst + |b|, true, r) == Stops(s, root, dst + |b|, true, r)
  {
    hide Leaf;
    hide PgRoundDown;
    assert Leaf(t, root, (dst + |b|) / PGSIZE) == Leaf(s, root, (dst + |b|) / PGSIZE);
  }

  lemma PanicsOut(s: St, t: St, root: int, dst: int, src: seq<Byte>, k: nat)
    requires 0 <= dst && k <= |src| && CopiedOut(s, t, root, dst, src[..k])
    requires k > 0 ==> dst + k <= MAXVA && (Aligned(dst + k) || k == |src|)
    ensures k == |src| ==> !Panics(s, root, dst, |src|, true)
    ensures k < |src| && Stops(s, root, dst + k, true, Panic) ==> Panics(s, root, dst, |src|, true)
    ensures k < |src| && Stops(s, root, dst + k, true, Fault) ==> !Panics(s, root, dst, |src|, true)
  {
    hide Permitted;
    PanicsAt(s, root, dst, k, |src|, true);
  }

  lemma CopiedOutTree(s: St, t: St, root: int, dst: int, b: seq<Byte>, a: int)
    requires CopiedOut(s, t, root, dst, b)
    ensures t.cut == s.cut && t.tbl == s.tbl
            && Permitted(t, root, a / PGSIZE, true) == Permitted(s, root, a / PGSIZE, true)
  {
    hide Leaf;
    assert Leaf(t, root, a / PGSIZE) == Leaf(s, root, a / PGSIZE);
  }

  lemma NotPermitted(s: St, root: int, v: int)
    requires Node(root, 0, v / 512) !in s.tbl
    ensures !Permitted(s, root, v, true) && !Permitted(s, root, v, false)
  {
    NoTableNoLeaf(s, root, v);
  }

  lemma PermittedIs(s: St, root: int, v: int, write: bool)
    ensures Permitted(s, root, v, write) <==>
              Valid(Leaf(s, root, v)) && UserPage(Leaf(s, root, v)) && (write ==> Writable(Leaf(s, root, v)))
  {}

  // ----- copyin

  ghost predicate CopiedIn(s: St, root: int, src: int, data: seq<Byte>) {
    forall a {:trigger PermittedAt(s, root, a, false)} {:trigger UserByte(s, root, a)} | src <= a < src + |data| ::
      PermittedAt(s, root, a, false) && data[a - src] == UserByte(s, root, a)
  }

  lemma PanicsIn(s: St, root: int, src: int, data: seq<Byte>, len: nat)
    requires 0 <= src && |data| <= len && CopiedIn(s, root, src, data)
    requires data != [] ==> src + |data| <= MAXVA && (Aligned(src + |data|) || |data| == len)
    ensures |data| == len ==> !Panics(s, root, src, len, false)
    ensures |data| < len && Stops(s, root, src + |data|, false, Panic) ==> Panics(s, root, src, len, false)
    ensures |data| < len && Stops(s, root, src + |data|, false, Fault) ==> !Panics(s, root, src, len, false)
  {
    hide Permitted;
    PanicsAt(s, root, src, |data|, len, false);
  }

  method Copyin(m: Machine, root: int, src: int, len: nat) returns (r: Outcome, data: seq<Byte>)
    requires m.Ok() && m.s.cut == {} && Node(root, 2, 0) in m.s.tbl && 0 <= src
    modifies m
    ensures m.Ok() && m.s == old(m.s)
    ensures |data| <= len && CopiedIn(m.s, root, src, data)
    ensures r == Done <==> |data| == len
    ensures data != [] ==> src + |data| <= MAXVA
    ensures r == Panic <==> Panics(m.s, root, src, len, false)
    ensures src + len <= MAXVA ==> r != Panic
    ensures r != Done ==> Stops(m.s, root, src + |data|, false, r) && (data == [] || Aligned(src + |data|))
  {
    hide Inv;
    hide Leaf;
    hide Permitted;
    hide CopiedIn;
    hide Pte2Pa;
    hide UserPage;
    hide WordAt;
    hide Valid;
    hide Stops;
    hide PgRoundDown;
    hide Aligned;
    hide Panics;
    NoPanic(m.s, root, src, len, false);
    var a, left := src, len;
    data := [];
    CopiedInNothing(m.s, root, src);
    while left > 0
      invariant m.Ok() && m.s == old(m.s) && |data| + left == len && CopiedIn(m.s, root, src, data)
      invariant left >= 0 && (a == src + |data| || left == 0)
      invariant data != [] ==> src + |data| <= MAXVA && (Aligned(src + |data|) || left == 0)
      decreases left
    {
      PanicsIn(m.s, root, src, data, len);
      var va0 := PgRoundDown(a);
      PageStart(a);
      StopsAt(m.s, root, a, false);
      if va0 > MAXVA {
        return Fault, data;
      }
      if va0 == MAXVA {
        return Panic, data;
      }
      var t := m.Walk(root, va0, false);
      if t == 0 {
        NotPermitted(m.s, root, a / PGSIZE);
        return Fault, data;
      }
      LeafAt(m.s, root, va0);
      var pte := WordAt(m.mem, t, Idx(0, va0));
      PermittedIs(m.s, root, a / PGSIZE, false);
      if !Valid(pte) || !UserPage(pte) {
        return Fault, data;
      }
      var pa0 := Pte2Pa(pte);
      var n := PGSIZE - (a - va0);
      n := if n > left then left else n;
      MappedFrame(m.s, root, a / PGSIZE);
      PageBounds(m.s, pa0);
      CopiedInMore(m.s, root, src, data, n);
      data := data + m.mem[pa0][a - va0..a - va0 + n];
      left := left - n;
      a := va0 + PGSIZE;
    }
    PanicsIn(m.s, root, src, data, len);
    return Done, data;
  }

  lemma CopiedInNothing(s: St, root: int, src: int)
    ensures CopiedIn(s, root, src, [])
  {}

  lemma CopiedInMore(s: St, root: int, src: int, data: seq<Byte>, n: nat)
    requires CopiedIn(s, root, src, data)
    requires var a := src + |data|; Permitted(s, root, a / PGSIZE, false) && a % PGSIZE + n <= PGSIZE
    ensures var a := src + |data|;
      CopiedIn(s, root, src, data + PageAt(s.mem, Pte2Pa(Leaf(s, root, a / PGSIZE)))[a % PGSIZE..a % PGSIZE + n])
  {
    hide Leaf;
    hide Permitted;
    hide Pte2Pa;
    var a := src + |data|;
    var more := PageAt(s.mem, Pte2Pa(Leaf(s, root, a / PGSIZE)))[a % PGSIZE..a % PGSIZE + n];
    forall x | src <= x < src + |data + more|
      ensures PermittedAt(s, root, x, false) && (data + more)[x - src] == UserByte(s, root, x)
    {
      if x < a {
        assert PermittedAt(s, root, x, false);
      } else {
        SamePage(a, x - a);
      }
    }
  }

  /** What copyout wrote, copyin of the same range reads back, all of it. */
  lemma ReadBack(s: St, t: St, root: int, dst: int, src: seq<Byte>, r: Outcome, data: seq<Byte>)
    requires CopiedOut(s, t, root, dst, src) && 0 <= dst && dst + |src| <= MAXVA
    requires CopiedIn(t, root, dst, data) && |data| <= |src| && (r == Done <==> |data| == |src|)
    requires r != Done ==> Stops(t, root, dst + |data|, false, r)
    ensures r == Done && data == src
  {
    hide Leaf;
    hide UserByte;
    hide CopiedOut;
    hide CopiedIn;
    hide Permitted;
    forall i | 0 <= i < |data| ensures data[i] == src[i] {
      BytesAgree(s, t, root, dst, src, data, i);
    }
    if |data| < |src| {
      StillReadable(s, t, root, dst, src, dst + |data|);
    }
  }

  lemma BytesAgree(s: St, t: St, root: int, dst: int, src: seq<Byte>, data: seq<Byte>, i: nat)
    requires CopiedOut(s, t, root, dst, src) && CopiedIn(t, root, dst, data) && i < |data| <= |src|
    ensures data[i] == src[i]
  {
    hide Leaf;
    hide UserByte;
    var a := dst + i;
    assert PermittedAt(s, root, a, true);
    assert UserByte(t, root, a) == src[a - dst] && data[a - dst] == UserByte(t, root, a);
  }

  lemma StillReadable(s: St, t: St, root: int, dst: int, src: seq<Byte>, a: int)
    requires CopiedOut(s, t, root, dst, src) && dst <= a < dst + |src|
    ensures Permitted(t, root, a / PGSIZE, false)
  {
    hide Leaf;
    assert PermittedAt(s, root, a, true);
    assert Leaf(t, root, a / PGSIZE) == Leaf(s, root, a / PGSIZE);
  }
}
