/** What the flag bits of user pages come to: for copyout, for copyin and for the processor, in numbers
    (include/riscv.h, kernel/uvm.c, kernel/vm.c). */
module UserPermissions {
  import opened Wrappers
  import opened Sv39
  import opened PageState
  import opened PageChanges
  import opened PageTable
  import opened UserMemory
  import opened UserCopy
  import opened UserAccess
  import opened Translation

  // ----- Pages that mappages has mapped

  lemma MappedPermitted(s: St, t: St, root: int, vpn: int, k: int, pa: int, mode: int, v: int, write: bool)
    requires Mapped(s, t, root, vpn, k, pa, mode) && vpn <= v < vpn + k && Aligned(pa)
    requires 0 <= mode < 1024 && mode / 16 % 2 == 1
    ensures Permitted(t, root, v, write) <==> (write ==> mode / 4 % 2 == 1)
  {
    hide Leaf;
    hide MakePte;
    assert Leaf(t, root, v) == MakePte(Nth(pa, v - vpn), mode);
    PteRoundTrip(Nth(pa, v - vpn), mode);
    FlagNumbers(mode);
  }

  /** Data mapped with W can be written to, text mapped without W cannot. */
  method MapAndCopyout(m: Machine, root: int, va: int, pa: int, sz: int, mode: int, dst: int, src: seq<Byte>)
      returns (mapped: int, out: UserAccess.Outcome)
    requires m.Ok() && m.s.cut == {} && Node(root, 2, 0) in m.s.tbl
    requires Aligned(va) && Aligned(sz) && 0 <= va && 0 < sz && va + sz <= MAXVA
    requires Mappable(m.s, root, va / PGSIZE, sz / PGSIZE, pa, mode) && mode / 16 % 2 == 1
    requires va <= dst && dst + |src| <= va + sz && src != []
    modifies m
    ensures m.Ok() && (mapped == 0 || mapped == -1)
    ensures mapped == 0 ==> (out == Done <==> mode / 4 % 2 == 1) && (out == Fault <==> mode / 4 % 2 == 0)
  {
    hide Inv;
    hide Leaf;
    hide Mapped;
    hide Permitted;
    hide Panics;
    hide PgRoundDown;
    MappableMode(m.s, root, va / PGSIZE, sz / PGSIZE, pa, mode);
    ghost var s0 := m.s;
    ghost var k;
    mapped, k := m.Mappages(root, va, pa, sz, mode);
    if mapped != 0 {
      return mapped, Fault;
    }
    MappedTree(s0, m.s, root, va / PGSIZE, k, pa, mode);
    forall a | dst <= a < dst + |src| ensures PermittedAt(m.s, root, a, true) <==> mode / 4 % 2 == 1 {
      MappedPermitted(s0, m.s, root, va / PGSIZE, k, pa, mode, a / PGSIZE, true);
    }
    ghost var s1 := m.s;
    ghost var n;
    out, n := Copyout(m, root, dst, src);
    OutcomeIs(s1, m.s, root, dst, src, out, n, mode / 4 % 2 == 1);
  }

  lemma MappableMode(s: St, root: int, vpn: int, n: int, pa: int, mode: int)
    requires Mappable(s, root, vpn, n, pa, mode)
    ensures Aligned(pa) && 0 <= mode < 1024
  {}

  /** A transfer in pages that are all alike. */
  lemma OutcomeIs(s: St, t: St, root: int, dst: int, src: seq<Byte>, out: UserAccess.Outcome, n: int, can: bool)
    requires 0 <= dst && src != [] && dst + |src| <= MAXVA && 0 <= n <= |src| && CopiedOut(s, t, root, dst, src[..n])
    requires forall a | dst <= a < dst + |src| :: PermittedAt(s, root, a, true) == can
    requires (out == Done <==> n == |src|) && out != Panic && (out != Done ==> Stops(s, root, dst + n, true, out))
    ensures out == if can then Done else Fault
    ensures can ==> n == |src| && src[..n] == src
  {
    hide Leaf;
    hide Permitted;
    PageBefore(dst + n);
    if n < |src| {
      assert PermittedAt(s, root, dst + n, true) == can;
    } else {
      assert PermittedAt(s, root, dst, true);
    }
  }

  // ----- Pages that uvmalloc has made

  /** R and U are set, the other flags are those of `xperm`. */
  lemma UserModeNumbers(xperm: nat)
    requires xperm < 1024
    ensures var mode := UserMode(xperm);
      && 0 <= mode < 1024 && mode / 2 % 2 == 1 && mode / 16 % 2 == 1
      && mode / 4 % 2 == xperm / 4 % 2 && mode / 8 % 2 == xperm / 8 % 2
  {
    hide UserMode;
    var mode := UserMode(xperm);
    UserModeBits(xperm);
    FlagNumbers(mode);
    FlagNumbers(xperm);
    assert Bit(mode, 2) == Bit(xperm, 2) && Bit(mode, 3) == Bit(xperm, 3);
    OneOrNought(mode, xperm);
  }

  lemma NewPageNumbers(s: St, t: St, root: int, v: int, xperm: nat)
    requires NewPage(s, t, root, v, UserMode(xperm)) && xperm < 1024
    ensures var e := Leaf(t, root, v);
      && e % 2 == 1 && e / 2 % 2 == 1 && e / 16 % 2 == 1 && e / 4 % 2 == xperm / 4 % 2 && e / 8 % 2 == xperm / 8 % 2
  {
    hide Leaf;
    hide UserMode;
    hide MakePte;
    hide PteFlags;
    hide Bit;
    var e, mode := Leaf(t, root, v), UserMode(xperm);
    UserModeNumbers(xperm);
    MadeNumbers(0, mode);
    MadeNat(mode);
    SameBits(e, MakePte(0, mode));
    SameNumbers(e, MakePte(0, mode));
  }

  lemma MadeNat(mode: nat)
    ensures MakePte(0, mode) >= 0
  {}

  lemma SameBits(e: nat, d: nat)
    requires PteFlags(e) == PteFlags(d)
    ensures Valid(e) == Valid(d) && Readable(e) == Readable(d) && Writable(e) == Writable(d)
    ensures Executable(e) == Executable(d) && UserPage(e) == UserPage(d)
  {
    assert Two(10) == 1024 by {
      assert Two(5) == 32;
    }
    forall k | 0 <= k <= 4 ensures Bit(e, k) == Bit(d, k) {
      LowBits(e, 10, k);
      LowBits(d, 10, k);
    }
    assert Valid(e) == Bit(e, 0) && Valid(d) == Bit(d, 0);
  }

  lemma SameNumbers(e: int, d: int)
    requires Valid(e) == Valid(d) && Readable(e) == Readable(d) && Writable(e) == Writable(d)
    requires Executable(e) == Executable(d) && UserPage(e) == UserPage(d)
    ensures e % 2 == d % 2 && e / 2 % 2 == d / 2 % 2 && e / 4 % 2 == d / 4 % 2 && e / 8 % 2 == d / 8 % 2
            && e / 16 % 2 == d / 16 % 2
  {
    hide Readable;
    hide Writable;
    hide Executable;
    hide UserPage;
    FlagNumbers(e);
    FlagNumbers(d);
    OneOrNought(e, d);
  }

  lemma NewPagePermitted(s: St, t: St, root: int, v: int, xperm: nat, write: bool)
    requires NewPage(s, t, root, v, UserMode(xperm)) && xperm < 1024
    ensures Permitted(t, root, v, write) <==> (write ==> xperm / 4 % 2 == 1)
  {
    hide Leaf;
    hide UserMode;
    NewPageNumbers(s, t, root, v, xperm);
    FlagNumbers(Leaf(t, root, v));
  }

  /** A process whose memory has grown is given bytes in the new part and they are read back. */
  method GrowAndCopy(m: Machine, root: int, oldsz: int, newsz: int, xperm: nat, dst: int, src: seq<Byte>)
      returns (grown: int, out: UserAccess.Outcome, back: seq<Byte>)
    requires m.Ok() && m.s.cut == {} && Node(root, 2, 0) in m.s.tbl
    requires 0 <= oldsz < newsz <= MAXVA && xperm < 1024
    requires Unused(m.s, root, PagesFor(oldsz), PagesFor(newsz) - PagesFor(oldsz))
    requires PagesFor(oldsz) * PGSIZE <= dst && dst + |src| <= newsz && src != []
    modifies m
    ensures m.Ok() && (grown == newsz || grown == 0)
    ensures grown != 0 && xperm / 4 % 2 == 1 ==> out == Done && back == src
    ensures grown != 0 && xperm / 4 % 2 == 0 ==> out == Fault
  {
    hide Inv;
    hide Leaf;
    hide Allocated;
    hide Unused;
    hide UserMode;
    hide Permitted;
    hide Panics;
    hide PgRoundDown;
    hide CopiedOut;
    hide CopiedIn;
    hide Stops;
    ghost var s0, vpn, n := m.s, PagesFor(oldsz), PagesFor(newsz) - PagesFor(oldsz);
    ghost var done;
    grown, done := Uvmalloc(m, root, oldsz, newsz, xperm);
    if grown == 0 {
      return grown, Fault, [];
    }
    AllocatedTree(s0, m.s, root, vpn, n, n, UserMode(xperm));
    forall a | dst <= a < dst + |src| ensures PermittedAt(m.s, root, a, true) <==> xperm / 4 % 2 == 1 {
      GrownPermitted(s0, m.s, root, oldsz, newsz, xperm, a, true);
    }
    ghost var s1 := m.s;
    ghost var k;
    out, k := Copyout(m, root, dst, src);
    OutcomeIs(s1, m.s, root, dst, src, out, k, xperm / 4 % 2 == 1);
    back := [];
    if out == Done {
      ghost var s2 := m.s;
      CopiedOutTree(s1, s2, root, dst, src, dst);
      var r;
      r, back := Copyin(m, root, dst, |src|);
      ReadBack(s1, s2, root, dst, src, r, back);
    }
  }

  lemma GrownPermitted(s: St, t: St, root: int, oldsz: int, newsz: int, xperm: nat, a: int, write: bool)
    requires Allocated(s, t, root, PagesFor(oldsz), PagesFor(newsz) - PagesFor(oldsz), UserMode(xperm)) && xperm < 1024
    requires PagesFor(oldsz) * PGSIZE <= a < newsz
    ensures PermittedAt(t, root, a, write) <==> (write ==> xperm / 4 % 2 == 1)
  {
    hide Leaf;
    hide UserMode;
    assert PagesFor(oldsz) <= a / PGSIZE < PagesFor(newsz);
    assert Leaf(t, root, a / PGSIZE) == Leaf(t, root, a / PGSIZE);
    assert NewPage(s, t, root, a / PGSIZE, UserMode(xperm));
    NewPagePermitted(s, t, root, a / PGSIZE, xperm, write);
  }

  /** The processor loads from every page that uvmalloc has made, stores to it with W in `xperm` and runs it
      with X, and finds zeros. */
  lemma GrownTranslates(s: St, t: St, root: int, oldsz: int, newsz: int, xperm: nat, va: int)
    requires Allocated(s, t, root, PagesFor(oldsz), PagesFor(newsz) - PagesFor(oldsz), UserMode(xperm)) && xperm < 1024
    requires Inv(t) && t.cut == {} && Node(root, 2, 0) in t.tbl && 0 <= va < MAXVA
    requires PagesFor(oldsz) * PGSIZE <= va < newsz
    ensures var at := Translate(t.mem, root, va, 2, Loading);
      && at.To? && at.pa / 4096 * 4096 in t.mem && t.mem[at.pa / 4096 * 4096][at.pa % 4096] == 0
      && Translate(t.mem, root, va, 2, Storing) == (if xperm / 4 % 2 == 1 then at else PageFault)
      && Translate(t.mem, root, va, 2, Fetching) == (if xperm / 8 % 2 == 1 then at else PageFault)
  {
    hide Inv;
    hide Leaf;
    hide UserMode;
    hide Translate;
    var v := va / PGSIZE;
    assert PagesFor(oldsz) <= v < PagesFor(newsz);
    assert NewPage(s, t, root, v, UserMode(xperm));
    NewPageNumbers(s, t, root, v, xperm);
    TranslatesLeaf(t, root, va, Loading);
    TranslatesLeaf(t, root, va, Storing);
    TranslatesLeaf(t, root, va, Fetching);
    FrameIn(t, root, va);
  }

  /** The byte that the processor comes to. */
  lemma FrameIn(t: St, root: int, va: int)
    requires Inv(t) && IsUser(Leaf(t, root, va / 4096))
    ensures var f := Leaf(t, root, va / 4096) / 1024 * 4096; var at := f + va % 4096;
      at / 4096 * 4096 == f && at % 4096 == va % 4096 && f in t.mem && UserByte(t, root, va) == t.mem[f][at % 4096]
      && UserByte(t, root, va) == PageAt(t.mem, f)[va % 4096]
  {
    hide Inv;
    hide Leaf;
    hide UserPage;
    hide Valid;
    MappedFrame(t, root, va / PGSIZE);
    PageBounds(t, Pte2Pa(Leaf(t, root, va / PGSIZE)));
    InFrame(Leaf(t, root, va / PGSIZE) / 1024, va);
  }

  lemma InFrame(q: int, va: int)
    ensures var at := q * 4096 + va % 4096; at / 4096 == q && at % 4096 == va % 4096
  {}

  // ----- The kernel and the processor

  /** Where the page may be read by its process, copyin and copyout come to a page if and only if the process
      could load from it or store to it, and then to the same byte. */
  lemma KernelAsProcessor(s: St, root: int, va: int, write: bool)
    requires Inv(s) && s.cut == {} && Node(root, 2, 0) in s.tbl && 0 <= va < MAXVA
    ensures var at := Translate(s.mem, root, va, 2, if write then Storing else Loading);
      && (at.To? ==> PermittedAt(s, root, va, write) && at.pa == Pte2Pa(Leaf(s, root, va / PGSIZE)) + va % PGSIZE
                     && at.pa / 4096 * 4096 in s.mem
                        && UserByte(s, root, va) == s.mem[at.pa / 4096 * 4096][at.pa % 4096])
      && (PermittedAt(s, root, va, write) && Leaf(s, root, va / PGSIZE) / 2 % 2 == 1 ==> at.To?)
  {
    hide Inv;
    hide Leaf;
    hide Translate;
    TranslatesLeaf(s, root, va, if write then Storing else Loading);
    FlagNumbers(Leaf(s, root, va / PGSIZE));
    if IsUser(Leaf(s, root, va / PGSIZE)) {
      FrameIn(s, root, va);
    }
  }

  // ----- Pages that uvmcopy has copied

  /** The child can do with a page what its parent can, and finds the bytes that the parent had. */
  lemma CopyTranslates(s: St, t: St, root: int, copy: int, k: int, va: int, what: Access)
    requires Copied(s, t, root, copy, k) && Inv(s) && Inv(t) && s.cut == {} && t.cut == {}
    requires Node(root, 2, 0) in s.tbl && Node(copy, 2, 0) in t.tbl && 0 <= va < MAXVA && va / PGSIZE < k
    requires IsUser(Leaf(s, root, va / PGSIZE))
    ensures var a, b := Translate(s.mem, root, va, 2, what), Translate(t.mem, copy, va, 2, what);
      && (a.To? <==> b.To?)
      && (a.To? ==> a.pa / 4096 * 4096 in s.mem && b.pa / 4096 * 4096 in t.mem
                    && t.mem[b.pa / 4096 * 4096][b.pa % 4096] == s.mem[a.pa / 4096 * 4096][a.pa % 4096])
  {
    hide Inv;
    hide Leaf;
    hide Translate;
    hide Apart;
    hide IsUser;
    var v := va / PGSIZE;
    TranslatesLeaf(s, root, va, what);
    TranslatesLeaf(t, copy, va, what);
    assert Leaf(t, copy, v) == Leaf(t, copy, v);
    assert CopyOf(s, t, root, copy, v);
    CopyIsUser(s, t, root, copy, v);
    FrameIn(s, root, va);
    FrameIn(t, copy, va);
    SameGrant(Leaf(s, root, v), Leaf(t, copy, v), va, what);
  }

  lemma CopyIsUser(s: St, t: St, root: int, copy: int, v: int)
    requires CopyOf(s, t, root, copy, v) && IsUser(Leaf(s, root, v))
    ensures var e, c := Leaf(s, root, v), Leaf(t, copy, v);
      && IsUser(c) && Readable(c) == Readable(e) && Writable(c) == Writable(e) && Executable(c) == Executable(e)
      && PageAt(t.mem, Pte2Pa(c)) == PageAt(s.mem, Pte2Pa(e))
  {
    hide Leaf;
  }

  lemma SameGrant(e: int, c: int, va: int, what: Access)
    requires IsUser(e) && IsUser(c) && va >= 0
    requires Readable(c) == Readable(e) && Writable(c) == Writable(e) && Executable(c) == Executable(e)
    ensures Granted(c, va, what).To? <==> Granted(e, va, what).To?
    ensures Granted(c, va, what).To? ==>
              Granted(c, va, what).pa == c / 1024 * 4096 + va % 4096
                  && Granted(e, va, what).pa == e / 1024 * 4096 + va % 4096
  {
    FlagNumbers(e);
    FlagNumbers(c);
  }

  // ----- Memory that uvmdealloc has taken away

  /** Addresses below the new size are as they were, whole pages beyond it are gone. */
  lemma ShrunkTranslates(s: St, t: St, root: int, oldsz: int, newsz: int, va: int, what: Access)
    requires Unmapped(s, t, root, PagesFor(newsz), PagesFor(oldsz) - PagesFor(newsz), true)
    requires Inv(s) && Inv(t) && s.cut == {} && t.cut == {} && Node(root, 2, 0) in s.tbl && Node(root, 2, 0) in t.tbl
    requires 0 <= va < MAXVA && 0 <= newsz < oldsz
    ensures va < newsz ==> Translate(t.mem, root, va, 2, what) == Translate(s.mem, root, va, 2, what)
    ensures newsz + 4095 <= va < oldsz ==> Translate(t.mem, root, va, 2, what) == PageFault
  {
    hide Inv;
    hide Leaf;
    hide Translate;
    TranslatesLeaf(s, root, va, what);
    TranslatesLeaf(t, root, va, what);
    var v := va / 4096;
    assert va < newsz ==> v < PagesFor(newsz);
    assert newsz + 4095 <= va < oldsz ==> PagesFor(newsz) <= v < PagesFor(oldsz);
    UnmappedLeaf(s, t, root, PagesFor(newsz), PagesFor(oldsz) - PagesFor(newsz), v);
  }

  lemma UnmappedLeaf(s: St, t: St, root: int, vpn: int, n: int, v: int)
    requires Unmapped(s, t, root, vpn, n, true)
    ensures Leaf(t, root, v) == if vpn <= v < vpn + n then 0 else Leaf(s, root, v)
  {
    hide Leaf;
  }
}
