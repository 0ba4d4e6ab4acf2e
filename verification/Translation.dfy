/** What the processor makes of the tables: the translation algorithm of section 4.3.2 of the RISC-V Privileged
    Architecture, version 1.12, for Sv39 in user mode, on the bytes of memory and in plain numbers. The accessed
    and dirty bits, which it may set, are left out. */
module Translation {
  import opened Wrappers
  import opened Sv39
  import opened PageState
  import opened PageChanges

  datatype Access = Fetching | Loading | Storing
  datatype Outcome = PageFault | To(pa: int)

  /** Eight bytes of a page, the least significant one first. */
  function Eight(p: Page, i: int): int
    requires 0 <= i < 512
  {
    Whole(p[8 * i]) + 0x100 * Whole(p[8 * i + 1]) + 0x1_0000 * Whole(p[8 * i + 2]) + 0x100_0000 * Whole(p[8 * i + 3])
    + 0x1_0000_0000 * Whole(p[8 * i + 4]) + 0x100_0000_0000 * Whole(p[8 * i + 5])
    + 0x1_0000_0000_0000 * Whole(p[8 * i + 6]) + 0x100_0000_0000_0000 * Whole(p[8 * i + 7])
  }

  function Whole(b: Byte): int {
    b
  }

  /** The bit of an entry that allows the access. */
  function Allows(what: Access): int {
    match what
    case Loading => 2
    case Storing => 4
    case Fetching => 8
  }

  function Span(level: int): int {
    if level == 0 then 0x1000 else if level == 1 then 0x20_0000 else 0x4000_0000
  }

  /** The frame that an entry names: 44 bits from bit 10 on. */
  function Frame(pte: int): int {
    pte / 1024 % 0x1000_0000_0000 * 0x1000
  }

  function Translate(mem: map<int, Page>, table: int, va: int, level: int, what: Access): Outcome
    requires 0 <= level <= 2 && va >= 0
    decreases level
  {
    var i := va / Span(level) % 512;
    var pte := if table in mem then Eight(mem[table], i) else 0;
    if pte % 2 == 0 || (pte / 2 % 2 == 0 && pte / 4 % 2 == 1) then PageFault
    else if pte / 2 % 2 == 0 && pte / 8 % 2 == 0 then
      if level == 0 then PageFault else Translate(mem, Frame(pte), va, level - 1, what)
    else if pte / 16 % 2 == 0 || pte / Allows(what) % 2 == 0 || Frame(pte) % Span(level) != 0 then PageFault
    else To(Frame(pte) + va % Span(level))
  }

  // ----- The kernel's view of entries, in numbers

  lemma FlagNumbers(e: int)
    ensures Valid(e) == (e % 2 == 1) && Readable(e) == (e / 2 % 2 == 1) && Writable(e) == (e / 4 % 2 == 1)
    ensures Executable(e) == (e / 8 % 2 == 1) && UserPage(e) == (e / 16 % 2 == 1)
  {
    assert e / 2 / 2 == e / 4;
    assert e / 4 / 2 == e / 8;
    assert e / 8 / 2 == e / 16;
    BitBelow(e, 1);
    BitBelow(e, 2);
    BitBelow(e / 2, 1);
    BitBelow(e, 3);
    BitBelow(e / 2, 2);
    BitBelow(e / 4, 1);
    BitBelow(e, 4);
    BitBelow(e / 2, 3);
    BitBelow(e / 4, 2);
    BitBelow(e / 8, 1);
  }

  lemma BitBelow(n: int, k: nat)
    requires k > 0
    ensures Bit(n, k) == Bit(n / 2, k - 1)
    ensures Bit(n, 0) == (n % 2 == 1) && Bit(n / 2, 0) == (n / 2 % 2 == 1)
  {}

  /** An entry that the kernel makes: the frame number from bit 10 on, the flags below, V set. */
  lemma MadeNumbers(pa: int, mode: int)
    requires Aligned(pa) && 0 <= pa < 0x100_0000_0000_0000 && 0 <= mode < 1024
    ensures var e := MakePte(pa, mode);
      && Frame(e) == pa && e % 2 == 1 && e / 2 % 2 == mode / 2 % 2 && e / 4 % 2 == mode / 4 % 2
      && e / 8 % 2 == mode / 8 % 2 && e / 16 % 2 == mode / 16 % 2
  {
    hide Bit;
    var e := MakePte(pa, mode);
    PteRoundTrip(pa, mode);
    FlagNumbers(e);
    FlagNumbers(mode);
    OneOrNought(e, mode);
    FrameOf(pa, mode);
  }

  lemma OneOrNought(e: int, mode: int)
    ensures (e / 2 % 2 == 1 <==> mode / 2 % 2 == 1) ==> e / 2 % 2 == mode / 2 % 2
    ensures (e / 4 % 2 == 1 <==> mode / 4 % 2 == 1) ==> e / 4 % 2 == mode / 4 % 2
    ensures (e / 8 % 2 == 1 <==> mode / 8 % 2 == 1) ==> e / 8 % 2 == mode / 8 % 2
    ensures (e / 16 % 2 == 1 <==> mode / 16 % 2 == 1) ==> e / 16 % 2 == mode / 16 % 2
  {}

  lemma FrameOf(pa: int, mode: int)
    requires Aligned(pa) && 0 <= pa < 0x100_0000_0000_0000 && 0 <= mode < 1024
    ensures Frame(MakePte(pa, mode)) == pa
  {
    hide Bit;
    PteRoundTrip(pa, mode);
  }

  /** The kernel reads the same eight bytes. */
  lemma EightIs(p: Page, i: int)
    requires 0 <= i < 512
    ensures Eight(p, i) == Load(p, i)
  {
    var b := p[8 * i..8 * i + 8];
    FromOne(b);
    FromOne(b[1..]);
    FromOne(b[1..][1..]);
    FromOne(b[1..][1..][1..]);
    FromOne(b[1..][1..][1..][1..]);
    FromOne(b[1..][1..][1..][1..][1..]);
    FromOne(b[1..][1..][1..][1..][1..][1..]);
    FromOne(b[1..][1..][1..][1..][1..][1..][1..]);
  }

  lemma FromOne(b: seq<Byte>)
    requires b != []
    ensures FromBytes(b) == b[0] + 256 * FromBytes(b[1..]) && (|b| == 1 ==> FromBytes(b) == b[0])
  {}

  // ----- The processor sees the kernel's address map

  /** A table above the last: the processor goes on with the table below, if there is one. */
  lemma PointerStep(s: St, n: Node, va: int, what: Access)
    requires Inv(s) && s.cut == {} && n in s.tbl && 1 <= n.level <= 2 && va >= 0
    ensures var c := Child(n, va / Span(n.level) % 512);
      Translate(s.mem, s.tbl[n], va, n.level, what)
      == if c in s.tbl then Translate(s.mem, s.tbl[c], va, n.level - 1, what) else PageFault
  {
    hide Leaves;
    hide FreeList;
    hide Load;
    hide Eight;
    hide Frame;
    hide MakePte;
    var i := va / Span(n.level) % 512;
    var c := Child(n, i);
    TableFrame(s, n);
    EightIs(PageAt(s.mem, s.tbl[n]), i);
    assert Entry(s, n, i) == LinkTo(s, c);
    if c in s.tbl {
      TableFrame(s, c);
      MadeNumbers(s.tbl[c], 0);
    }
  }

  lemma TableFrame(s: St, n: Node)
    requires Inv(s) && n in s.tbl
    ensures Aligned(s.tbl[n]) && 0 < s.tbl[n] < PHYSTOP && s.tbl[n] in s.mem
            && PageAt(s.mem, s.tbl[n]) == s.mem[s.tbl[n]]
    ensures n.level == 2 ==> s.tbl[n] == n.root
  {
    hide Links;
    hide Leaves;
    hide FreeList;
    NodeOwner(s, n);
  }

  /** What an entry of a last table comes to. */
  function Granted(e: int, va: int, what: Access): Outcome
    requires va >= 0
  {
    if e % 2 == 1 && e / 16 % 2 == 1 && e / Allows(what) % 2 == 1 && (what == Storing ==> e / 2 % 2 == 1)
       && !(e / 2 % 2 == 0 && e / 4 % 2 == 1)
    then To(e / 1024 * 4096 + va % 4096) else PageFault
  }

  lemma LeafStep(s: St, n: Node, va: int, what: Access)
    requires Inv(s) && n in s.tbl && n.level == 0 && va >= 0 && n.num == va / 4096 / 512
    ensures Translate(s.mem, s.tbl[n], va, 0, what) == Granted(Leaf(s, n.root, va / 4096), va, what)
  {
    hide Links;
    hide FreeList;
    hide Load;
    hide Eight;
    var i := va / 4096 % 512;
    var e := Leaf(s, n.root, va / 4096);
    TableFrame(s, n);
    EightIs(PageAt(s.mem, s.tbl[n]), i);
    assert LeafOk(s, n.root, va / 4096);
    FlagNumbers(e);
  }

  /** The processor allows exactly the accesses that the leaf entry of the page grants, and goes where it says. */
  lemma TranslatesLeaf(s: St, root: int, va: int, what: Access)
    requires Inv(s) && s.cut == {} && Node(root, 2, 0) in s.tbl && 0 <= va < MAXVA
    ensures Translate(s.mem, root, va, 2, what) == Granted(Leaf(s, root, va / 4096), va, what)
  {
    hide Inv;
    hide Translate;
    hide Leaf;
    hide Granted;
    var top, v := Node(root, 2, 0), va / 4096;
    TableFrame(s, top);
    PointerStep(s, top, va, what);
    var mid := Child(top, va / Span(2) % 512);
    Indices(va);
    if mid in s.tbl {
      PointerStep(s, mid, va, what);
      if Node(root, 0, v / 512) in s.tbl {
        LeafStep(s, Node(root, 0, v / 512), va, what);
      } else {
        NothingThere(s, root, va, what);
      }
    } else {
      NoMiddle(s, root, v);
      NothingThere(s, root, va, what);
    }
  }

  lemma Indices(va: int)
    requires 0 <= va < MAXVA
    ensures va / 0x4000_0000 % 512 == va / 4096 / 512 / 512
    ensures va / 0x4000_0000 % 512 * 512 + va / 0x20_0000 % 512 == va / 4096 / 512
  {
    assert va / 0x20_0000 == va / 4096 / 512;
    assert va / 0x4000_0000 == va / 0x20_0000 / 512;
  }

  lemma NothingThere(s: St, root: int, va: int, what: Access)
    requires va >= 0 && Node(root, 0, va / 4096 / 512) !in s.tbl
    ensures Granted(Leaf(s, root, va / 4096), va, what) == PageFault
  {}

  lemma NoMiddle(s: St, root: int, v: int)
    requires Inv(s) && Node(root, 1, v / 512 / 512) !in s.tbl
    ensures Node(root, 0, v / 512) !in s.tbl
  {
    hide Links;
    hide Leaves;
    hide FreeList;
    assert Node(root, 0, v / 512) in s.tbl ==> Parent(Node(root, 0, v / 512)) in s.tbl;
  }

  /** After mappages of user pages the processor finds frame pa + i for page va + i, for exactly the accesses
      that the mode allows. */
  lemma MappedTranslates(s: St, t: St, root: int, vpn: int, k: int, pa: int, mode: int, va: int, what: Access)
    requires Mapped(s, t, root, vpn, k, pa, mode) && Inv(t) && t.cut == {} && Node(root, 2, 0) in t.tbl
    requires Aligned(pa) && 0 <= pa && pa + k * 4096 <= 0x100_0000_0000_0000 && 0 <= mode < 1024 && mode / 16 % 2 == 1
    requires 0 <= vpn * 4096 <= va < (vpn + k) * 4096 <= MAXVA
    ensures Translate(t.mem, root, va, 2, what) ==
            if mode / Allows(what) % 2 == 1 && !(mode / 2 % 2 == 0 && mode / 4 % 2 == 1) then To(pa + (va - vpn * 4096))
            else PageFault
  {
    hide Inv;
    hide Translate;
    hide MakePte;
    hide Leaf;
    TranslatesLeaf(t, root, va, what);
    var i := va / 4096 - vpn;
    InPages(va, vpn, k);
    assert Leaf(t, root, va / 4096) == MakePte(Nth(pa, i), mode);
    MadeNumbers(Nth(pa, i), mode);
    SmallFrame(Nth(pa, i), mode);
  }

  lemma InPages(va: int, vpn: int, k: int)
    requires 0 <= vpn * 4096 <= va < (vpn + k) * 4096
    ensures vpn <= va / 4096 < vpn + k && va - vpn * 4096 == (va / 4096 - vpn) * 4096 + va % 4096
  {}

  lemma SmallFrame(pa: int, mode: int)
    requires Aligned(pa) && 0 <= pa && 0 <= mode < 1024
    ensures MakePte(pa, mode) / 1024 * 4096 == pa
  {
    PteRoundTrip(pa, mode);
  }
}
