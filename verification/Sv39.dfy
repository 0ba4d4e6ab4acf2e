/** Sv39 page-table entries and virtual addresses (include/riscv.h, include/memlayout.h), and pages of
    memory as bytes that are read and written eight at a time. Sv39 is section 4.4 of the RISC-V
    Privileged Architecture, version 1.12. */
module Sv39 {
  import opened Wrappers

  const PGSIZE: int := 4096
  /** One beyond the highest virtual address that the kernel uses: half of what Sv39 offers. */
  const MAXVA: int := 0x40_0000_0000
  const PHYSTOP: int := 0x8800_0000
  /** Physical addresses have 56 bits. */
  const MAXPA: int := 0x100_0000_0000_0000

  const PTE_V: int := 1

  type Word = w: int | 0 <= w < 0x1_0000_0000_0000_0000

  // ----- Addresses

  /** IDX: the nine bits of a virtual address that select an entry at a level. */
  function Idx(level: int, va: int): (i: int)
    requires 0 <= level <= 2 && va >= 0
    ensures 0 <= i < 512
  {
    (va / (if level == 0 then 0x1000 else if level == 1 then 0x20_0000 else 0x4000_0000)) % 512
  }

  /** The number of the item that covers page `vpn` at a level; level -1 is the page itself. */
  function Num(level: int, vpn: int): int
    requires -1 <= level <= 2
  {
    if level == -1 then vpn else if level == 0 then vpn / 0x200 else if level == 1 then vpn / 0x4_0000
        else vpn / 0x800_0000
  }

  /** Going down one level appends the nine index bits to the number. */
  lemma NumDown(level: int, va: int)
    requires 0 <= level <= 2 && va >= 0
    ensures Num(level - 1, va / PGSIZE) == Num(level, va / PGSIZE) * 512 + Idx(level, va)
  {
    var v := va / PGSIZE;
    if level == 1 {
      assert va / 0x20_0000 == v / 0x200;
      assert v / 0x4_0000 == (v / 0x200) / 512;
    } else if level == 2 {
      assert va / 0x4000_0000 == v / 0x4_0000;
      assert v / 0x800_0000 == (v / 0x4_0000) / 512;
    }
  }

  /** The three indices of addresses below MAXVA pin down the page. */
  lemma IdxInjective(a: int, b: int)
    requires 0 <= a < MAXVA && 0 <= b < MAXVA
    requires forall level | 0 <= level <= 2 :: Idx(level, a) == Idx(level, b)
    ensures a / PGSIZE == b / PGSIZE
  {
    NumDown(2, a);
    NumDown(2, b);
    NumDown(1, a);
    NumDown(1, b);
    NumDown(0, a);
    NumDown(0, b);
    assert Num(2, a / PGSIZE) == 0 == Num(2, b / PGSIZE);
    assert Idx(2, a) == Idx(2, b);
    assert Idx(1, a) == Idx(1, b);
    assert Idx(0, a) == Idx(0, b);
  }

  function PgRoundUp(a: int): int {
    (a + PGSIZE - 1) / PGSIZE * PGSIZE
  }

  function PgRoundDown(a: int): int {
    a / PGSIZE * PGSIZE
  }

  // ----- Entries

  function Pte2Pa(pte: int): int {
    pte / 1024 * PGSIZE
  }

  function PteFlags(pte: int): int {
    pte % 1024
  }

  predicate Valid(pte: int) {
    pte % 2 == 1
  }

  /** Bit `k` of a number. */
  predicate Bit(n: int, k: nat)
    decreases k
  {
    if k == 0 then n % 2 == 1 else Bit(n / 2, k - 1)
  }

  predicate Readable(pte: int) {
    Bit(pte, 1)
  }

  predicate Writable(pte: int) {
    Bit(pte, 2)
  }

  predicate Executable(pte: int) {
    Bit(pte, 3)
  }

  predicate UserPage(pte: int) {
    Bit(pte, 4)
  }

  /** `PA2PTE(pa) | mode | PTE_V` */
  function MakePte(pa: int, mode: int): int {
    pa / PGSIZE * 1024 + (if mode % 2 == 1 then mode else mode + 1)
  }

  predicate Aligned(a: int) {
    a % PGSIZE == 0
  }

  function Shifted(y: int, n: nat): int {
    if n == 0 then y else 2 * Shifted(y, n - 1)
  }

  /** The address part of an entry does not reach its low bits. */
  lemma {:induction false} LowBit(y: int, n: nat, m: int, k: nat)
    requires k < n
    ensures Bit(Shifted(y, n) + m, k) == Bit(m, k)
  {
    var h := Shifted(y, n - 1);
    assert Shifted(y, n) == 2 * h;
    Halve(h, m);
    if k > 0 {
      LowBit(y, n - 1, m / 2, k - 1);
    }
  }

  lemma Halve(h: int, m: int)
    ensures (2 * h + m) % 2 == m % 2 && (2 * h + m) / 2 == h + m / 2
  {}

  lemma ShiftTen(y: int)
    ensures Shifted(y, 10) == y * 1024
  {
    assert Shifted(y, 1) == 2 * y;
    assert Shifted(y, 2) == 4 * y;
    assert Shifted(y, 4) == 16 * y;
    assert Shifted(y, 6) == 64 * y;
    assert Shifted(y, 8) == 256 * y;
  }

  lemma ValidBitApart(m: int, k: nat)
    requires m % 2 == 0 && k > 0
    ensures Bit(m + 1, k) == Bit(m, k)
  {
    assert (m + 1) / 2 == m / 2;
  }

  lemma AddressOf(q: int, m: int)
    requires 0 <= m < 1024
    ensures (q * 1024 + m) / 1024 == q && (q * 1024 + m) % 1024 == m
  {}

  /** An entry gives back the address and the flags it was made of. */
  lemma PteRoundTrip(pa: int, mode: int)
    requires Aligned(pa) && 0 <= mode < 1024
    ensures Pte2Pa(MakePte(pa, mode)) == pa && Valid(MakePte(pa, mode))
    ensures PteFlags(MakePte(pa, mode)) == if mode % 2 == 1 then mode else mode + 1
    ensures forall k | 1 <= k < 10 :: Bit(MakePte(pa, mode), k) == Bit(mode, k)
  {
    var m := if mode % 2 == 1 then mode else mode + 1;
    var q := pa / PGSIZE;
    AddressOf(q, m);
    ShiftTen(q);
    LowBit(q, 10, m, 0);
    forall k | 1 <= k < 10 ensures Bit(MakePte(pa, mode), k) == Bit(mode, k) {
      LowBit(q, 10, m, k);
      if m != mode {
        ValidBitApart(mode, k);
      }
    }
  }

  function Two(m: nat): (p: nat)
    ensures p > 0
  {
    if m == 0 then 1 else 2 * Two(m - 1)
  }

  /** `n | (1 << k)` */
  function SetBit(n: nat, k: nat): nat
    decreases k
  {
    if k == 0 then n + 1 - n % 2 else 2 * SetBit(n / 2, k - 1) + n % 2
  }

  lemma {:induction false} SetBitBits(n: nat, k: nat, j: nat)
    ensures Bit(SetBit(n, k), j) <==> j == k || Bit(n, j)
    decreases k
  {
    if k == 0 {
      assert SetBit(n, 0) / 2 == n / 2;
    } else {
      Halve(SetBit(n / 2, k - 1), n % 2);
      if j > 0 {
        SetBitBits(n / 2, k - 1, j - 1);
      }
    }
  }

  lemma {:induction false} SetBitBound(n: nat, k: nat, m: nat)
    requires k < m && n < Two(m)
    ensures SetBit(n, k) < Two(m)
    decreases m
  {
    var h, t := n / 2, Two(m - 1);
    assert n == 2 * h + n % 2 && Two(m) == 2 * t && h < t;
    if k > 0 {
      SetBitBound(h, k - 1, m - 1);
    }
  }

  /** The remainder by a power of two keeps the low bits. */
  lemma {:induction false} LowBits(n: nat, w: nat, j: nat)
    ensures Bit(n % Two(w), j) <==> j < w && Bit(n, j)
    decreases w
  {
    if w == 0 {
      ZeroBits(j);
    } else {
      var h := n / 2 % Two(w - 1);
      ModTwice(n, Two(w - 1));
      assert n % Two(w) == 2 * h + n % 2;
      Halve(h, n % 2);
      if j > 0 {
        LowBits(n / 2, w - 1, j - 1);
      }
    }
  }

  lemma ModTwice(n: nat, m: nat)
    requires m > 0
    ensures n % (2 * m) == 2 * (n / 2 % m) + n % 2
  {
    var q, h := n / 2 / m, n / 2 % m;
    assert n == 2 * (n / 2) + n % 2 && n / 2 == q * m + h;
    assert n == q * (2 * m) + (2 * h + n % 2);
    ModIs(n, q, 2 * m, 2 * h + n % 2);
  }

  lemma ModIs(n: nat, q: nat, m: nat, r: nat)
    requires n == q * m + r && r < m
    ensures n % m == r
  {
    assert (n / m - q) * m == n / m * m - q * m;
    var d := n / m - q;
    assert d * m == r - n % m;
    if d > 0 {
      Larger(d, m);
    } else if d < 0 {
      Larger(-d, m);
    }
  }

  lemma Larger(d: nat, m: nat)
    requires d > 0
    ensures d * m >= m
  {}

  lemma {:induction false} ZeroBits(k: nat)
    ensures !Bit(0, k)
    decreases k
  {
    if k > 0 {
      ZeroBits(k - 1);
    }
  }

  // ----- Pages

  type Page = p: seq<Byte> | |p| == PGSIZE witness seq(PGSIZE, _ => 0)

  /** memset of a whole page. */
  function Filled(b: Byte): Page {
    seq(PGSIZE, _ => b)
  }

  /** The little-endian number of some bytes. */
  function FromBytes(b: seq<Byte>): (w: nat) {
    if b == [] then 0 else b[0] + 256 * FromBytes(b[1..])
  }

  function ToBytes(w: nat, n: nat): (b: seq<Byte>)
    ensures |b| == n
  {
    if n == 0 then [] else [w % 256] + ToBytes(w / 256, n - 1)
  }

  function Pow256(n: nat): (p: nat)
    ensures p > 0
  {
    if n == 0 then 1 else 256 * Pow256(n - 1)
  }

  lemma {:induction false} BytesRoundTrip(w: nat, n: nat)
    requires w < Pow256(n)
    ensures FromBytes(ToBytes(w, n)) == w
  {
    if n > 0 {
      assert Pow256(n) == 256 * Pow256(n - 1);
      BytesRoundTrip(w / 256, n - 1);
      assert ToBytes(w, n)[1..] == ToBytes(w / 256, n - 1);
    }
  }

  lemma {:induction false} FromBytesBound(b: seq<Byte>)
    ensures FromBytes(b) < Pow256(|b|)
  {
    if b != [] {
      FromBytesBound(b[1..]);
    }
  }

  lemma EightBytes()
    ensures Pow256(8) == 0x1_0000_0000_0000_0000
  {
    assert Pow256(4) == 0x1_0000_0000;
  }

  /** The `i`th word of a page. */
  function Load(p: Page, i: int): (w: Word)
    requires 0 <= i < 512
  {
    EightBytes();
    FromBytesBound(p[8 * i..8 * i + 8]);
    FromBytes(p[8 * i..8 * i + 8])
  }

  function Store(p: Page, i: int, w: Word): Page
    requires 0 <= i < 512
  {
    p[..8 * i] + ToBytes(w, 8) + p[8 * i + 8..]
  }

  lemma LoadStore(p: Page, i: int, w: Word, j: int)
    requires 0 <= i < 512 && 0 <= j < 512
    ensures Load(Store(p, i, w), j) == if i == j then w else Load(p, j)
  {
    var q := Store(p, i, w);
    if i == j {
      EightBytes();
      BytesRoundTrip(w, 8);
      assert q[8 * i..8 * i + 8] == ToBytes(w, 8);
    } else {
      assert q[8 * j..8 * j + 8] == p[8 * j..8 * j + 8];
    }
  }

  lemma {:induction false} FromZeros(b: seq<Byte>)
    requires forall k | 0 <= k < |b| :: b[k] == 0
    ensures FromBytes(b) == 0
  {
    if b != [] {
      FromZeros(b[1..]);
    }
  }

  lemma LoadZero(i: int)
    requires 0 <= i < 512
    ensures Load(Filled(0), i) == 0
  {
    FromZeros(Filled(0)[8 * i..8 * i + 8]);
  }
}
