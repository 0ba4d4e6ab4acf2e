/** Reading, writing and extending files (kernel/fs/fs.c), and the allocation of clusters (kernel/fs/fat32.c). */
module FatFiles {
  import opened Wrappers
  import opened Pieces
  import opened Fat32Disk
  import opened FatChains

  /** struct dirent, as far as the contents of the file are concerned */
  class File {
    const firstCluster: int
    var size: nat
  }

  const E_EXCEED_FILE := 3

  // ----- Clusters

  /** clusalloc takes the first free cluster and clears it; 0 if there is none. */
  method ClusAlloc(v: Volume, prev: int) returns (next: int)
    requires v.Valid() && (prev == 0 || ROOT <= prev < Bound(v.g))
    modifies v`disk
    ensures v.Valid()
    ensures next == 0 ==> v.disk == old(v.disk) && Free(v.Fat()) == {}
    ensures next != 0 ==> next in Free(old(v.Fat())) && (forall c | ROOT <= c < next :: c !in Free(old(v.Fat())))
    ensures next != 0 ==> v.Fat() == Linked(old(v.Fat()), prev, next)
    ensures next != 0 ==> v.Data() == old(v.Data())[next := Zeros(ClusterBytes(v.g))]
  {
    BoundIs(v.g);
    next := 2;
    while next < Bound(v.g)
      invariant 2 <= next <= Bound(v.g) && v.Valid() && v.disk == old(v.disk)
      invariant forall c | ROOT <= c < next :: v.Fat()[c] != 0
    {
      var entry := v.FatRead(next);
      if entry == 0 {
        if prev != 0 {
          v.FatWrite(prev, next);
        }
        v.FatWrite(next, EOF);
        v.ClusZero(next);
        return;
      }
      next := next + 1;
    }
    return 0;
  }

  /** count_clusters: the length of the file's chain */
  method CountClusters(v: Volume, file: File, ghost s: seq<int>) returns (i: int)
    requires v.Valid()
    requires file.firstCluster != 0 ==> Chain(v.Fat(), s) && s[0] == file.firstCluster
    ensures i == if file.firstCluster == 0 then 0 else |s|
  {
    var clus := file.firstCluster;
    i := 0;
    if clus == 0 {
      return;
    }
    FatSize(v);
    ChainNext(v.Fat(), s, 0);
    while !IsEof(clus)
      invariant 0 <= i <= |s| && (if i < |s| then clus == s[i] && !IsEof(clus) else IsEof(clus))
      decreases |s| - i
    {
      ChainNext(v.Fat(), s, i);
      clus := v.FatRead(clus);
      i := i + 1;
      if i < |s| {
        ChainNext(v.Fat(), s, i);
      }
    }
  }

  lemma FatSize(v: Volume)
    requires v.Valid()
    ensures |v.Fat()| == Bound(v.g) == |v.Data()| < 0x0fff_fff8
    ensures forall c | ROOT <= c < Bound(v.g) :: |v.Data()[c]| == ClusterBytes(v.g)
  {
    hide Bytes;
    forall c | ROOT <= c < Bound(v.g) ensures |v.Data()[c]| == ClusterBytes(v.g) {
      BytesAre(v.g, v.disk, c);
    }
  }

  /** file_get_clusNo: the cluster with this index, or an end mark; 0 for a file without clusters */
  method FileGetClusNo(v: Volume, file: File, index: nat, ghost s: seq<int>) returns (clus: int)
    requires v.Valid() && (file.firstCluster != 0 ==> Chain(v.Fat(), s) && s[0] == file.firstCluster)
    ensures if file.firstCluster == 0 then clus == 0 else if index < |s| then clus == s[index] else IsEof(clus)
  {
    clus := file.firstCluster;
    FatSize(v);
    for i := 0 to index
      invariant if file.firstCluster == 0 then clus == 0 else i < |s| && clus == s[i]
    {
      if file.firstCluster != 0 {
        ChainNext(v.Fat(), s, i);
      }
      clus := v.FatRead(clus);
      if IsEof(clus) {
        break;
      }
    }
  }

  // ----- How much fileread reads

  /** The number of bytes asked for, cut off at the end of the file; the sum is a 32-bit number. */
  function Clip(size: int, off: int, n: int): int {
    if (off + n) % WRAP > size then size - off else n
  }

  /** The cut is right exactly when the sum does not wrap around. */
  lemma ClipRight(size: int, off: int, n: int)
    requires 0 <= off <= size < WRAP && 0 <= n < WRAP
    ensures Clip(size, off, n) == Min(n, size - off) <==> off + n < WRAP
    ensures off + Clip(size, off, n) <= size <==> off + n < WRAP
  {
    if off + n >= WRAP {
      assert (off + n) % WRAP == off + n - WRAP;
    }
  }

  /** The index in the chain of the cluster that holds byte `off`, and the place of the byte in it. */
  function Index(off: nat, w: nat): (q: nat)
    requires w > 0
  {
    off / w
  }

  function Place(off: nat, w: nat): (o: nat)
    requires w > 0
    ensures o < w
  {
    off % w
  }

  function Times(i: nat, w: nat): nat {
    i * w
  }

  /** One cluster's rest, and as many clusters as fit in what is asked for. */
  function ReadLength(off: nat, n: nat, w: nat): int
    requires n > 0 && w > 0
  {
    Min(n, w - Place(off, w) + Times(Index(n - 1, w), w))
  }

  /** fileread makes progress; it reads everything asked for exactly when the bytes beyond whole clusters fit
      in what is left of the first. */
  lemma ReadLengthIs(off: nat, n: nat, w: nat)
    requires n > 0 && w > 0
    ensures 1 <= ReadLength(off, n, w) <= n
    ensures ReadLength(off, n, w) == n <==> off % w + (n - 1) % w < w
  {
    Divided(n - 1, w);
  }

  lemma Divided(a: nat, w: nat)
    requires w > 0
    ensures a == Times(Index(a, w), w) + Place(a, w)
  {
    var q := a / w;
    assert q * w >= 0;
  }

  lemma TimesLess(a: nat, b: nat, w: nat)
    requires a < b
    ensures Times(a, w) + w == Times(a + 1, w) <= Times(b, w)
  {
    Ordered(a + 1, b, w);
    OneMore(a, w);
  }

  lemma PlusOne(a: nat, w: nat)
    ensures Times(a, w) + w == Times(a + 1, w) && Times(0, w) == 0
  {
    OneMore(a, w);
  }

  /** The clusters that the loop of fileread goes through. */
  lemma LoopLength(m: nat, w: nat, o: nat, i: nat)
    requires m > 0 && w > o && i < Index(m - 1, w)
    ensures w - o + Times(i, w) < m
    ensures w - o + Times(i, w) + Min(m - (w - o + Times(i, w)), w) == Min(m, w - o + Times(i + 1, w))
  {
    hide Times;
    hide Index;
    hide Place;
    Divided(m - 1, w);
    TimesLess(i, Index(m - 1, w), w);
  }

  lemma Position(off: nat, w: nat, i: nat)
    requires w > 0
    ensures off + (w - Place(off, w)) + Times(i, w) == Times(Index(off, w) + 1 + i, w)
  {
    Divided(off, w);
    Distribute(Index(off, w), i, w);
  }

  lemma Distribute(q: nat, i: nat, w: nat)
    ensures (q + 1 + i) * w == q * w + w + i * w
  {}

  // ----- Reading

  ghost function ClusterSize(v: Volume): (w: nat)
    requires v.Valid()
    reads v
    ensures w == ClusterBytes(v.g) > 0
  {
    ClusterBytes(v.g)
  }

  /** What of `n` bytes from `off` on lies in the file. */
  function Wanted(size: nat, off: nat, n: nat): nat {
    if off <= size then Min(n, size - off) else 0
  }

  /** What fileread takes for that: without a wrap it is the same. */
  function Asked(size: nat, off: nat, n: nat): (m: nat)
    ensures off + n < WRAP ==> m == Wanted(size, off, n)
    ensures m <= n || m < WRAP
  {
    if off <= size then Clip(size, off, n) else 0
  }

  /** How often the loop of fileread is to run; the end is a 32-bit number, the difference a 64-bit one, and the
      quotient a 32-bit one again. */
  function Rounds(off: nat, m: nat, w: nat): nat
    requires w > 0 && m > 0
  {
    ((off + m - 1) % WRAP - off) % 0x1_0000_0000_0000_0000 / w % WRAP
  }

  lemma RoundsAre(off: nat, m: nat, w: nat)
    requires w > 0 && 0 < m < WRAP && off < WRAP && off + m <= WRAP
    ensures Rounds(off, m, w) == Index(m - 1, w)
  {
    assert (off + m - 1) % WRAP == off + m - 1;
    assert (m - 1) % 0x1_0000_0000_0000_0000 == m - 1;
    Quotient(m - 1, w);
  }

  lemma Quotient(a: nat, w: nat)
    requires w > 0 && a < WRAP
    ensures a / w % WRAP == a / w
  {
    Divided(a, w);
    AtLeastOnce(w, a / w);
  }

  /** With an end that wraps around, more often than there are clusters on any volume. */
  lemma RoundsWrapped(off: nat, m: nat, g: Geometry)
    requires Sane(g) && m < WRAP && off < WRAP && off + m > WRAP
    ensures ClusterBytes(g) > 0 && Rounds(off, m, ClusterBytes(g)) >= 0x0fff_fff8
  {
    var d := WRAP - m + 1;
    assert (off + m - 1) % WRAP - off == -d;
    assert (-d) % 0x1_0000_0000_0000_0000 == 0x1_0000_0000_0000_0000 - d;
    ManyRounds(d, g.perCluster);
  }

  lemma ManyRounds(d: nat, n: nat)
    requires 1 <= d <= WRAP && PowerOfTwo(n)
    ensures (0x1_0000_0000_0000_0000 - d) / (n * BSIZE) % WRAP >= 0x0fff_fff8
  {
    match n
    case 1 => assert (0x1_0000_0000_0000_0000 - d) / 512 % WRAP >= 0x0fff_fff8;
    case 2 => assert (0x1_0000_0000_0000_0000 - d) / 1024 % WRAP >= 0x0fff_fff8;
    case 4 => assert (0x1_0000_0000_0000_0000 - d) / 2048 % WRAP >= 0x0fff_fff8;
    case 8 => assert (0x1_0000_0000_0000_0000 - d) / 4096 % WRAP >= 0x0fff_fff8;
    case 16 => assert (0x1_0000_0000_0000_0000 - d) / 8192 % WRAP >= 0x0fff_fff8;
    case 32 => assert (0x1_0000_0000_0000_0000 - d) / 16384 % WRAP >= 0x0fff_fff8;
    case 64 => assert (0x1_0000_0000_0000_0000 - d) / 32768 % WRAP >= 0x0fff_fff8;
    case _ => assert (0x1_0000_0000_0000_0000 - d) / 65536 % WRAP >= 0x0fff_fff8;
  }

  /** When fileread comes to no end mark in place of a cluster: it has nothing to read from the chain, or the end
      does not wrap around and the chain reaches to what is read. */
  ghost predicate Reaches(all: nat, size: nat, off: nat, n: nat, w: nat)
    requires w > 0
  {
    var m := Asked(size, off, n);
    m == 0 || all <= off || (off + m <= WRAP && off + ReadLength(off, m, w) <= all)
  }

  /** fileread: a stretch of the file from `off` on. A file whose chain ends before `off` has none. A chain that
      goes on at `off` but ends too early for what is to be read, and every end that wraps around, make the loop
      come to an end mark in place of a cluster; `ok` says that this does not happen. */
  method FileRead(v: Volume, file: File, off: nat, n: nat, ghost s: seq<int>) returns (r: int, dst: seq<Byte>, ok: bool)
    requires v.Valid() && Chain(v.Fat(), s) && s[0] == file.firstCluster
    requires off < WRAP && n < WRAP
    ensures ok <==> Reaches(|Content(v.Data(), s)|, file.size, off, n, ClusterSize(v))
    ensures off > file.size ==> r == -E_EXCEED_FILE && dst == []
    ensures off <= file.size && Asked(file.size, off, n) == 0 ==> r == 0 && dst == []
    ensures Asked(file.size, off, n) > 0 && off >= |Content(v.Data(), s)| ==> r == -1 && dst == []
    ensures ok && Asked(file.size, off, n) > 0 && off < |Content(v.Data(), s)| ==>
              && r == ReadLength(off, Asked(file.size, off, n), ClusterSize(v))
              && 1 <= r <= Asked(file.size, off, n) && dst == Content(v.Data(), s)[off..off + r]
  {
    hide ReadLength;
    hide Reached;
    hide Content;
    hide ClusterBytes;
    hide Chain;
    hide Volume.Valid;
    hide Times;
    hide Index;
    hide Place;
    hide IsEof;
    hide Bound;
    hide Sane;
    hide OnDisk;
    hide Volume.Fat;
    hide Volume.Data;
    hide Rounds;
    hide Clip;
    dst, ok := [], true;
    if off > file.size {
      return -E_EXCEED_FILE, [], ok;
    }
    var m := Clip(file.size, off, n);
    assert m == Asked(file.size, off, n);
    if m == 0 {
      return 0, [], ok;
    }
    var size := ClusterBytes(v.g);
    ghost var w := ClusterSize(v);
    InChain(v, s, off);
    FirstInChain(v, s);
    var clus := FileGetClusNo(v, file, Index(off, size), s);
    if IsEof(clus) {
      return -1, [], ok;
    }
    EnoughRounds(v, s, off, m);
    r, dst, ok := ReadPieces(v, clus, off, m, Rounds(off, m, size), s);
  }

  lemma EnoughRounds(v: Volume, s: seq<int>, off: nat, m: nat)
    requires v.Valid() && Chain(v.Fat(), s) && off < WRAP && 0 < m < WRAP
    ensures off + m <= WRAP ==> Rounds(off, m, ClusterSize(v)) == Index(m - 1, ClusterSize(v))
    ensures off + m > WRAP ==> Rounds(off, m, ClusterSize(v)) >= |s|
                               && Rounds(off, m, ClusterSize(v)) > Index(m - 1, ClusterSize(v))
  {
    hide Rounds;
    FatSize(v);
    ChainFits(v.Fat(), s);
    if off + m <= WRAP {
      RoundsAre(off, m, ClusterSize(v));
    } else {
      RoundsWrapped(off, m, v.g);
      FewClusters(m - 1, v.g.perCluster);
    }
  }

  lemma FewClusters(a: nat, n: nat)
    requires a < WRAP && n > 0
    ensures Index(a, n * BSIZE) < 0x0080_0000
  {
    Divided(a, n * BSIZE);
    var q := a / (n * BSIZE);
    Ordered(1, n, q * BSIZE);
    assert n * (q * BSIZE) == q * (n * BSIZE);
  }

  /** The part of fileread after the first cluster is found. */
  method ReadPieces(v: Volume, first: int, off: nat, m: nat, rounds: nat, ghost s: seq<int>)
      returns (r: int, dst: seq<Byte>, ok: bool)
    requires v.Valid() && Chain(v.Fat(), s) && m > 0
    requires Index(off, ClusterSize(v)) < |s| && first == s[Index(off, ClusterSize(v))]
    requires rounds == Index(m - 1, ClusterSize(v)) || rounds >= |s|
    ensures off < |Content(v.Data(), s)|
    ensures ok <==> rounds == Index(m - 1, ClusterSize(v))
                    && off + ReadLength(off, m, ClusterSize(v)) <= |Content(v.Data(), s)|
    ensures ok ==> r == ReadLength(off, m, ClusterSize(v)) && 1 <= r <= m && dst == Content(v.Data(), s)[off..off + r]
  {
    hide ReadLength;
    hide Reached;
    hide Content;
    hide ClusterBytes;
    hide Chain;
    hide Volume.Valid;
    hide Times;
    hide Index;
    hide Place;
    hide IsEof;
    hide Bound;
    hide Sane;
    hide OnDisk;
    hide Volume.Fat;
    hide Volume.Data;
    ghost var w := ClusterSize(v);
    var size := ClusterBytes(v.g);
    ReadLengthIs(off, m, w);
    InChain(v, s, off);
    var offset := Place(off, size);
    FirstPiece(v, s, off, m);
    ReachedEnds(off, m, w);
    dst := v.ClusRead(first, offset, Min(m, size - offset));
    var clus := v.FatRead(first);
    r, dst, ok := ReadRest(v, clus, off, m, rounds, dst, s);
  }

  /** The loop of fileread, which goes on from `clus`. */
  method ReadRest(v: Volume, next: int, off: nat, m: nat, rounds: nat, start: seq<Byte>, ghost s: seq<int>)
      returns (r: int, dst: seq<Byte>, ok: bool)
    requires v.Valid() && Chain(v.Fat(), s) && m > 0 && Index(off, ClusterSize(v)) < |s|
    requires rounds == Index(m - 1, ClusterSize(v)) || rounds >= |s|
    requires var q := Index(off, ClusterSize(v)) + 1; if q < |s| then next == s[q] else IsEof(next)
    requires |start| == Reached(off, m, ClusterSize(v), 0) && off + |start| <= |Content(v.Data(), s)|
    requires start == Content(v.Data(), s)[off..off + |start|]
    ensures ok <==> rounds == Index(m - 1, ClusterSize(v))
                    && off + ReadLength(off, m, ClusterSize(v)) <= |Content(v.Data(), s)|
    ensures ok ==> r == |dst| == ReadLength(off, m, ClusterSize(v)) && dst == Content(v.Data(), s)[off..off + |dst|]
  {
    hide ReadLength;
    hide Reached;
    hide Content;
    hide ClusterBytes;
    hide Chain;
    hide Volume.Valid;
    hide Times;
    hide Index;
    hide Place;
    hide IsEof;
    hide Bound;
    hide Sane;
    hide OnDisk;
    hide Volume.Fat;
    hide Volume.Data;
    ghost var w, all := ClusterSize(v), Content(v.Data(), s);
    ghost var q := Index(off, w);
    var size := ClusterBytes(v.g);
    ReachedEnds(off, m, w);
    var clus := next;
    dst, r := start, |start|;
    for i := 0 to rounds
      invariant r == |dst| == Reached(off, m, w, i)
      invariant off + r <= |all| && dst == all[off..off + r] && q + 1 + i <= |s|
      invariant if q + 1 + i < |s| then clus == s[q + 1 + i] else IsEof(clus)
    {
      NextRound(v, s, off, m, i);
      if IsEof(clus) {
        // there is no cluster to read
        return r, dst, false;
      }
      NextPiece(v, s, off, m, i);
      var x := v.ClusRead(clus, 0, Min(m - r, size));
      Adjoin(all, off, off + r, off + r + |x|);
      dst := dst + x;
      clus := v.FatRead(clus);
      r := r + Min(m - r, size);
    }
    ok := true;
  }

  /** Reading a file of which every byte is there, in requests of any sizes, each from where the last read
      ended: what comes together is the file. */
  method ReadAll(v: Volume, file: File, ghost s: seq<int>) returns (dst: seq<Byte>)
    requires v.Valid() && Chain(v.Fat(), s) && s[0] == file.firstCluster
    requires file.size <= |Content(v.Data(), s)| && file.size < WRAP
    ensures dst == Content(v.Data(), s)[..file.size]
  {
    hide Content;
    hide Chain;
    hide Volume.Valid;
    hide Volume.Data;
    hide Volume.Fat;
    hide ReadLength;
    dst := [];
    while |dst| < file.size
      invariant |dst| <= file.size && dst == Content(v.Data(), s)[..|dst|]
      decreases file.size - |dst|
    {
      ghost var off := |dst|;
      var n: nat := *;
      if n == 0 || |dst| + n >= WRAP {
        n := 1;
      }
      ReadLengthIs(off, Asked(file.size, off, n), ClusterSize(v));
      var _, x, _ := FileRead(v, file, |dst|, n, s);
      Adjoin(Content(v.Data(), s), 0, off, off + |x|);
      dst := dst + x;
    }
  }

  /** How far `i` whole clusters after the first piece reach. */
  function Reached(off: nat, m: nat, w: nat, i: nat): nat
    requires w > 0
  {
    Min(m, w - Place(off, w) + Times(i, w))
  }

  lemma ReachedEnds(off: nat, m: nat, w: nat)
    requires w > 0 && m > 0
    ensures Reached(off, m, w, 0) == Min(m, w - Place(off, w))
            && Reached(off, m, w, Index(m - 1, w)) == ReadLength(off, m, w)
  {
    hide Index;
    hide Place;
    PlusOne(0, w);
  }

  lemma FirstPiece(v: Volume, s: seq<int>, off: nat, m: nat)
    requires v.Valid() && Chain(v.Fat(), s) && m > 0 && Index(off, ClusterSize(v)) < |s|
    ensures var w := ClusterSize(v);
      var q, o := Index(off, w), Place(off, w);
      var len := Min(m, w - o);
      && off + len <= |Content(v.Data(), s)| && o + len <= |v.Data()[s[q]]|
         && v.Data()[s[q]][o..o + len] == Content(v.Data(), s)[off..off + len]
      && ROOT <= s[q] < Bound(v.g) < WRAP && (if q + 1 < |s| then v.Fat()[s[q]] == s[q + 1] else IsEof(v.Fat()[s[q]]))
  {
    hide Chain;
    hide IsEof;
    hide Bound;
    hide Sane;
    hide Volume.Valid;
    hide Volume.Fat;
    hide Volume.Data;
    hide ClusterBytes;
    hide Content;
    hide Times;
    hide Index;
    hide Place;
    var w := ClusterSize(v);
    NextInChain(v, s, Index(off, w));
    Divided(off, w);
    FileWithin(v, s, Index(off, w), Place(off, w), Place(off, w) + Min(m, w - Place(off, w)));
  }

  lemma NextPiece(v: Volume, s: seq<int>, off: nat, m: nat, i: nat)
    requires v.Valid() && Chain(v.Fat(), s) && m > 0 && Index(off, ClusterSize(v)) + 1 + i < |s|
             && off + Reached(off, m, ClusterSize(v), i) <= |Content(v.Data(), s)|
    ensures var w := ClusterSize(v);
      var q, r := Index(off, w) + 1 + i, Reached(off, m, w, i);
      var len := Min(m - r, w);
      && r <= m && off + r + len <= |Content(v.Data(), s)| && 0 <= len <= |v.Data()[s[q]]|
         && v.Data()[s[q]][0..len] == Content(v.Data(), s)[off + r..off + r + len]
      && r + len == Reached(off, m, w, i + 1)
      && ROOT <= s[q] < Bound(v.g) < WRAP && (if q + 1 < |s| then v.Fat()[s[q]] == s[q + 1] else IsEof(v.Fat()[s[q]]))
  {
    hide Chain;
    hide IsEof;
    hide Bound;
    hide Sane;
    hide Volume.Valid;
    hide Volume.Fat;
    hide Volume.Data;
    hide ClusterBytes;
    hide Content;
    hide Times;
    hide Index;
    hide Place;
    hide Held;
    var w := ClusterSize(v);
    var q, r := Index(off, w) + 1 + i, Reached(off, m, w, i);
    PlusOne(i, w);
    Position(off, w, i);
    NextInChain(v, s, q);
    FileWithin(v, s, q, 0, Min(m - r, w));
  }

  /** In its `i`th round the loop has a cluster, or else what it is to read is beyond the end of the chain. */
  lemma NextRound(v: Volume, s: seq<int>, off: nat, m: nat, i: nat)
    requires v.Valid() && Chain(v.Fat(), s) && m > 0 && Index(off, ClusterSize(v)) + 1 + i <= |s|
    ensures var w, q := ClusterSize(v), Index(off, ClusterSize(v)) + 1 + i;
      && (q < |s| ==> !IsEof(s[q]))
      && (q == |s| && i < Index(m - 1, w) ==> off + ReadLength(off, m, w) > |Content(v.Data(), s)|)
  {
    hide Content;
    hide Times;
    hide Index;
    hide Place;
    hide Held;
    var w := ClusterSize(v);
    var q := Index(off, w) + 1 + i;
    if q < |s| {
      NextInChain(v, s, q);
    } else if i < Index(m - 1, w) {
      ChainHeld(v, s);
      Position(off, w, i);
      LoopLength(m, w, Place(off, w), i);
      TimesLess(i, Index(m - 1, w), w);
    }
  }

  lemma FirstInChain(v: Volume, s: seq<int>)
    requires v.Valid() && Chain(v.Fat(), s)
    ensures s != [] && ROOT <= s[0]
  {}

  lemma NextInChain(v: Volume, s: seq<int>, i: nat)
    requires v.Valid() && Chain(v.Fat(), s) && i < |s|
    ensures ROOT <= s[i] < Bound(v.g) < WRAP && !IsEof(s[i]) && 0 <= v.Fat()[s[i]] < WRAP
    ensures i + 1 < |s| ==> v.Fat()[s[i]] == s[i + 1]
    ensures i + 1 == |s| ==> IsEof(v.Fat()[s[i]])
  {
    FatSize(v);
    ChainNext(v.Fat(), s, i);
  }

  /** The byte is in the file exactly if the chain has the cluster. */
  lemma InChain(v: Volume, s: seq<int>, off: nat)
    requires v.Valid() && Chain(v.Fat(), s)
    ensures var q := Index(off, ClusterSize(v));
      && (off < |Content(v.Data(), s)| <==> q < |s|)
      && (q < |s| ==> ROOT <= s[q] < Bound(v.g) < WRAP && !IsEof(s[q]) && (q + 1 < |s| ==> v.Fat()[s[q]] == s[q + 1]))
  {
    hide Content;
    hide Times;
    hide Index;
    hide Place;
    var w := ClusterSize(v);
    var q := Index(off, w);
    ChainHeld(v, s);
    Divided(off, w);
    if q < |s| {
      TimesLess(q, |s|, w);
      NextInChain(v, s, q);
    } else {
      Ordered(|s|, q, w);
      TimesIs(q, w);
      TimesIs(|s|, w);
    }
  }

  lemma TimesIs(i: nat, w: nat)
    ensures Times(i, w) == i * w
  {}

  lemma FileWithin(v: Volume, s: seq<int>, i: nat, lo: nat, hi: nat)
    requires v.Valid() && Chain(v.Fat(), s) && i < |s| && lo <= hi <= ClusterSize(v)
    ensures ROOT <= s[i] < |v.Data()| && hi <= |v.Data()[s[i]]|
            && Times(i, ClusterSize(v)) + hi <= |Content(v.Data(), s)|
    ensures Content(v.Data(), s)[Times(i, ClusterSize(v)) + lo..Times(i, ClusterSize(v)) + hi] == v.Data()[s[i]][lo..hi]
  {
    hide Content;
    ChainHeld(v, s);
    NextInChain(v, s, i);
    ContentWithin(v.Data(), s, ClusterSize(v), i, lo, hi);
  }

  lemma ChainHeld(v: Volume, s: seq<int>)
    requires v.Valid() && Chain(v.Fat(), s)
    ensures Held(v.Data(), s, ClusterBytes(v.g)) && |Content(v.Data(), s)| == Times(|s|, ClusterBytes(v.g))
  {
    FatSize(v);
    forall i | 0 <= i < |s| ensures ROOT <= s[i] < Bound(v.g) {}
    ContentLength(v.Data(), s, ClusterBytes(v.g));
  }
}
