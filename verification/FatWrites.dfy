/** Extending and writing files (kernel/fs/fs.c). */
module FatWrites {
  import opened Wrappers
  import opened Pieces
  import opened Fat32Disk
  import opened FatChains
  import opened FatFiles

  // ----- How many clusters

  /** A number of bytes in whole clusters. */
  function InClusters(bytes: nat, w: nat): (n: nat)
    requires w > 0
  {
    Index(bytes, w) + (if Place(bytes, w) == 0 then 0 else 1)
  }

  lemma InClustersIs(bytes: nat, w: nat)
    requires w > 0
    ensures bytes <= Times(InClusters(bytes, w), w) < bytes + w
  {
    hide Times;
    hide Index;
    hide Place;
    Divided(bytes, w);
    PlusOne(Index(bytes, w), w);
  }

  /** With `more` clusters a chain that reaches to the old size reaches to the new one exactly if with all free
      clusters it would. */
  ghost predicate GrowsEnough(have: nat, size: nat, newSize: nat, more: nat, free: nat, w: nat) {
    size <= newSize && Times(have, w) >= size ==>
      (Times(have + more, w) >= newSize <==> Times(have + free, w) >= newSize)
  }

  /** So it is if as many are added as there are free, or as the growth takes. */
  lemma ExtendedReaches(have: nat, size: nat, newSize: nat, more: nat, free: nat, w: nat)
    requires w > 0 && size <= newSize && more == Min(InClusters(newSize - size, w), free)
    ensures GrowsEnough(have, size, newSize, more, free, w)
  {
    hide Times;
    hide InClusters;
    var n := InClusters(newSize - size, w);
    InClustersIs(newSize - size, w);
    TimesPlus(have, n, w);
    if n <= free {
      TimesOrder(have + n, have + free, w);
    }
  }

  lemma TimesPlus(a: nat, b: nat, w: nat)
    ensures Times(a + b, w) == Times(a, w) + Times(b, w)
  {}

  lemma TimesOrder(a: nat, b: nat, w: nat)
    requires a <= b
    ensures Times(a, w) <= Times(b, w)
  {
    Ordered(a, b, w);
  }

  // ----- Extending

  /** The clusters in `more` are cleared, the others are as before. */
  ghost predicate Cleared(data: seq<seq<Byte>>, d: seq<seq<Byte>>, more: seq<int>, w: nat) {
    && |d| == |data|
    && (forall c {:trigger d[c]} | ROOT <= c < |d| :: d[c] == if c in more then Zeros(w) else data[c])
  }

  ghost function Elements(s: seq<int>): set<int> {
    set c | c in s
  }

  /** The state of the FAT while the chain grows. */
  ghost predicate Grown(fat: seq<int>, f: seq<int>, chains: seq<seq<int>>, k: nat, more: seq<int>) {
    && k < |chains| && |f| == |fat| && Chains(f, chains[k := chains[k] + more])
    && Elements(more) <= Free(fat) && Free(f) == Free(fat) - Elements(more) && |Free(f)| == |Free(fat)| - |more|
  }

  lemma GrowOne(fat: seq<int>, f: seq<int>, chains: seq<seq<int>>, k: nat, more: seq<int>, r: int)
    requires Grown(fat, f, chains, k, more) && |fat| <= 0x0fff_fff8 && r in Free(f)
    ensures var s := chains[k] + more; s != [] && s[|s| - 1] < |fat|
                                       && Grown(fat, Linked(f, s[|s| - 1], r), chains, k, more + [r])
  {
    var now := chains[k := chains[k] + more];
    LinkedChains(f, now, k, r);
    assert chains[k] + more + [r] == chains[k] + (more + [r]);
    assert now[k := now[k] + [r]] == chains[k := chains[k] + (more + [r])];
    assert Elements(more + [r]) == Elements(more) + {r};
  }

  lemma ClearOne(data: seq<seq<Byte>>, d: seq<seq<Byte>>, more: seq<int>, w: nat, r: int)
    requires Cleared(data, d, more, w) && ROOT <= r < |d|
    ensures Cleared(data, d[r := Zeros(w)], more + [r], w)
  {}

  lemma NoneYet(fat: seq<int>, chains: seq<seq<int>>, k: nat)
    requires Chains(fat, chains) && k < |chains|
    ensures Grown(fat, fat, chains, k, [])
  {
    assert chains[k] + [] == chains[k];
    assert chains[k := chains[k] + []] == chains;
  }

  lemma LastOf(v: Volume, fat: seq<int>, chains: seq<seq<int>>, k: nat, more: seq<int>)
    requires v.Valid() && Grown(fat, v.Fat(), chains, k, more)
    ensures var s := chains[k] + more; s != [] && ROOT <= s[|s| - 1] < Bound(v.g)
  {
    var s := chains[k := chains[k] + more][k];
    assert Chain(v.Fat(), s);
    FatSize(v);
  }

  /** fileExtend: as many clusters as the growth takes, or all that are free, cleared, at the end of the file's
      chain. The other chains and the contents of all other clusters stay, and the file has its new size in any case. */
  method FileExtend(v: Volume, file: File, newSize: nat, ghost chains: seq<seq<int>>, ghost k: nat)
      returns (ghost more: seq<int>)
    requires v.Valid() && Chains(v.Fat(), chains) && k < |chains| && chains[k] != []
             && chains[k][0] == file.firstCluster
    modifies v`disk, file`size
    ensures v.Valid()
    ensures file.size == if old(file.size) > newSize then old(file.size) else newSize
    ensures |more| == if old(file.size) > newSize then 0
                      else Min(InClusters(newSize - old(file.size), ClusterSize(v)), |Free(old(v.Fat()))|)
    ensures Grown(old(v.Fat()), v.Fat(), chains, k, more)
    ensures Cleared(old(v.Data()), v.Data(), more, ClusterBytes(v.g))
    ensures GrowsEnough(|chains[k]|, old(file.size), newSize, |more|, |Free(old(v.Fat()))|, ClusterSize(v))
  {
    hide Chains;
    hide Grown;
    hide Cleared;
    hide Linked;
    hide Free;
    hide ClusterBytes;
    hide InClusters;
    hide Volume.Valid;
    hide Volume.Fat;
    hide Volume.Data;
    hide IsEof;
    hide Times;
    NoneYet(v.Fat(), chains, k);
    NoneCleared(v.Data(), ClusterBytes(v.g));
    FatSize(v);
    more := [];
    if file.size > newSize {
      return;
    }
    ghost var size := file.size;
    ghost var w := ClusterSize(v);
    var extend := InClusters(newSize - file.size, ClusterBytes(v.g));
    file.size := newSize;
    var last := LastCluster(v, file, chains[k], chains, k);
    for i := 0 to extend
      invariant v.Valid() && file.size == newSize && |more| == Min(i, |Free(old(v.Fat()))|)
      invariant Grown(old(v.Fat()), v.Fat(), chains, k, more)
                && Cleared(old(v.Data()), v.Data(), more, ClusterBytes(v.g))
      invariant last == 0 ==> Free(v.Fat()) == {}
      invariant last != 0 ==> var s := chains[k] + more; s != [] && last == s[|s| - 1]
    {
      ghost var fat, data := v.Fat(), v.Data();
      LastOf(v, old(v.Fat()), chains, k, more);
      FatSize(v);
      GrownSize(old(v.Fat()), fat, chains, k, more);
      last := ClusAlloc(v, last);
      if last != 0 {
        FreeSize(fat, last);
        GrowOne(old(v.Fat()), fat, chains, k, more, last);
        ClearOne(old(v.Data()), data, more, ClusterBytes(v.g), last);
        more := more + [last];
        GrownSize(old(v.Fat()), v.Fat(), chains, k, more);
      }
    }
    ExtendedReaches(|chains[k]|, size, newSize, |more|, |Free(old(v.Fat()))|, w);
  }

  /** Where the loop that looks for the last cluster stands after `i` rounds. */
  ghost function Follow(v: Volume, c: int, i: nat): int
    reads v
  {
    if i == 0 then c else EntryOr0(v.g, v.disk, Follow(v, c, i - 1))
  }

  /** In a chain it comes to the end mark, after as many rounds as there are clusters. */
  lemma {:induction false} FollowEnds(v: Volume, s: seq<int>, i: nat)
    requires v.Valid() && Chain(v.Fat(), s) && i <= |s|
    ensures if i < |s| then Follow(v, s[0], i) == s[i] && !IsEof(s[i]) else IsEof(Follow(v, s[0], i))
  {
    hide Entry;
    FatSize(v);
    if i < |s| {
      ChainNext(v.Fat(), s, i);
    }
    if i > 0 {
      FollowEnds(v, s, i - 1);
      ChainNext(v.Fat(), s, i - 1);
      BoundIs(v.g);
    }
  }

  /** For a file without a cluster it never does: fileExtend runs on. */
  lemma {:induction false} FollowNothing(v: Volume, i: nat)
    ensures Follow(v, 0, i) == 0 && !IsEof(Follow(v, 0, i))
  {
    if i > 0 {
      FollowNothing(v, i - 1);
    }
  }

  lemma GrownSize(fat: seq<int>, f: seq<int>, chains: seq<seq<int>>, k: nat, more: seq<int>)
    requires Grown(fat, f, chains, k, more)
    ensures |Free(f)| == |Free(fat)| - |more| && |more| <= |Free(fat)| && (Free(f) == {} ==> |more| == |Free(fat)|)
  {}

  lemma FreeSize(fat: seq<int>, r: int)
    requires r in Free(fat)
    ensures ROOT <= r < |fat|
  {}

  lemma NoneCleared(data: seq<seq<Byte>>, w: nat)
    ensures Cleared(data, data, [], w)
  {}

  /** The loop of fileExtend that finds the last cluster. */
  method LastCluster(v: Volume, file: File, ghost s: seq<int>, ghost chains: seq<seq<int>>, ghost k: nat)
      returns (last: int)
    requires v.Valid() && Chains(v.Fat(), chains) && k < |chains| && s == chains[k] && s != []
             && s[0] == file.firstCluster
    ensures last != 0 && last == s[|s| - 1]
  {
    assert Chain(v.Fat(), s);
    hide Chains;
    FatSize(v);
    last := 0;
    var clus := file.firstCluster;
    ghost var i := 0;
    ChainNext(v.Fat(), s, 0);
    while !IsEof(clus)
      invariant 0 <= i <= |s| && (i > 0 ==> last == s[i - 1])
      invariant if i < |s| then clus == s[i] && !IsEof(clus) else IsEof(clus)
      decreases |s| - i
    {
      ChainNext(v.Fat(), s, i);
      last := clus;
      clus := v.FatRead(clus);
      i := i + 1;
      if i < |s| {
        ChainNext(v.Fat(), s, i);
      }
    }
    assert s[|s| - 1] != 0;
  }

  // ----- Writing

  /** Every other file holds what it held. */
  ghost predicate OthersKept(data: seq<seq<Byte>>, d: seq<seq<Byte>>, chains: seq<seq<int>>, k: nat) {
    forall j {:trigger chains[j]} | 0 <= j < |chains| && j != k :: Content(d, chains[j]) == Content(data, chains[j])
  }

  lemma GrownChain(fat: seq<int>, f: seq<int>, chains: seq<seq<int>>, k: nat, more: seq<int>)
    requires Grown(fat, f, chains, k, more)
    ensures Chain(f, chains[k] + more) && |f| == |fat|
  {
    assert chains[k := chains[k] + more][k] == chains[k] + more;
  }

  /** A growing file holds what it held, and zeros. */
  lemma GrownContent(fat: seq<int>, f: seq<int>, chains: seq<seq<int>>, k: nat, more: seq<int>, data: seq<seq<Byte>>,
      d: seq<seq<Byte>>, w: nat)
    requires Chains(fat, chains) && Grown(fat, f, chains, k, more) && Cleared(data, d, more, w) && |d| == |fat|
    ensures Content(d, chains[k] + more) == Content(data, chains[k]) + Zeros(Times(|more|, w))
  {
    hide Content;
    var s := chains[k];
    GrownChain(fat, f, chains, k, more);
    forall i | 0 <= i < |s| ensures ROOT <= s[i] < |d| && s[i] !in more {
      assert Chain(fat, s) && s[i] in s;
      NotAdded(fat, s, more, s[i]);
    }
    ContentSame(data, d, s);
    forall i | 0 <= i < |more| ensures ROOT <= more[i] < |d| && d[more[i]] == Zeros(w) {
      assert more[i] in Elements(more);
    }
    ContentZeros(d, more, w);
    ContentMore(d, s, more);
  }

  lemma NotAdded(fat: seq<int>, s: seq<int>, more: seq<int>, c: int)
    requires Chain(fat, s) && Elements(more) <= Free(fat) && c in s
    ensures c !in more
  {
    if c in more {
      assert c in Elements(more);
      FreeOutside(fat, s, c);
    }
  }

  /** Neither new clusters nor a write to cluster `c` of the file touch another file. */
  lemma OthersSame(fat: seq<int>, f: seq<int>, chains: seq<seq<int>>, k: nat, more: seq<int>, data: seq<seq<Byte>>,
      d: seq<seq<Byte>>, w: nat, c: int, e: seq<seq<Byte>>)
    requires Chains(fat, chains) && Grown(fat, f, chains, k, more) && Cleared(data, d, more, w) && |d| == |fat|
    requires c in chains[k] + more && |e| == |d| && forall x | 0 <= x < |d| && x != c :: e[x] == d[x]
    ensures OthersKept(data, e, chains, k)
  {
    hide Content;
    var now := chains[k := chains[k] + more];
    forall j | 0 <= j < |chains| && j != k ensures Content(e, chains[j]) == Content(data, chains[j]) {
      var t := chains[j];
      assert now[j] == t && Disjoint(now[k], now[j]);
      forall i | 0 <= i < |t| ensures e[t[i]] == data[t[i]] && ROOT <= t[i] < |d| {
        assert Chain(fat, t) && t[i] in t;
        NotAdded(fat, t, more, t[i]);
      }
      ContentSame(data, e, t);
    }
  }

  /** One cluster of the file written. */
  lemma WrittenContent(fat: seq<int>, s: seq<int>, d: seq<seq<Byte>>, w: nat, off: nat, t: seq<Byte>)
    requires w > 0 && Chain(fat, s) && |fat| <= 0x0fff_fff8 && Held(d, s, w) && Index(off, w) < |s|
             && Place(off, w) + |t| <= w
    ensures off + |t| <= |Content(d, s)|
    ensures var c := s[Index(off, w)]; Content(d[c := Over(d[c], Place(off, w), t)], s) == Over(Content(d, s), off, t)
  {
    hide Content;
    hide Index;
    hide Place;
    hide Over;
    var q := Index(off, w);
    forall j | 0 <= j < |s| && j != q ensures s[j] != s[q] {
      ChainAcyclic(fat, s, if j < q then j else q, if j < q then q else j);
    }
    ContentOver(d, s, w, q, Place(off, w), t);
    Divided(off, w);
    TimesIs(q, w);
  }

  lemma OneCluster(n: nat, w: nat)
    requires w > 0 && n <= w
    ensures InClusters(n, w) <= 1
  {
    hide Times;
    hide InClusters;
    InClustersIs(n, w);
    PlusOne(1, w);
    PlusOne(0, w);
    if InClusters(n, w) >= 2 {
      TimesOrder(2, InClusters(n, w), w);
    }
  }

  ghost function Extra(size: nat, off: nat, n: nat, w: nat, free: nat): int
    requires w > 0
  {
    if off + n <= size then 0 else Min(InClusters(off + n - size, w), free)
  }

  /** filewrite of no more than a cluster: the bytes that fit in the cluster of `off` are stored, nothing else of
      this file changes but that it may get longer, and nothing of any other file. Its size grows even if there
      was no cluster left for the bytes. */
  method FileWrite(v: Volume, file: File, off: nat, src: seq<Byte>, ghost chains: seq<seq<int>>, ghost k: nat)
      returns (r: int, ghost more: seq<int>)
    requires v.Valid() && Chains(v.Fat(), chains) && k < |chains| && chains[k] != []
             && chains[k][0] == file.firstCluster
    requires off + |src| < WRAP && |src| <= ClusterSize(v) + 1
    modifies v`disk, file`size
    ensures v.Valid()
    ensures src == [] ==> r == 0
    ensures src != [] && off > old(file.size) ==> r == -E_EXCEED_FILE
    ensures src == [] || off > old(file.size) ==> v.disk == old(v.disk) && file.size == old(file.size) && more == []
    ensures src != [] && off <= old(file.size) ==> file.size == Max(old(file.size), off + |src|)
    ensures src != [] && off <= old(file.size) ==>
              |more| == Extra(old(file.size), off, |src|, ClusterSize(v), |Free(old(v.Fat()))|)
    ensures Grown(old(v.Fat()), v.Fat(), chains, k, more) && OthersKept(old(v.Data()), v.Data(), chains, k)
    ensures var was := Content(old(v.Data()), chains[k]) + Zeros(Times(|more|, ClusterSize(v)));
      if src == [] || off > old(file.size) then true
      else if off >= |was| then r == -1 && Content(v.Data(), chains[k] + more) == was
      else r == Min(|src|, ClusterSize(v) - Place(off, ClusterSize(v))) && 1 <= r && off + r <= |was|
           && Content(v.Data(), chains[k] + more) == Over(was, off, src[..r])
  {
    hide Chains;
    hide Grown;
    hide Cleared;
    hide Free;
    hide OthersKept;
    hide Content;
    hide ClusterBytes;
    hide InClusters;
    hide Index;
    hide Place;
    hide Times;
    hide Over;
    hide Volume.Valid;
    hide Volume.Fat;
    hide Volume.Data;
    hide IsEof;
    more := [];
    var n := |src|;
    ghost var w, fat, data := ClusterSize(v), v.Fat(), v.Data();
    NoneYet(fat, chains, k);
    NoneCleared(data, w);
    SameOthers(data, chains, k);
    if n == 0 {
      return 0, more;
    }
    if off > file.size {
      return -E_EXCEED_FILE, more;
    } else if off + n > file.size {
      more := FileExtend(v, file, off + n, chains, k);
    }
    FatSize(v);
    ghost var f, d, s := v.Fat(), v.Data(), chains[k] + more;
    GrownChain(fat, f, chains, k, more);
    GrownContent(fat, f, chains, k, more, data, d, w);
    InChain(v, s, off);
    var size := ClusterBytes(v.g);
    // further clusters would be written from index 1 on
    assert InClusters(n - 1, size) <= 1 by {
      OneCluster(n - 1, w);
    }
    var offset := Place(off, size);
    var clus := FileGetClusNo(v, file, Index(off, size), s);
    OthersSame(fat, f, chains, k, more, data, d, w, s[0], d);
    if IsEof(clus) {
      return -1, more;
    }
    r := Min(n, size - offset);
    var _ := v.ClusWrite(clus, offset, src[..r]);
    ChainHeldAt(f, s, d, w);
    WrittenContent(f, s, d, w, off, src[..r]);
    OthersSame(fat, f, chains, k, more, data, d, w, clus, v.Data());
  }

  function Max(a: int, b: int): int {
    if a < b then b else a
  }

  lemma SameOthers(data: seq<seq<Byte>>, chains: seq<seq<int>>, k: nat)
    ensures OthersKept(data, data, chains, k)
  {}

  lemma ChainHeldAt(f: seq<int>, s: seq<int>, d: seq<seq<Byte>>, w: nat)
    requires Chain(f, s) && |d| == |f| && forall c | ROOT <= c < |d| :: |d[c]| == w
    ensures Held(d, s, w)
  {}

  /** Byte `off` of the file, or the first after its end, has a place already. */
  ghost predicate Room(v: Volume, file: File, off: nat, s: seq<int>)
    requires v.Valid()
    reads v, file
  {
    off <= file.size && off < |Content(v.Data(), s)|
  }

  /** The bytes that fit in the cluster of `off`. */
  function FirstBytes(off: nat, n: nat, w: nat): int
    requires w > 0
  {
    Min(n, w - Place(off, w))
  }

  /** filewrite, and fileread of what it has written: the same bytes, in one read. */
  method WriteThenRead(v: Volume, file: File, off: nat, src: seq<Byte>, ghost chains: seq<seq<int>>, ghost k: nat)
    returns (r: int, back: seq<Byte>)
    requires v.Valid() && Chains(v.Fat(), chains) && k < |chains| && chains[k] != []
             && chains[k][0] == file.firstCluster
    requires off + |src| < WRAP && |src| <= ClusterSize(v) + 1
    modifies v`disk, file`size
    ensures v.Valid()
    ensures r > 0 ==> r <= |src| && back == src[..r]
    ensures old(Room(v, file, off, chains[k])) && src != [] ==> r == FirstBytes(off, |src|, ClusterSize(v)) && r > 0
  {
    hide Chains;
    hide Grown;
    hide OthersKept;
    hide Content;
    hide Place;
    hide Times;
    hide Over;
    hide ReadLength;
    hide Volume.Valid;
    hide Volume.Fat;
    hide Volume.Data;
    ghost var more, data, fat := [], v.Data(), v.Fat();
    r, more := FileWrite(v, file, off, src, chains, k);
    if r <= 0 {
      return r, [];
    }
    ghost var s, w := chains[k] + more, ClusterSize(v);
    ghost var was := Content(data, chains[k]) + Zeros(Times(|more|, w));
    GrownChain(fat, v.Fat(), chains, k, more);
    WrittenReads(was, off, src[..r], w);
    var n, ok;
    n, back, ok := FileRead(v, file, off, r, s);
  }

  /** The bytes in the file, and the length of the read. */
  lemma WrittenReads(was: seq<Byte>, off: nat, t: seq<Byte>, w: nat)
    requires w > 0 && t != [] && |t| <= w - Place(off, w) && off + |t| <= |was|
    ensures ReadLength(off, |t|, w) == |t| && Over(was, off, t)[off..off + |t|] == t
  {
    OverRead(was, off, t);
    ShortPlace(|t| - 1, w);
    ReadLengthIs(off, |t|, w);
  }

  /** On a full disk, filewrite to beyond the end of a file's chain leaves a file that fileread cannot read: it
      comes to an end mark in place of a cluster. */
  method WriteWhenFull(v: Volume, file: File, off: nat, src: seq<Byte>, ghost chains: seq<seq<int>>, ghost k: nat)
      returns (r: int, ok: bool)
    requires v.Valid() && Chains(v.Fat(), chains) && k < |chains| && chains[k] != []
             && chains[k][0] == file.firstCluster
    requires off + |src| < WRAP && |src| <= ClusterSize(v) + 1
    requires Free(v.Fat()) == {} && off <= file.size <= |Content(v.Data(), chains[k])| < off + |src|
    modifies v`disk, file`size
    ensures file.size == off + |src| && !ok
  {
    hide Chains;
    hide Grown;
    hide OthersKept;
    hide Content;
    hide Place;
    hide Index;
    hide Times;
    hide Over;
    hide ReadLength;
    hide InClusters;
    hide Volume.Valid;
    hide Volume.Fat;
    hide Volume.Data;
    ghost var more, data, fat := [], v.Data(), v.Fat();
    SomeContent(v, chains, k);
    r, more := FileWrite(v, file, off, src, chains, k);
    assert more == [] && chains[k] + more == chains[k];
    GrownChain(fat, v.Fat(), chains, k, more);
    PlusOne(0, ClusterSize(v));
    var n := off + |src|;
    FromStart(n, ClusterSize(v));
    var _, _, read := FileRead(v, file, 0, n, chains[k]);
    ok := read;
  }

  lemma SomeContent(v: Volume, chains: seq<seq<int>>, k: nat)
    requires v.Valid() && Chains(v.Fat(), chains) && k < |chains|
    ensures |Content(v.Data(), chains[k])| > 0
  {
    hide Content;
    assert Chain(v.Fat(), chains[k]);
    ChainHeld(v, chains[k]);
    TimesLess(0, |chains[k]|, ClusterSize(v));
    PlusOne(0, ClusterSize(v));
  }

  /** From the beginning of a file fileread takes all it is asked for. */
  lemma FromStart(n: nat, w: nat)
    requires w > 0 && n > 0
    ensures ReadLength(0, n, w) == n
  {
    ReadLengthIs(0, n, w);
  }

  lemma ShortPlace(a: nat, w: nat)
    requires a < w
    ensures a % w == a
  {}
}
