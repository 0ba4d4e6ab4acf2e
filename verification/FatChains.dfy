/** Cluster chains in the FAT (kernel/fs/fat32.c, kernel/fs/fs.c): each file's clusters are a chain that ends in an
    end mark, and the chains share no cluster. */
module FatChains {
  import opened Wrappers
  import opened Pieces
  import opened Fat32Disk

  // ----- Chains

  ghost predicate Chain(fat: seq<int>, s: seq<int>) {
    && s != []
    && (forall i {:trigger s[i]} | 0 <= i < |s| :: ROOT <= s[i] < |fat|)
    && (forall i, k {:trigger s[i], s[k]} | 0 <= i < |s| && k == i + 1 < |s| :: fat[s[i]] == s[k])
    && IsEof(fat[s[|s| - 1]])
  }

  /** A chain has no cycle: no cluster occurs in it twice. */
  lemma {:induction false} ChainAcyclic(fat: seq<int>, s: seq<int>, i: nat, j: nat)
    requires Chain(fat, s) && |fat| <= 0x0fff_fff8 && i < j < |s|
    ensures s[i] != s[j]
    decreases |s| - j
  {
    ChainNext(fat, s, i);
    ChainNext(fat, s, j);
    if j + 1 < |s| {
      ChainAcyclic(fat, s, i + 1, j + 1);
    }
  }

  /** So a chain is no longer than the FAT. */
  lemma ChainFits(fat: seq<int>, s: seq<int>)
    requires Chain(fat, s) && |fat| <= 0x0fff_fff8
    ensures |s| <= |fat|
  {
    forall i, j | 0 <= i < j < |s| ensures s[i] != s[j] {
      ChainAcyclic(fat, s, i, j);
    }
    Fits(s, |fat|);
  }

  lemma {:induction false} Fits(s: seq<int>, n: nat)
    requires forall i | 0 <= i < |s| :: 0 <= s[i] < n
    requires forall i, j | 0 <= i < j < |s| :: s[i] != s[j]
    ensures |s| <= n
  {
    if s != [] {
      assert 0 <= s[0] < n;
      if i :| 0 <= i < |s| && s[i] == n - 1 {
        var t := s[..i] + s[i + 1..];
        assert forall k | 0 <= k < |t| :: t[k] == if k < i then s[k] else s[k + 1];
        Fits(t, n - 1);
      } else {
        Fits(s, n - 1);
      }
    }
  }

  /** Where a chain begins decides what it is. */
  lemma {:induction false} ChainUnique(fat: seq<int>, s: seq<int>, t: seq<int>)
    requires Chain(fat, s) && Chain(fat, t) && |fat| <= 0x0fff_fff8 && s[0] == t[0]
    ensures s == t
  {
    ChainNext(fat, s, 0);
    ChainNext(fat, t, 0);
    if |s| > 1 {
      ChainTail(fat, s);
      ChainTail(fat, t);
      ChainUnique(fat, s[1..], t[1..]);
      assert s == [s[0]] + s[1..] && t == [t[0]] + t[1..];
    }
  }

  /** The entry of a cluster of a chain: its last one has an end mark, and no other. */
  lemma ChainNext(fat: seq<int>, s: seq<int>, i: nat)
    requires Chain(fat, s) && |fat| <= 0x0fff_fff8 && i < |s|
    ensures ROOT <= s[i] < |fat| && !IsEof(s[i])
    ensures IsEof(fat[s[i]]) <==> i == |s| - 1
    ensures i < |s| - 1 ==> fat[s[i]] == s[i + 1]
  {
    if i + 1 < |s| {
      assert fat[s[i]] == s[i + 1];
    }
  }

  lemma ChainTail(fat: seq<int>, s: seq<int>)
    requires Chain(fat, s) && |s| > 1
    ensures Chain(fat, s[1..])
  {
    var t := s[1..];
    forall i | 0 <= i < |t| - 1 ensures fat[t[i]] == t[i + 1] {
      assert fat[s[i + 1]] == s[i + 2];
    }
  }

  /** Chains that share no cluster. */
  ghost predicate Chains(fat: seq<int>, chains: seq<seq<int>>) {
    && (forall j {:trigger chains[j]} | 0 <= j < |chains| :: Chain(fat, chains[j]))
    && (forall j, k {:trigger chains[j], chains[k]} | 0 <= j < |chains| && 0 <= k < |chains| && j != k ::
          Disjoint(chains[j], chains[k]))
  }

  ghost predicate Disjoint(s: seq<int>, t: seq<int>) {
    forall c | c in s :: c !in t
  }

  ghost function Free(fat: seq<int>): set<int> {
    set c | ROOT <= c < |fat| && fat[c] == 0
  }

  // ----- Linking a free cluster

  /** What clusalloc makes of the FAT. */
  ghost function Linked(fat: seq<int>, prev: int, r: int): (f: seq<int>)
    requires ROOT <= r < |fat| && prev < |fat|
    ensures |f| == |fat|
  {
    (if prev >= ROOT then fat[prev := r] else fat)[r := EOF]
  }

  lemma LinkedTail(fat: seq<int>, s: seq<int>, r: int)
    requires Chain(fat, s) && |fat| <= 0x0fff_fff8 && ROOT <= r < |fat| && fat[r] == 0
    ensures s[|s| - 1] < |fat| && Chain(Linked(fat, s[|s| - 1], r), s + [r])
  {
    var f, t := Linked(fat, s[|s| - 1], r), s + [r];
    forall i | 0 <= i < |t| - 1 ensures f[t[i]] == t[i + 1] {
      assert s[i] == t[i];
      if i + 1 < |s| {
        ChainAcyclic(fat, s, i, |s| - 1);
        assert fat[s[i]] == s[i + 1];
      }
    }
  }

  /** A chain of which neither the linked cluster nor its predecessor is a part. */
  lemma LinkedOther(fat: seq<int>, s: seq<int>, prev: int, r: int)
    requires Chain(fat, s) && ROOT <= r < |fat| && prev < |fat| && r !in s && prev !in s
    ensures Chain(Linked(fat, prev, r), s)
  {
    var f := Linked(fat, prev, r);
    forall i | 0 <= i < |s| ensures f[s[i]] == fat[s[i]] {
      assert s[i] in s;
    }
  }

  lemma FreeOutside(fat: seq<int>, s: seq<int>, r: int)
    requires Chain(fat, s) && ROOT <= r < |fat| && fat[r] == 0
    ensures r !in s
  {
    forall i | 0 <= i < |s| ensures s[i] != r {
      if i + 1 < |s| {
        assert fat[s[i]] == s[i + 1];
      }
    }
  }

  /** Linking a free cluster to the tail of chain `k` lengthens that chain by it and leaves all others; one
      cluster fewer is free. */
  lemma LinkedChains(fat: seq<int>, chains: seq<seq<int>>, k: nat, r: int)
    requires Chains(fat, chains) && |fat| <= 0x0fff_fff8 && k < |chains| && r in Free(fat)
    ensures var prev := chains[k][|chains[k]| - 1];
            prev < |fat| && Chains(Linked(fat, prev, r), chains[k := chains[k] + [r]])
    ensures Free(Linked(fat, chains[k][|chains[k]| - 1], r)) == Free(fat) - {r}
  {
    var s := chains[k];
    var prev := s[|s| - 1];
    var f, t := Linked(fat, prev, r), chains[k := s + [r]];
    LinkedTail(fat, s, r);
    forall j | 0 <= j < |t| ensures Chain(f, t[j]) && (j != k ==> Disjoint(t[j], s + [r])) {
      if j != k {
        FreeOutside(fat, chains[j], r);
        assert Disjoint(chains[k], chains[j]) && Disjoint(chains[j], chains[k]) && prev in chains[k];
        LinkedOther(fat, chains[j], prev, r);
      }
    }
    forall i, j | 0 <= i < |t| && 0 <= j < |t| && i != j ensures Disjoint(t[i], t[j]) {
      if i != k && j != k {
        assert Disjoint(chains[i], chains[j]);
      } else if j == k {
        assert Disjoint(t[i], s + [r]);
      } else {
        assert Disjoint(t[j], s + [r]);
      }
    }
  }

  /** A free cluster linked to nothing is a new chain. */
  lemma LinkedNew(fat: seq<int>, chains: seq<seq<int>>, r: int)
    requires Chains(fat, chains) && r in Free(fat)
    ensures Chains(Linked(fat, 0, r), chains + [[r]]) && Free(Linked(fat, 0, r)) == Free(fat) - {r}
  {
    var f, t := Linked(fat, 0, r), chains + [[r]];
    forall j | 0 <= j < |chains| ensures Chain(f, chains[j]) && r !in chains[j] {
      FreeOutside(fat, chains[j], r);
      forall i | 0 <= i < |chains[j]| ensures chains[j][i] != 0 {}
      LinkedOther(fat, chains[j], 0, r);
    }
    assert Chain(f, [r]);
    forall i, j | 0 <= i < |t| && 0 <= j < |t| && i != j ensures Disjoint(t[i], t[j]) {
      if i < |chains| && j < |chains| {
        assert Disjoint(chains[i], chains[j]);
      }
    }
  }

  // ----- Files as sequences of bytes

  ghost function Picked(data: seq<seq<Byte>>, s: seq<int>): (r: seq<seq<Byte>>)
    ensures |r| == |s|
  {
    seq(|s|, i requires 0 <= i < |s| => if 0 <= s[i] < |data| then data[s[i]] else [])
  }

  /** What the clusters of a chain hold, one after another. */
  ghost function Content(data: seq<seq<Byte>>, s: seq<int>): seq<Byte> {
    Flat(Picked(data, s))
  }

  ghost predicate Held(data: seq<seq<Byte>>, s: seq<int>, w: nat) {
    forall i {:trigger s[i]} | 0 <= i < |s| :: 0 <= s[i] < |data| && |data[s[i]]| == w
  }

  lemma ContentLength(data: seq<seq<Byte>>, s: seq<int>, w: nat)
    requires Held(data, s, w)
    ensures |Content(data, s)| == |s| * w && AllOf(Picked(data, s), w)
  {
    FlatLength(Picked(data, s), w);
  }

  lemma ContentWithin(data: seq<seq<Byte>>, s: seq<int>, w: nat, i: nat, lo: nat, hi: nat)
    requires Held(data, s, w) && i < |s| && lo <= hi <= w
    ensures 0 <= i * w && i * w + w <= |Content(data, s)|
            && Content(data, s)[i * w + lo..i * w + hi] == data[s[i]][lo..hi]
  {
    ContentLength(data, s, w);
    FlatWithin(Picked(data, s), i, w, lo, hi);
  }

  /** Writing within one cluster of a chain writes within the file. */
  lemma ContentOver(data: seq<seq<Byte>>, s: seq<int>, w: nat, i: nat, lo: nat, t: seq<Byte>)
    requires Held(data, s, w) && i < |s| && lo + |t| <= w && forall j | 0 <= j < |s| && j != i :: s[j] != s[i]
    ensures 0 <= i * w && i * w + w <= |Content(data, s)|
    ensures Content(data[s[i] := Over(data[s[i]], lo, t)], s) == Over(Content(data, s), i * w + lo, t)
  {
    ContentLength(data, s, w);
    FlatOver(Picked(data, s), i, w, lo, t);
    var d := data[s[i] := Over(data[s[i]], lo, t)];
    assert Picked(d, s) == Picked(data, s)[i := Over(data[s[i]], lo, t)];
  }

  /** Other files hold what they held. */
  lemma ContentSame(data: seq<seq<Byte>>, d: seq<seq<Byte>>, s: seq<int>)
    requires |d| == |data| && forall i | 0 <= i < |s| :: 0 <= s[i] < |data| ==> d[s[i]] == data[s[i]]
    ensures Content(d, s) == Content(data, s)
  {
    assert Picked(d, s) == Picked(data, s);
  }

  lemma {:induction false} ContentZeros(data: seq<seq<Byte>>, s: seq<int>, w: nat)
    requires forall i {:trigger s[i]} | 0 <= i < |s| :: 0 <= s[i] < |data| && data[s[i]] == Zeros(w)
    ensures Content(data, s) == Zeros(|s| * w)
  {
    if s != [] {
      var t := s[1..];
      ContentZeros(data, t, w);
      assert Picked(data, s)[1..] == Picked(data, t);
      OneMore(|t|, w);
      assert Content(data, s) == Zeros(w) + Zeros(|t| * w);
    }
  }

  lemma ContentMore(data: seq<seq<Byte>>, s: seq<int>, t: seq<int>)
    ensures Content(data, s + t) == Content(data, s) + Content(data, t)
  {
    assert Picked(data, s + t) == Picked(data, s) + Picked(data, t);
    FlatSplit(Picked(data, s), Picked(data, t));
  }
}
