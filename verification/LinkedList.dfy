/** The kernel's intrusive doubly linked list (kernel/list.c). A list is a chain of elements
    that starts with a head sentinel and ends with a tail sentinel; the methods rewire the
    elements in place, and their contracts say what becomes of the chain. */
module LinkedList {
  import opened OrderedSeqs

  class Elem {
    var prev: Elem?
    var next: Elem?

    constructor ()
      ensures prev == null && next == null
    {
      prev, next := null, null;
    }

    predicate IsInterior()
      reads this
    {
      prev != null && next != null
    }

    predicate IsTail()
      reads this
    {
      prev != null && next == null
    }
  }

  ghost predicate Distinct(w: seq<Elem>) {
    forall i, j | 0 <= i < j < |w| :: w[i] != w[j]
  }

  /** `b` follows `a` in a list, or `a` ends a list and `b` starts one. */
  ghost predicate Step(a: Elem, b: Elem)
    reads a, b
  {
    (a.next == b && b.prev == a) || (a.next == null && b.prev == null)
  }

  ghost predicate Joined(s: seq<Elem>)
    reads s
  {
    forall i | 0 <= i < |s| - 1 :: Step(s[i], s[i + 1])
  }

  /** `w` is one or more whole lists, one after the other, sentinels included. */
  ghost predicate Lists(w: seq<Elem>)
    reads w
  {
    w != [] && Distinct(w) && Joined(w) && w[0].prev == null && w[|w| - 1].next == null
  }

  /** Where element `n` of the list comes from when `i..j` and `j..k` change places. */
  ghost function Origin(i: nat, j: nat, k: nat, n: nat): nat
    requires i <= j <= k
  {
    if n < i || k <= n then n else if n < i + (k - j) then n - i + j else n - (k - j)
  }

  ghost function Swapped(w: seq<Elem>, i: nat, j: nat, k: nat): (r: seq<Elem>)
    requires i <= j <= k <= |w|
    ensures |r| == |w| && forall n | 0 <= n < |w| :: r[n] == w[Origin(i, j, k, n)]
  {
    w[..i] + w[j..k] + w[i..j] + w[k..]
  }

  lemma SwappedDistinct(w: seq<Elem>, i: nat, j: nat, k: nat)
    requires Distinct(w) && i <= j <= k <= |w|
    ensures Distinct(Swapped(w, i, j, k))
  {
    forall m, n | 0 <= m < n < |w| ensures Swapped(w, i, j, k)[m] != Swapped(w, i, j, k)[n] {
      assert Origin(i, j, k, m) != Origin(i, j, k, n);
    }
  }

  /** The links that a splice sets, and no others. */
  twostate predicate Rewired(w: seq<Elem>, new i: nat, new j: nat, new k: nat)
    requires 0 < i < j < k < |w|
    reads w
  {
    && w[i - 1].next == w[j] && w[j].prev == w[i - 1]
    && w[k - 1].next == w[i] && w[i].prev == w[k - 1]
    && w[j - 1].next == w[k] && w[k].prev == w[j - 1]
    && (forall e | e in w && e != w[i - 1] && e != w[j - 1] && e != w[k - 1] :: e.next == old(e.next))
    && (forall e | e in w && e != w[i] && e != w[j] && e != w[k] :: e.prev == old(e.prev))
  }

  twostate lemma RewiredJoined(w: seq<Elem>, new i: nat, new j: nat, new k: nat)
    requires 0 < i < j < k < |w| && Rewired(w, i, j, k) && old(Lists(w))
    ensures Joined(Swapped(w, i, j, k)) && w[0].prev == null && w[|w| - 1].next == null
  {
    var r := Swapped(w, i, j, k);
    forall n | 0 <= n < |w| - 1 ensures Step(r[n], r[n + 1]) {
      var o := Origin(i, j, k, n);
      assert r[n] == w[o] && r[n + 1] == w[Origin(i, j, k, n + 1)];
      if o + 1 != i && o + 1 != j && o + 1 != k {
        assert Origin(i, j, k, n + 1) == o + 1;
        assert old(Step(w[o], w[o + 1]));
      }
    }
  }

  /** Whether an element is a head, a tail or in between has not changed. */
  twostate predicate SameKinds(w: seq<Elem>)
    reads w
  {
    && (forall e | e in w :: e.prev == null <==> old(e.prev == null))
    && (forall e | e in w :: e.next == null <==> old(e.next == null))
  }

  /** `w` is a single list: head, elements, tail. */
  ghost predicate Chain(w: seq<Elem>)
    reads w
  {
    Lists(w) && |w| >= 2 && forall i | 0 < i < |w| :: w[i].prev != null
  }

  twostate lemma ChainKept(w: seq<Elem>, new r: seq<Elem>)
    requires old(Chain(w)) && Lists(r) && SameKinds(w) && |r| == |w|
    requires forall n | 0 < n < |r| :: r[n] in w[1..]
    ensures Chain(r)
  {
    forall n | 0 < n < |r| ensures r[n].prev != null {
      assert r[n] in w[1..];
      var m :| 0 < m < |w| && r[n] == w[m];
      assert w[m] in w;
    }
  }

  twostate lemma RewiredLists(w: seq<Elem>, new i: nat, new j: nat, new k: nat)
    requires 0 < i < j < k < |w| && Rewired(w, i, j, k) && old(Lists(w))
    requires old(w[i].prev) != null && old(w[j].prev) != null && old(w[k].prev) != null
    ensures Lists(Swapped(w, i, j, k)) && SameKinds(w)
  {
    RewiredJoined(w, i, j, k);
    SwappedDistinct(w, i, j, k);
    assert old(Step(w[i - 1], w[i]));
    assert old(Step(w[j - 1], w[j]));
    assert old(Step(w[k - 1], w[k]));
  }

  /** `w` with the elements `f..l` moved to just before what was element `b`. */
  ghost function Moved(w: seq<Elem>, b: nat, f: nat, l: nat): (r: seq<Elem>)
    requires f <= l <= |w| && b <= |w| && (b <= f || l <= b)
    ensures |r| == |w|
  {
    if b <= f then Swapped(w, b, f, l) else Swapped(w, f, l, b)
  }

  twostate lemma ListsFrame(w: seq<Elem>)
    requires old(Lists(w))
    requires forall e | e in w :: e.next == old(e.next) && e.prev == old(e.prev)
    ensures Lists(w) && SameKinds(w)
  {
    forall n | 0 <= n < |w| - 1 ensures Step(w[n], w[n + 1]) {
      assert old(Step(w[n], w[n + 1]));
    }
  }

  lemma MovedNowhere(w: seq<Elem>, b: nat, f: nat, l: nat)
    requires f <= l <= |w| && (b == f || b == l || f == l) && b <= |w| && (b <= f || l <= b)
    ensures Moved(w, b, f, l) == w
  {}

  lemma MovedAfterFirst(w: seq<Elem>, b: nat, f: nat, l: nat)
    requires 0 < f <= l < |w| && 0 < b < |w| && (b <= f || l <= b)
    ensures forall n | 0 < n < |w| :: Moved(w, b, f, l)[n] in w[1..]
  {
    var i, j, k := if b <= f then b else f, if b <= f then f else l, if b <= f then l else b;
    forall n | 0 < n < |w| ensures Moved(w, b, f, l)[n] in w[1..] {
      assert Moved(w, b, f, l)[n] == w[1..][Origin(i, j, k, n) - 1];
    }
  }

  /** The links around a range `f..l` that moves to before element `b`. */
  lemma SpliceLinks(w: seq<Elem>, b: nat, f: nat, l: nat)
    requires Lists(w) && 0 < f <= l < |w| && 0 < b < |w| && (b < f || l <= b || f == l)
    requires w[b].prev != null && forall i | f <= i <= l :: w[i].prev != null
    ensures w[f] == w[l] <==> f == l
    ensures w[b].prev == w[b - 1] && w[f].prev == w[f - 1] && w[l].prev == w[l - 1]
    ensures w[f - 1].next == w[f] && w[l - 1].next == w[l] && w[b - 1].next == w[b]
    ensures f < l ==> w[f].next != null
    ensures f < l && b != l ==> w[b] != w[l] && w[b - 1] != w[l - 1]
    ensures f < l ==> w[b] != w[f] && w[b - 1] != w[f - 1] && w[f - 1] != w[l - 1]
  {
    assert Step(w[f - 1], w[f]);
    assert Step(w[l - 1], w[l]);
    assert Step(w[b - 1], w[b]);
    if f < l {
      assert Step(w[f], w[f + 1]);
    }
  }

  twostate lemma MovedLists(w: seq<Elem>, new b: nat, new f: nat, new l: nat)
    requires old(Lists(w)) && 0 < f < l < |w| && 0 < b < |w| && (b < f || l < b)
    requires old(w[f].prev) != null && old(w[l].prev) != null && old(w[b].prev) != null
    requires if b < f then Rewired(w, b, f, l) else Rewired(w, f, l, b)
    ensures Lists(Moved(w, b, f, l)) && SameKinds(w)
    ensures old(Chain(w)) ==> Chain(Moved(w, b, f, l))
  {
    if b < f {
      RewiredLists(w, b, f, l);
    } else {
      RewiredLists(w, f, l, b);
    }
    if old(Chain(w)) {
      MovedAfterFirst(w, b, f, l);
      ChainKept(w, Moved(w, b, f, l));
    }
  }

  twostate lemma UnmovedLists(w: seq<Elem>, new b: nat, new f: nat, new l: nat)
    requires old(Lists(w)) && f <= l <= |w| && b <= |w| && (b == l || f == l)
    requires forall e | e in w :: e.next == old(e.next) && e.prev == old(e.prev)
    ensures Lists(Moved(w, b, f, l)) && SameKinds(w)
    ensures old(Chain(w)) ==> Chain(Moved(w, b, f, l))
  {
    ListsFrame(w);
    MovedNowhere(w, b, f, l);
  }

  /** list_splice. The elements `f..l` move to before element `b`, of the same list or of another,
      but not one of their own. */
  method ListSplice(ghost w: seq<Elem>, ghost b: nat, ghost f: nat, ghost l: nat,
                    before: Elem, first: Elem, last: Elem)
    requires Lists(w)
    requires 0 < f <= l < |w| && 0 < b < |w| && (b < f || l <= b || f == l)
    requires before == w[b] && first == w[f] && last == w[l]
    requires before.prev != null && forall i | f <= i <= l :: w[i].prev != null
    modifies w
    ensures Lists(Moved(w, b, f, l)) && SameKinds(w)
    ensures old(Chain(w)) ==> Chain(Moved(w, b, f, l))
  {
    hide Lists;
    hide Chain;
    hide Moved;
    hide SameKinds;
    SpliceLinks(w, b, f, l);
    assert before.IsInterior() || before.IsTail();
    if first == last {
      UnmovedLists(w, b, f, l);
      return;
    }
    var back := last.prev;
    assert first.IsInterior() && back.IsInterior();
    first.prev.next := back.next;
    back.next.prev := first.prev;
    first.prev := before.prev;
    back.next := before;
    before.prev.next := first;
    before.prev := back;
    if b == l {
      UnmovedLists(w, b, f, l);
    } else {
      MovedLists(w, b, f, l);
    }
  }

  lemma ChainLinks(w: seq<Elem>, i: nat)
    requires Chain(w) && i < |w|
    ensures w[i].prev == if i == 0 then null else w[i - 1]
    ensures w[i].next == if i == |w| - 1 then null else w[i + 1]
  {
    if i > 0 {
      assert Step(w[i - 1], w[i]);
    }
    if i < |w| - 1 {
      assert Step(w[i], w[i + 1]);
    }
  }

  lemma ChainAllows(w: seq<Elem>, b: nat, f: nat, l: nat)
    requires Chain(w) && 0 < b < |w| && 0 < f <= l < |w|
    ensures Lists(w) && w[b].prev != null && forall i | f <= i <= l :: w[i].prev != null
  {}

  lemma ChainDistinct(w: seq<Elem>, i: nat, j: nat)
    requires Chain(w) && i < |w| && j < |w|
    ensures w[i] == w[j] <==> i == j
  {}

  /** find_end_of_run: the exclusive end of the run that starts at element `i`. */
  method FindEndOfRun(ghost w: seq<Elem>, ghost i: nat, ghost j: nat, a: Elem, b: Elem, less: Less<Elem>)
    returns (end: Elem, ghost n: nat)
    requires Chain(w) && 0 < i < j < |w| && a == w[i] && b == w[j]
    ensures Chain(w) && n == RunLength(w[i..j], less) && end == w[i + n]
  {
    ChainLinks(w, i);
    end, n := a.next, 1;
    ghost var run := w[i..j];
    while end != b && !less(end, end.prev)
      invariant 1 <= n <= j - i && end == w[i + n]
      invariant Sorted(run[..n], less)
      invariant end != b ==> end.prev == w[i + n - 1]
      decreases j - i - n
    {
      ChainLinks(w, i + n);
      ChainLinks(w, i + n + 1);
      SortedSnoc(run[..n], end, less);
      assert run[..n + 1] == run[..n] + [end];
      end, n := end.next, n + 1;
    }
    ChainDistinct(w, i + n, j);
    RunLengthIs(run, less, n);
  }

  lemma SortedSnoc<T>(s: seq<T>, x: T, less: Less<T>)
    requires Sorted(s, less) && (s != [] ==> !less(x, s[|s| - 1]))
    ensures Sorted(s + [x], less)
  {}

  /** `v` is `w` on the way to having its ranges `i..j` and `j..k` merged: outside `i..k` nothing has
      changed, `i..p` is in place, and merging what is left of the two ranges gives the rest. */
  ghost predicate Merging(w: seq<Elem>, i: nat, j: nat, k: nat, less: Less<Elem>, v: seq<Elem>, p: nat, q: nat) {
    && i <= j <= k < |w| && |v| == |w| && i <= p <= q <= k
    && v[i..p] + Merge(v[p..q], v[q..k], less) == Merge(w[i..j], w[j..k], less)
    && (forall n | 0 <= n < i || k <= n < |w| :: v[n] == w[n])
    && SameMembers(v, w)
  }

  ghost predicate SameMembers(v: seq<Elem>, w: seq<Elem>) {
    && (forall n | 0 <= n < |v| :: v[n] in w)
    && (forall n | 0 <= n < |w| :: w[n] in v)
  }

  lemma MergeLeftEquation(a: seq<Elem>, b: seq<Elem>, done: seq<Elem>, less: Less<Elem>)
    requires a != [] && b != [] && !less(b[0], a[0])
    ensures (done + [a[0]]) + Merge(a[1..], b, less) == done + Merge(a, b, less)
  {}

  lemma MergeKeepsLeft(w: seq<Elem>, i: nat, j: nat, k: nat, less: Less<Elem>, v: seq<Elem>, p: nat, q: nat)
    requires Merging(w, i, j, k, less, v, p, q) && p < q < k && !less(v[q], v[p])
    ensures Merging(w, i, j, k, less, v, p + 1, q) && p + 1 < |w|
  {
    hide Merge;
    MergeLeftEquation(v[p..q], v[q..k], v[i..p], less);
    assert v[p..q][1..] == v[p + 1..q];
    assert v[i..p] + [v[p..q][0]] == v[i..p + 1];
  }

  /** Moving element `q` to place `p`, seen element by element. */
  lemma MovedOne(v: seq<Elem>, p: nat, q: nat) returns (r: seq<Elem>)
    requires p < q < |v|
    ensures r == Moved(v, p, q, q + 1) && |r| == |v| && r[p] == v[q]
    ensures forall n | 0 <= n < p || q < n < |v| :: r[n] == v[n]
    ensures forall n | p <= n < q :: r[n + 1] == v[n]
    ensures SameMembers(r, v)
  {
    r := v[..p] + [v[q]] + v[p..q] + v[q + 1..];
    MovedPieces(v, p, q, r);
    MovedMembers(v, p, q, r);
  }

  lemma MovedPieces(v: seq<Elem>, p: nat, q: nat, r: seq<Elem>)
    requires p < q < |v| && r == v[..p] + [v[q]] + v[p..q] + v[q + 1..]
    ensures r == Moved(v, p, q, q + 1)
  {
    assert v[q..q + 1] == [v[q]];
  }

  lemma MovedMembers(v: seq<Elem>, p: nat, q: nat, r: seq<Elem>)
    requires p < q < |v| && |r| == |v| && r[p] == v[q]
    requires forall n | 0 <= n < p || q < n < |v| :: r[n] == v[n]
    requires forall n | p <= n < q :: r[n + 1] == v[n]
    ensures SameMembers(r, v)
  {
    forall n | 0 <= n < |v| ensures v[n] in r {
      assert v[n] == r[if n < p || q < n then n else if n == q then p else n + 1];
    }
    forall n | 0 <= n < |v| ensures r[n] in v {
      assert r[n] == v[if n < p || q < n then n else if n == p then q else n - 1];
    }
  }

  lemma MergeRightEquation(a: seq<Elem>, b: seq<Elem>, done: seq<Elem>, less: Less<Elem>)
    requires a != [] && b != [] && less(b[0], a[0])
    ensures (done + [b[0]]) + Merge(a, b[1..], less) == done + Merge(a, b, less)
  {}

  lemma MergeMovesRight(w: seq<Elem>, i: nat, j: nat, k: nat, less: Less<Elem>, v: seq<Elem>, p: nat, q: nat)
    requires Merging(w, i, j, k, less, v, p, q) && p < q < k && less(v[q], v[p])
    ensures Merging(w, i, j, k, less, Moved(v, p, q, q + 1), p + 1, q + 1)
    ensures var r := Moved(v, p, q, q + 1);
      r[p + 1] == v[p] && r[q + 1] == v[q + 1] && r[k] == v[k] && forall n | 0 <= n < |r| :: r[n] in w
  {
    hide Merge;
    hide Moved;
    var r := MovedOne(v, p, q);
    MergeRightEquation(v[p..q], v[q..k], v[i..p], less);
    assert v[q..k][1..] == r[q + 1..k];
    assert v[p..q] == r[p + 1..q + 1];
    assert v[i..p] + [v[q..k][0]] == r[i..p + 1];
  }

  lemma MergeStart(w: seq<Elem>, i: nat, j: nat, k: nat, less: Less<Elem>)
    requires i <= j <= k < |w|
    ensures Merging(w, i, j, k, less, w, i, j)
  {}

  lemma MergeDone(w: seq<Elem>, i: nat, j: nat, k: nat, less: Less<Elem>, v: seq<Elem>, p: nat, q: nat)
    requires Merging(w, i, j, k, less, v, p, q) && (p == q || q == k)
    ensures v == w[..i] + Merge(w[i..j], w[j..k], less) + w[k..] && SameMembers(v, w)
  {
    assert v[i..p] + v[p..q] + v[q..k] == v[i..k];
    assert v[..i] == w[..i] && v[k..] == w[k..];
    assert v == v[..i] + v[i..k] + v[k..];
  }

  /** inplace_merge: the sorted ranges `i..j` and `j..k` become one sorted range, in place. */
  method InplaceMerge(ghost w: seq<Elem>, ghost i: nat, ghost j: nat, ghost k: nat,
                      first: Elem, middle: Elem, last: Elem, less: Less<Elem>)
    returns (ghost v: seq<Elem>)
    requires Chain(w) && 0 < i < j < k < |w| && first == w[i] && middle == w[j] && last == w[k]
    requires Sorted(w[i..j], less) && Sorted(w[j..k], less)
    modifies w
    ensures v == w[..i] + Merge(w[i..j], w[j..k], less) + w[k..]
    ensures Chain(v) && SameMembers(v, w)
  {
    hide Lists;
    hide Chain;
    hide Merge;
    hide Moved;
    hide Merging;
    hide SameMembers;
    MergeStart(w, i, j, k, less);
    v := w;
    var a0, a1b0 := first, middle;
    ghost var p, q := i, j;
    while a0 != a1b0 && a1b0 != last
      invariant |v| == |w| && i <= p <= q <= k
      invariant Merging(w, i, j, k, less, v, p, q) && forall n | 0 <= n < |v| :: v[n] in w
      invariant Chain(v) && v[p] == a0 && v[q] == a1b0 && v[k] == last
      decreases k - p
    {
      ChainDistinct(v, p, q);
      ChainDistinct(v, q, k);
      ChainLinks(v, p);
      ChainLinks(v, q);
      if !less(a1b0, a0) {
        a0 := a0.next;
        MergeKeepsLeft(w, i, j, k, less, v, p, q);
      } else {
        a1b0 := a1b0.next;
        ChainLinks(v, q + 1);
        ChainAllows(v, p, q, q + 1);
        ListSplice(v, p, q, q + 1, a0, a1b0.prev, a1b0);
        MergeMovesRight(w, i, j, k, less, v, p, q);
        v, q := Moved(v, p, q, q + 1), q + 1;
      }
      p := p + 1;
    }
    ChainDistinct(v, p, q);
    ChainDistinct(v, q, k);
    MergeDone(w, i, j, k, less, v, p, q);
  }

  // ----- Insertion and removal

  ghost function InsertedAt(w: seq<Elem>, b: nat, e: Elem): seq<Elem>
    requires b <= |w|
  {
    w[..b] + [e] + w[b..]
  }

  ghost function RemovedAt(w: seq<Elem>, k: nat): seq<Elem>
    requires k < |w|
  {
    w[..k] + w[k + 1..]
  }

  twostate lemma InsertedLists(w: seq<Elem>, new b: nat, new elem: Elem)
    requires old(Lists(w)) && 0 < b < |w| && old(w[b].prev) != null && elem !in w
    requires elem.prev == w[b - 1] && elem.next == w[b] && w[b - 1].next == elem && w[b].prev == elem
    requires forall e | e in w && e != w[b - 1] :: e.next == old(e.next)
    requires forall e | e in w && e != w[b] :: e.prev == old(e.prev)
    ensures Lists(InsertedAt(w, b, elem)) && SameKinds(w)
    ensures old(Chain(w)) ==> Chain(InsertedAt(w, b, elem))
  {
    var r := InsertedAt(w, b, elem);
    assert old(Step(w[b - 1], w[b]));
    forall n | 0 <= n < |r| - 1 ensures Step(r[n], r[n + 1]) {
      if n < b - 1 {
        assert old(Step(w[n], w[n + 1]));
      } else if n > b {
        assert old(Step(w[n - 1], w[n]));
      }
    }
  }

  /** list_insert: `elem` is linked in just before `before`. */
  method ListInsert(ghost w: seq<Elem>, ghost b: nat, before: Elem, elem: Elem)
    requires Lists(w) && 0 < b < |w| && before == w[b] && before.prev != null && elem !in w
    modifies w, elem
    ensures Lists(InsertedAt(w, b, elem)) && SameKinds(w)
    ensures old(Chain(w)) ==> Chain(InsertedAt(w, b, elem))
  {
    hide Lists;
    hide Chain;
    hide SameKinds;
    StepBefore(w, b);
    assert before.IsInterior() || before.IsTail();
    elem.prev := before.prev;
    elem.next := before;
    before.prev.next := elem;
    before.prev := elem;
    InsertedLists(w, b, elem);
  }

  lemma StepBefore(w: seq<Elem>, b: nat)
    requires Lists(w) && 0 < b < |w| && w[b].prev != null
    ensures w[b].prev == w[b - 1] && w[b - 1].next == w[b] && w[b] != w[b - 1]
  {
    assert Step(w[b - 1], w[b]);
  }

  twostate lemma RemovedLists(w: seq<Elem>, new k: nat)
    requires old(Lists(w)) && 0 < k < |w| - 1 && old(w[k].prev) != null && old(w[k].next) != null
    requires w[k - 1].next == w[k + 1] && w[k + 1].prev == w[k - 1]
    requires forall e | e in w && e != w[k - 1] :: e.next == old(e.next)
    requires forall e | e in w && e != w[k + 1] :: e.prev == old(e.prev)
    ensures Lists(RemovedAt(w, k)) && SameKinds(w)
    ensures old(Chain(w)) ==> Chain(RemovedAt(w, k))
  {
    var r := RemovedAt(w, k);
    assert old(Step(w[k - 1], w[k]));
    assert old(Step(w[k], w[k + 1]));
    forall n | 0 <= n < |r| - 1 ensures Step(r[n], r[n + 1]) {
      if n < k - 1 {
        assert old(Step(w[n], w[n + 1]));
      } else if n >= k {
        assert old(Step(w[n + 1], w[n + 2]));
      }
    }
  }

  /** list_remove: `elem` is unlinked; the element after it is returned. */
  method ListRemove(ghost w: seq<Elem>, ghost k: nat, elem: Elem) returns (after: Elem)
    requires Lists(w) && 0 < k < |w| - 1 && elem == w[k] && elem.IsInterior()
    modifies w
    ensures Lists(RemovedAt(w, k)) && SameKinds(w) && after == w[k + 1]
    ensures old(Chain(w)) ==> Chain(RemovedAt(w, k))
  {
    hide Lists;
    hide Chain;
    hide SameKinds;
    StepBefore(w, k);
    StepAfter(w, k);
    elem.prev.next := elem.next;
    elem.next.prev := elem.prev;
    RemovedLists(w, k);
    after := elem.next;
  }

  lemma StepAfter(w: seq<Elem>, k: nat)
    requires Lists(w) && 0 < k < |w| - 1 && w[k].next != null
    ensures w[k].next == w[k + 1] && w[k + 1].prev == w[k]
    ensures w[k] != w[k + 1] && w[k - 1] != w[k + 1]
  {
    assert Step(w[k], w[k + 1]);
  }

  // ----- Lists

  function Pow2(n: nat): (p: nat)
    ensures p > 0
  {
    if n == 0 then 1 else 2 * Pow2(n - 1)
  }

  class List {
    const head: Elem
    const tail: Elem
    ghost var elems: seq<Elem>

    /** The elements with their sentinels. */
    ghost function Whole(): (w: seq<Elem>)
      reads this
      ensures |w| == |elems| + 2
    {
      [head] + elems + [tail]
    }

    ghost predicate Valid()
      reads this, Whole()
    {
      Chain(Whole())
    }

    /** list_init */
    constructor ()
      ensures Valid() && elems == [] && fresh(head) && fresh(tail)
    {
      head := new Elem();
      tail := new Elem();
      elems := [];
      new;
      head.prev := null;
      head.next := tail;
      tail.prev := head;
      tail.next := null;
    }

    /** list_insert_ordered */
    method InsertOrdered(elem: Elem, less: Less<Elem>)
      requires Valid() && elem !in Whole()
      modifies this, Whole(), elem
      ensures Valid() && elems == Inserted(old(elems), elem, less)
    {
      hide Chain;
      ghost var w := Whole();
      ChainLinks(w, 0);
      var e := head.next;
      ghost var n := 1;
      while e != tail && !less(elem, e)
        invariant 1 <= n < |w| && e == w[n]
        invariant forall i | 0 <= i < n - 1 :: !less(elem, elems[i])
        modifies {}
        decreases |w| - n
      {
        ChainDistinct(w, n, |w| - 1);
        ChainLinks(w, n);
        e, n := e.next, n + 1;
      }
      ChainDistinct(w, n, |w| - 1);
      InsertAtIs(elems, elem, less, n - 1);
      ChainAllows(w, n, n, n);
      ListInsert(w, n, e, elem);
      elems := elems[..n - 1] + [elem] + elems[n - 1..];
      WholeInserted(head, old(elems), tail, n - 1, elem);
    }

    /** list_remove of the element at `k`. */
    method Remove(ghost k: nat, elem: Elem) returns (after: Elem)
      requires Valid() && k < |elems| && elem == elems[k]
      modifies this, Whole()
      ensures Valid() && elems == old(elems[..k] + elems[k + 1..])
      ensures after == old(Whole()[k + 2])
    {
      ghost var w := Whole();
      ChainLinks(w, k + 1);
      after := ListRemove(w, k + 1, elem);
      elems := elems[..k] + elems[k + 1..];
      assert Whole() == RemovedAt(w, k + 1);
    }

    /** list_push_back */
    method PushBack(elem: Elem)
      requires Valid() && elem !in Whole()
      modifies this, Whole(), elem
      ensures Valid() && elems == old(elems) + [elem]
    {
      hide Chain;
      ghost var w := Whole();
      ChainAllows(w, |w| - 1, |w| - 1, |w| - 1);
      ListInsert(w, |w| - 1, tail, elem);
      elems := elems + [elem];
      assert Whole() == InsertedAt(w, |w| - 1, elem);
    }

    /** One pass of list_sort over the list; the result is the number of runs it put out. */
    method SortPass(less: Less<Elem>) returns (outputRuns: nat)
      requires Valid()
      modifies this, Whole()
      ensures Valid() && elems == Pass(old(elems), less) && SameMembers(Whole(), old(Whole()))
      ensures outputRuns == PassRuns(old(elems), less)
    {
      hide Chain;
      hide Pass;
      hide Merge;
      hide PassRuns;
      hide SameMembers;
      hide Laid;
      ghost var start := Whole();
      SameMembersStart(start);
      outputRuns := 0;
      ghost var front, rest := [head], elems;
      PassBegins(head, elems, tail, less);
      ChainLinks(start, 0);
      var a0 := head.next;
      while a0 != tail
        invariant front != [] && front[0] == head
        invariant Chain(Laid(front, rest, tail)) && SameMembers(Laid(front, rest, tail), start)
        invariant forall n | 0 <= n < |front| + |rest| + 1 :: Laid(front, rest, tail)[n] in start
        invariant a0 == Laid(front, rest, tail)[|front|]
        invariant front[1..] + Pass(rest, less) == Pass(old(elems), less)
        invariant outputRuns + PassRuns(rest, less) == PassRuns(old(elems), less)
        decreases |rest|
      {
        outputRuns := outputRuns + 1;
        var b1, last;
        ghost var a, b, r;
        b1, last, a, b, r := MergeNextRuns(front, rest, a0, tail, less);
        if last {
          PassEnds(rest, less);
          LaidAll(front, rest, tail);
          front, rest := front + rest, [];
          break;
        }
        PassGoesOn(a, b, r, less);
        FrontGrows(front, Merge(a, b, less), Pass(r, less));
        SameMembersTrans(Laid(front + Merge(a, b, less), r, tail), Laid(front, rest, tail), start);
        front, rest := front + Merge(a, b, less), r;
        a0 := b1;
      }
      PassFinished(front, rest, tail, less);
      elems := front[1..];
    }

    /** list_sort: the elements end up sorted, and elements that tie keep their order. The number of
        passes is one, or at most one more than the logarithm of the number of runs. */
    method Sort(less: Less<Elem>, ghost u: set<Elem>) returns (ghost passes: nat)
      requires Valid() && StrictWeakOrder(less, u) && Within(elems, u)
      modifies this, Whole()
      ensures Valid() && SortedStable(old(elems), elems, less)
      ensures passes == 1 || (passes > 1 && Pow2(passes - 1) < Runs(old(elems), less))
    {
      hide Chain;
      hide SameMembers;
      hide Pass;
      hide StrictWeakOrder;
      hide Rearranged;
      hide Runs;
      ghost var start, s := Whole(), elems;
      var outputRuns := SortPass(less);
      passes := 1;
      RearrangedByPass(s, s, less, u);
      PassLeaves(s, less, u);
      SameMembersWithin(Whole(), start);
      while outputRuns > 1
        invariant Valid() && SameMembers(Whole(), start)
        invariant forall n | 0 <= n < |Whole()| :: Whole()[n] in start
        invariant Rearranged(s, elems, less, u) && Runs(elems, less) <= outputRuns
        invariant outputRuns > 0 ==> (outputRuns - 1) * Pow2(passes) < Runs(s, less)
        invariant passes == 1 || (passes > 1 && Pow2(passes - 1) < Runs(s, less))
        decreases outputRuns
      {
        ghost var before, middle := elems, Whole();
        RearrangedWithin(s, elems, less, u);
        PassLeaves(elems, less, u);
        Halved(outputRuns, Runs(elems, less), Pow2(passes));
        outputRuns := SortPass(less);
        passes := passes + 1;
        RearrangedByPass(s, before, less, u);
        SameMembersTrans(Whole(), middle, start);
      }
      RearrangedSorted(s, elems, less, u);
    }

    /** list_reverse: the links of every element are swapped, then those of the sentinels. */
    method Reverse()
      requires Valid()
      modifies this, Whole()
      ensures Valid() && elems == Reversed(old(elems))
    {
      hide Chain;
      hide HalfReversed;
      ghost var w := Whole();
      ChainLinks(w, 0);
      if head.next != tail {
        ReverseStart(w);
        var e := head.next;
        ghost var n := 1;
        while e != tail
          invariant 1 <= n < |w| && e == w[n]
          invariant HalfReversed(w, n)
          modifies w
          decreases |w| - n
        {
          HalfReversedAt(w, n);
          label swap:
          e.prev, e.next := e.next, e.prev;
          HalfReversedStep@swap(w, n);
          e, n := e.prev, n + 1;
        }
        HalfReversedAt(w, n);
        HalfReversedEnds(w);
        label ends:
        head.next, tail.prev := tail.prev, head.next;
        head.next.prev, tail.prev.next := tail.prev.next, head.next.prev;
        elems := Reversed(elems);
        WholeReversed(head, old(elems), tail);
        WhollyReversed@ends(w, Whole());
      } else {
        ChainDistinct(w, 1, |w| - 1);
        assert elems == Reversed(elems);
      }
    }
  }

  ghost function Reversed(s: seq<Elem>): (r: seq<Elem>)
    ensures |r| == |s| && forall i | 0 <= i < |s| :: r[i] == s[|s| - 1 - i]
  {
    seq(|s|, i requires 0 <= i < |s| => s[|s| - 1 - i])
  }

  /** The links of a list in which the elements before `n` have been turned around, but no sentinel. */
  ghost predicate HalfReversed(w: seq<Elem>, n: nat)
    reads w
  {
    && Distinct(w) && |w| >= 2 && 1 <= n <= |w| - 1
    && w[0].prev == null && w[0].next == w[1] && w[|w| - 1].prev == w[|w| - 2] && w[|w| - 1].next == null
    && (forall i {:trigger w[i].next} | 0 < i < n :: w[i].next == w[i - 1])
    && (forall i {:trigger w[i].prev} | 0 < i < n :: w[i].prev == w[i + 1])
    && (forall i {:trigger w[i].next} | n <= i < |w| - 1 :: w[i].next == w[i + 1])
    && (forall i {:trigger w[i].prev} | n <= i < |w| :: w[i].prev == w[i - 1])
  }

  lemma ReverseStart(w: seq<Elem>)
    requires Chain(w)
    ensures HalfReversed(w, 1)
  {
    forall i | 0 <= i < |w|
      ensures i < |w| - 1 ==> w[i].next == w[i + 1]
      ensures 0 < i ==> w[i].prev == w[i - 1]
    {
      ChainLinks(w, i);
    }
  }

  lemma HalfReversedAt(w: seq<Elem>, n: nat)
    requires HalfReversed(w, n)
    ensures w[n].prev == w[n - 1] && (n < |w| - 1 ==> w[n].next == w[n + 1])
    ensures w[n] == w[|w| - 1] <==> n == |w| - 1
    ensures w[0].next == w[1] && w[|w| - 1].prev == w[|w| - 2]
  {}

  lemma HalfReversedEnds(w: seq<Elem>)
    requires |w| > 2 && HalfReversed(w, |w| - 1)
    ensures w[1].next == w[0] && w[|w| - 2].prev == w[|w| - 1]
    ensures w[0] != w[1] && w[0] != w[|w| - 2] && w[0] != w[|w| - 1]
    ensures w[1] != w[|w| - 1] && w[|w| - 2] != w[|w| - 1]
    ensures forall i | 1 < i < |w| - 1 :: w[i] != w[1] && w[i] != w[0]
    ensures forall i | 0 < i < |w| - 2 :: w[i] != w[|w| - 2] && w[i] != w[|w| - 1]
  {}

  lemma WholeReversed(h: Elem, s: seq<Elem>, t: Elem)
    ensures var w, r := [h] + s + [t], [h] + Reversed(s) + [t];
      |r| == |w| && r[0] == w[0] && r[|w| - 1] == w[|w| - 1]
      && forall i | 0 < i < |w| - 1 :: r[i] == w[|w| - 1 - i]
  {}

  twostate lemma HalfReversedStep(w: seq<Elem>, new n: nat)
    requires n < |w| - 1 && old(HalfReversed(w, n))
    requires w[n].next == w[n - 1] && w[n].prev == w[n + 1]
    requires forall e | e in w && e != w[n] :: e.next == old(e.next) && e.prev == old(e.prev)
    ensures HalfReversed(w, n + 1)
  {}

  twostate lemma WhollyReversed(w: seq<Elem>, new r: seq<Elem>)
    requires |w| > 2 && old(HalfReversed(w, |w| - 1))
    requires |r| == |w| && r[0] == w[0] && r[|w| - 1] == w[|w| - 1]
    requires forall i | 0 < i < |w| - 1 :: r[i] == w[|w| - 1 - i]
    requires w[0].next == w[|w| - 2] && w[|w| - 1].prev == w[1] && w[|w| - 2].prev == w[0] && w[1].next == w[|w| - 1]
    requires w[0].prev == old(w[0].prev) && w[|w| - 1].next == old(w[|w| - 1].next)
    requires forall i {:trigger w[i].next} | 1 < i < |w| - 1 :: w[i].next == old(w[i].next)
    requires forall i {:trigger w[i].prev} | 0 < i < |w| - 2 :: w[i].prev == old(w[i].prev)
    ensures Chain(r)
  {
    forall i | 0 <= i < |r| - 1 ensures Step(r[i], r[i + 1]) {
      var k := |w| - 1 - i;
      if 0 < i < |w| - 2 {
        assert r[i] == w[k] && r[i + 1] == w[k - 1];
        assert old(w[k].next) == w[k - 1] && old(w[k - 1].prev) == w[k];
      }
    }
    ReversedDistinct(w, r);
    forall i | 0 < i < |r| ensures r[i].prev != null {
      if i < |r| - 1 {
        assert r[i] == w[|w| - 1 - i];
      }
    }
  }

  lemma ReversedDistinct(w: seq<Elem>, r: seq<Elem>)
    requires Distinct(w) && |w| == |r| >= 2 && r[0] == w[0] && r[|w| - 1] == w[|w| - 1]
    requires forall i | 0 < i < |w| - 1 :: r[i] == w[|w| - 1 - i]
    ensures Distinct(r)
  {
    forall i, j | 0 <= i < j < |r| ensures r[i] != r[j] {
      var k := if 0 < i then |w| - 1 - i else i;
      var l := if j < |w| - 1 then |w| - 1 - j else j;
      assert r[i] == w[k] && r[j] == w[l] && k != l;
    }
  }

  /** `r` has the elements of `s`, and elements that tie are in the order of `s`. */
  ghost predicate Rearranged(s: seq<Elem>, r: seq<Elem>, less: Less<Elem>, u: set<Elem>) {
    && multiset(r) == multiset(s) && Within(s, u)
    && (forall x | x in u :: Ties(r, x, less) == Ties(s, x, less))
  }

  lemma RearrangedByPass(s: seq<Elem>, r: seq<Elem>, less: Less<Elem>, u: set<Elem>)
    requires StrictWeakOrder(less, u) && Within(s, u) && (r == s || Rearranged(s, r, less, u))
    ensures Rearranged(s, Pass(r, less), less, u)
  {
    SameElementsWithin(s, r, u);
    PassElements(r, less);
    forall x | x in u ensures Ties(Pass(r, less), x, less) == Ties(s, x, less) {
      PassStable(r, x, less, u);
    }
  }

  lemma RearrangedWithin(s: seq<Elem>, r: seq<Elem>, less: Less<Elem>, u: set<Elem>)
    requires Rearranged(s, r, less, u)
    ensures Within(r, u)
  {
    SameElementsWithin(s, r, u);
  }

  lemma RearrangedSorted(s: seq<Elem>, r: seq<Elem>, less: Less<Elem>, u: set<Elem>)
    requires Rearranged(s, r, less, u) && Runs(r, less) <= 1
    ensures SortedStable(s, r, less)
  {
    RunsOfSorted(r, less);
    assert forall x | x in s :: x in u;
  }

  /** What a pass makes of the number of runs. */
  lemma PassLeaves(s: seq<Elem>, less: Less<Elem>, u: set<Elem>)
    requires StrictWeakOrder(less, u) && Within(s, u)
    ensures Runs(Pass(s, less), less) <= PassRuns(s, less)
    ensures PassRuns(s, less) > 0 ==> (PassRuns(s, less) - 1) * Pow2(1) < Runs(s, less)
  {
    PassHalves(s, less, u);
    assert Pow2(1) == 2 * Pow2(0);
  }

  lemma Halved(output: nat, runs: nat, p: nat)
    requires runs <= output && output > 1 && p > 0
    ensures (runs + 1) / 2 < output && p <= (output - 1) * p
    ensures (runs + 1) / 2 > 0 ==> ((runs + 1) / 2 - 1) * (2 * p) <= (output - 1) * p
  {
    var half := (runs + 1) / 2 - 1;
    if half >= 0 {
      assert 2 * half <= output - 1;
      assert half * (2 * p) == (2 * half) * p;
      MulMonotone(2 * half, output - 1, p);
    }
    MulMonotone(1, output - 1, p);
  }

  lemma MulMonotone(a: int, b: int, p: nat)
    requires a <= b
    ensures a * p <= b * p
  {}

  lemma SameMembersWithin(v: seq<Elem>, w: seq<Elem>)
    requires SameMembers(v, w)
    ensures forall n | 0 <= n < |v| :: v[n] in w
  {}

  /** A list in the middle of a sort pass: the head and the elements done, those still to do, the tail. */
  ghost function Laid(front: seq<Elem>, rest: seq<Elem>, t: Elem): (w: seq<Elem>)
    ensures |w| == |front| + |rest| + 1 && w[|w| - 1] == t
    ensures w[|front|] == if rest == [] then t else rest[0]
  {
    front + (rest + [t])
  }

  /** The body of the loop in list_sort: find the next two runs and merge them, or find that
      only one is left. */
  method MergeNextRuns(ghost front: seq<Elem>, ghost rest: seq<Elem>, a0: Elem, tail: Elem, less: Less<Elem>)
    returns (b1: Elem, last: bool, ghost a: seq<Elem>, ghost b: seq<Elem>, ghost r: seq<Elem>)
    requires front != [] && Chain(Laid(front, rest, tail)) && a0 != tail && a0 == Laid(front, rest, tail)[|front|]
    modifies Laid(front, rest, tail)
    ensures rest == a + (b + r) && |a| == RunLength(rest, less) && (last <==> |a| == |rest|)
    ensures rest != [] && (last ==> Chain(Laid(front, rest, tail)))
    ensures !last ==> |b| == RunLength(b + r, less)
    ensures !last ==> Chain(Laid(front + Merge(a, b, less), r, tail))
    ensures !last ==> b1 == Laid(front + Merge(a, b, less), r, tail)[|front + Merge(a, b, less)|]
    ensures !last ==> SameMembers(Laid(front + Merge(a, b, less), r, tail), Laid(front, rest, tail))
  {
    hide Chain;
    hide Merge;
    hide SameMembers;
    hide Laid;
    hide Sorted;
    hide RunLength;
    ghost var w, i, j := Laid(front, rest, tail), |front|, |front| + |rest|;
    var a1b0;
    ghost var n, m;
    FirstRun(front, rest, tail);
    a1b0, n := FindEndOfRun(w, i, j, a0, tail, less);
    ChainDistinct(w, i + n, j);
    last := a1b0 == tail;
    b1 := tail;
    if last {
      a, b, r := rest, [], [];
      assert rest == a + (b + r);
    } else {
      SecondRun(front, rest, tail, n);
      b1, m := FindEndOfRun(w, i + n, j, a1b0, tail, less);
      a, b, r := BothRuns(front, rest, tail, n, m, less);
      ghost var v := InplaceMerge(w, i, i + n, i + n + m, a0, a1b0, b1, less);
    }
  }

  lemma FirstRun(front: seq<Elem>, rest: seq<Elem>, t: Elem)
    ensures var w, i, j := Laid(front, rest, t), |front|, |front| + |rest|; w[i..j] == rest && w[j] == t
  {}

  lemma SecondRun(front: seq<Elem>, rest: seq<Elem>, t: Elem, n: nat)
    requires n <= |rest|
    ensures var w, i, j := Laid(front, rest, t), |front|, |front| + |rest|; w[i + n..j] == rest[n..]
  {}

  lemma BothRuns(front: seq<Elem>, rest: seq<Elem>, t: Elem, n: nat, m: nat, less: Less<Elem>)
    returns (a: seq<Elem>, b: seq<Elem>, r: seq<Elem>)
    requires n == RunLength(rest, less) < |rest| && m == RunLength(rest[n..], less)
    ensures rest == a + (b + r) && |a| == n && |b| == m && m == RunLength(b + r, less)
    ensures var w, i := Laid(front, rest, t), |front|;
      && Sorted(w[i..i + n], less) && Sorted(w[i + n..i + n + m], less)
      && w[..i] + Merge(w[i..i + n], w[i + n..i + n + m], less) + w[i + n + m..] ==
         Laid(front + Merge(a, b, less), r, t)
      && w[i + n + m] == Laid(front + Merge(a, b, less), r, t)[|front + Merge(a, b, less)|]
  {
    hide Sorted;
    hide RunLength;
    hide Merge;
    hide Laid;
    a := rest[..n];
    var q := rest[n..];
    b, r := q[..m], q[m..];
    RunIsSorted(rest, less);
    RunIsSorted(q, less);
    assert q == b + r;
    assert rest == a + (b + r);
    LaidStep(front, a, b, r, t, less);
  }

  lemma Assoc<T>(x: seq<T>, y: seq<T>, z: seq<T>)
    ensures (x + y) + z == x + (y + z)
  {}

  lemma FrontGrows(front: seq<Elem>, m: seq<Elem>, p: seq<Elem>)
    requires front != []
    ensures (front + m)[1..] + p == front[1..] + (m + p)
  {
    assert (front + m)[1..] == front[1..] + m;
    Assoc(front[1..], m, p);
  }

  lemma LaidAll(front: seq<Elem>, rest: seq<Elem>, t: Elem)
    ensures Laid(front, rest, t) == Laid(front + rest, [], t)
    ensures front != [] ==> (front + rest)[1..] == front[1..] + rest
  {
    assert [] + [t] == [t];
    Assoc(front, rest, [t]);
  }

  lemma LaidDone(front: seq<Elem>, rest: seq<Elem>, t: Elem)
    requires Chain(Laid(front, rest, t)) && Laid(front, rest, t)[|front|] == t
    ensures rest == [] && Laid(front, rest, t) == front + [t]
  {
    var w := Laid(front, rest, t);
    ChainDistinct(w, |front|, |w| - 1);
    assert [] + [t] == [t];
  }

  lemma ThreePieces<T>(p: seq<T>, a: seq<T>, b: seq<T>, q: seq<T>)
    ensures var w := p + (a + (b + q));
      && w[..|p|] == p && w[|p|..|p| + |a|] == a && w[|p| + |a|..|p| + |a| + |b|] == b
      && w[|p| + |a| + |b|..] == q
  {}

  lemma LaidStep(front: seq<Elem>, a: seq<Elem>, b: seq<Elem>, r: seq<Elem>, t: Elem, less: Less<Elem>)
    ensures var w, i := Laid(front, a + (b + r), t), |front|;
      && w[i..i + |a|] == a && w[i + |a|..i + |a| + |b|] == b
      && w[i + |a| + |b|] == (if r == [] then t else r[0])
      && w[..i] + Merge(a, b, less) + w[i + |a| + |b|..] == Laid(front + Merge(a, b, less), r, t)
  {
    hide Merge;
    Assoc(a, b + r, [t]);
    Assoc(b, r, [t]);
    ThreePieces(front, a, b, r + [t]);
  }

  lemma WholeInserted(h: Elem, s: seq<Elem>, t: Elem, k: nat, x: Elem)
    requires k <= |s|
    ensures [h] + (s[..k] + [x] + s[k..]) + [t] == InsertedAt([h] + s + [t], k + 1, x)
  {}

  lemma SameMembersStart(w: seq<Elem>)
    ensures SameMembers(w, w)
  {}

  lemma SameMembersTrans(v: seq<Elem>, w: seq<Elem>, u: seq<Elem>)
    requires SameMembers(v, w) && SameMembers(w, u)
    ensures SameMembers(v, u) && forall n | 0 <= n < |v| :: v[n] in u
  {
    forall n | 0 <= n < |v| ensures v[n] in u {
      assert v[n] in w;
      var m :| 0 <= m < |w| && w[m] == v[n];
    }
    forall n | 0 <= n < |u| ensures u[n] in v {
      assert u[n] in w;
      var m :| 0 <= m < |w| && w[m] == u[n];
    }
  }

  lemma PassBegins(h: Elem, s: seq<Elem>, t: Elem, less: Less<Elem>)
    ensures Laid([h], s, t) == [h] + s + [t] && [h][1..] + Pass(s, less) == Pass(s, less)
  {
    hide Pass;
    assert [h][1..] == [];
  }

  lemma PassFinished(front: seq<Elem>, rest: seq<Elem>, t: Elem, less: Less<Elem>)
    requires front != [] && Chain(Laid(front, rest, t)) && Laid(front, rest, t)[|front|] == t
    ensures rest == [] && Laid(front, rest, t) == [front[0]] + front[1..] + [t]
    ensures front[1..] + Pass(rest, less) == front[1..] && PassRuns(rest, less) == 0
  {
    hide Chain;
    LaidDone(front, rest, t);
    assert [front[0]] + front[1..] == front;
  }

  lemma PassEnds<T>(rest: seq<T>, less: Less<T>)
    requires RunLength(rest, less) == |rest| > 0
    ensures Pass(rest, less) == rest && PassRuns(rest, less) == 1
    ensures Pass<T>([], less) == [] && PassRuns<T>([], less) == 0
  {
    PassOfRun(rest, less);
    RunsOfSorted(rest, less);
  }

  lemma PassGoesOn<T>(a: seq<T>, b: seq<T>, r: seq<T>, less: Less<T>)
    requires |a| == RunLength(a + (b + r), less) < |a + (b + r)| && |b| == RunLength(b + r, less)
    ensures Pass(a + (b + r), less) == Merge(a, b, less) + Pass(r, less)
    ensures PassRuns(a + (b + r), less) == 1 + PassRuns(r, less)
  {
    var t := b + r;
    var s := a + t;
    assert s[..|a|] == a && s[|a|..] == t && t[..|b|] == b && t[|b|..] == r;
    RunsSkipOne(s, less);
    RunsSkipOne(t, less);
  }
}
