/** Sequences ordered by a strict weak order: maximal runs, the stable merge, one pass of
    the natural merge sort, ordered insertion, and what a sorted stable rearrangement is.
    LinkedList carries these out on linked elements. */
module OrderedSeqs {

  type Less<!T> = (T, T) -> bool

  /** `less` is a strict weak order on the elements of `u`. */
  ghost predicate StrictWeakOrder<T>(less: Less<T>, u: set<T>) {
    && (forall x, y {:trigger less(x, y)} | x in u && y in u :: less(x, y) ==> !less(y, x))
    && (forall x, y, z {:trigger less(x, y), less(y, z)} | x in u && y in u && z in u ::
          !less(x, y) && !less(y, z) ==> !less(x, z))
  }

  ghost predicate Within<T>(s: seq<T>, u: set<T>) {
    forall i | 0 <= i < |s| :: s[i] in u
  }

  predicate Sorted<T>(s: seq<T>, less: Less<T>) {
    forall i | 0 < i < |s| :: !less(s[i], s[i - 1])
  }

  predicate Tie<T>(less: Less<T>, x: T, y: T) {
    !less(x, y) && !less(y, x)
  }

  /** The elements of `s` that tie with `x`, in the order in which `s` has them. */
  function Ties<T>(s: seq<T>, x: T, less: Less<T>): seq<T> {
    if s == [] then [] else (if Tie(less, s[0], x) then [s[0]] else []) + Ties(s[1..], x, less)
  }

  /** `r` has the elements of `s`, in order, and tied elements keep the order they had in `s`. */
  ghost predicate SortedStable<T>(s: seq<T>, r: seq<T>, less: Less<T>) {
    && multiset(r) == multiset(s)
    && Sorted(r, less)
    && (forall x | x in s :: Ties(r, x, less) == Ties(s, x, less))
  }

  // ----- Consequences of the order

  lemma {:induction false} SortedFromFront<T>(s: seq<T>, less: Less<T>, u: set<T>, i: nat)
    requires StrictWeakOrder(less, u) && Within(s, u) && Sorted(s, less) && i < |s|
    ensures !less(s[i], s[0])
  {
    if i > 0 {
      SortedFromFront(s, less, u, i - 1);
    }
  }

  lemma TiesCons<T>(h: T, t: seq<T>, x: T, less: Less<T>)
    ensures Ties([h] + t, x, less) == (if Tie(less, h, x) then [h] else []) + Ties(t, x, less)
  {
    assert ([h] + t)[1..] == t;
  }

  lemma {:induction false} TiesConcat<T>(a: seq<T>, b: seq<T>, x: T, less: Less<T>)
    ensures Ties(a + b, x, less) == Ties(a, x, less) + Ties(b, x, less)
  {
    if a == [] {
      assert a + b == b;
    } else {
      var h, t := a[0], a[1..];
      var head := if Tie(less, h, x) then [h] else [];
      TiesConcat(t, b, x, less);
      TiesCons(h, t + b, x, less);
      assert a + b == [h] + (t + b);
      assert head + (Ties(t, x, less) + Ties(b, x, less)) == (head + Ties(t, x, less)) + Ties(b, x, less);
    }
  }

  lemma {:induction false} TiesEmpty<T>(s: seq<T>, x: T, less: Less<T>)
    requires forall i | 0 <= i < |s| :: !Tie(less, s[i], x)
    ensures Ties(s, x, less) == []
  {
    if s != [] {
      TiesEmpty(s[1..], x, less);
    }
  }

  /** Nothing in a sorted sequence whose head is above `y` ties with what `y` ties with. */
  lemma {:induction false} NoTiesAbove<T>(s: seq<T>, y: T, x: T, less: Less<T>, u: set<T>)
    requires StrictWeakOrder(less, u) && Within(s, u) && y in u && x in u
    requires s != [] && Sorted(s, less) && less(y, s[0]) && Tie(less, y, x)
    ensures Ties(s, x, less) == []
  {
    forall i | 0 <= i < |s|
      ensures !Tie(less, s[i], x)
    {
      SortedFromFront(s, less, u, i);
    }
    TiesEmpty(s, x, less);
  }

  lemma ElementsCons<T>(s: seq<T>)
    requires s != []
    ensures multiset(s) == multiset{s[0]} + multiset(s[1..])
  {
    assert s == [s[0]] + s[1..];
  }

  lemma ElementsOfParts<T>(a: seq<T>, b: seq<T>, c: seq<T>, d: seq<T>)
    requires multiset(a) == multiset(c) && multiset(b) == multiset(d)
    ensures multiset(a + b) == multiset(c + d)
  {}

  lemma SameElementsWithin<T>(s: seq<T>, r: seq<T>, u: set<T>)
    requires multiset(r) == multiset(s) && Within(s, u)
    ensures Within(r, u)
  {
    forall i | 0 <= i < |r| ensures r[i] in u {
      assert r[i] in multiset(s);
    }
  }

  // ----- A sorted stable rearrangement is unique

  lemma ElementsTail<T>(r: seq<T>, q: seq<T>)
    requires r != [] && q != [] && r[0] == q[0] && multiset(r) == multiset(q)
    ensures multiset(r[1..]) == multiset(q[1..])
  {
    ElementsCons(r);
    ElementsCons(q);
    assert multiset(r[1..]) == multiset(r) - multiset{r[0]};
  }

  lemma SortedStableHeads<T>(r: seq<T>, q: seq<T>, less: Less<T>, u: set<T>)
    requires r != [] && multiset(r) == multiset(q)
    requires StrictWeakOrder(less, u) && Within(r, u) && Sorted(r, less) && Sorted(q, less)
    requires Ties(r, r[0], less) == Ties(q, r[0], less)
    ensures q != [] && r[0] == q[0]
  {
    assert r[0] in multiset(q);
    var i :| 0 <= i < |q| && q[i] == r[0];
    assert q[0] in multiset(r);
    var j :| 0 <= j < |r| && r[j] == q[0];
    SameElementsWithin(r, q, u);
    SortedFromFront(q, less, u, i);
    SortedFromFront(r, less, u, j);
    assert Ties(r, r[0], less)[0] == r[0];
    assert Ties(q, r[0], less)[0] == q[0];
  }

  lemma TiesTail<T>(r: seq<T>, q: seq<T>, x: T, less: Less<T>)
    requires r != [] && q != [] && r[0] == q[0]
    requires Ties(r, x, less) == Ties(q, x, less)
    ensures Ties(r[1..], x, less) == Ties(q[1..], x, less)
  {
    var head := if Tie(less, r[0], x) then [r[0]] else [];
    assert (head + Ties(r[1..], x, less))[|head|..] == Ties(r[1..], x, less);
    assert (head + Ties(q[1..], x, less))[|head|..] == Ties(q[1..], x, less);
  }

  /** Sorted sequences with the same elements and the same ties are equal, so SortedStable
      leaves no choice of the result. */
  lemma {:induction false} SortedStableUnique<T>(r: seq<T>, q: seq<T>, less: Less<T>, u: set<T>)
    requires StrictWeakOrder(less, u) && Within(r, u)
    requires Sorted(r, less) && Sorted(q, less)
    requires multiset(r) == multiset(q)
    requires forall x | x in r :: Ties(r, x, less) == Ties(q, x, less)
    ensures r == q
  {
    if r == [] {
      assert |multiset(q)| == 0;
    } else {
      assert r[0] in r;
      SortedStableHeads(r, q, less, u);
      ElementsTail(r, q);
      forall x | x in r[1..]
        ensures Ties(r[1..], x, less) == Ties(q[1..], x, less)
      {
        TiesTail(r, q, x, less);
      }
      SortedStableUnique(r[1..], q[1..], less, u);
    }
  }

  // ----- Merging

  /** The merge that inplace_merge carries out: the right head goes first only if it is less. */
  function Merge<T>(a: seq<T>, b: seq<T>, less: Less<T>): (r: seq<T>)
    ensures |r| == |a| + |b|
  {
    if a == [] then b
    else if b == [] then a
    else if !less(b[0], a[0]) then [a[0]] + Merge(a[1..], b, less)
    else [b[0]] + Merge(a, b[1..], less)
  }

  lemma {:induction false} MergeElements<T>(a: seq<T>, b: seq<T>, less: Less<T>)
    ensures multiset(Merge(a, b, less)) == multiset(a) + multiset(b)
  {
    if a != [] && b != [] {
      if !less(b[0], a[0]) {
        MergeElements(a[1..], b, less);
        ElementsCons(a);
      } else {
        MergeElements(a, b[1..], less);
        ElementsCons(b);
      }
    }
  }

  lemma MergeHead<T>(a: seq<T>, b: seq<T>, less: Less<T>)
    requires a + b != []
    ensures var h := Merge(a, b, less)[0]; (a != [] && h == a[0]) || (b != [] && h == b[0])
  {}

  lemma SortedCons<T>(h: T, t: seq<T>, less: Less<T>)
    requires Sorted(t, less) && (t != [] ==> !less(t[0], h))
    ensures Sorted([h] + t, less)
  {}

  lemma {:induction false} MergeSorted<T>(a: seq<T>, b: seq<T>, less: Less<T>, u: set<T>)
    requires StrictWeakOrder(less, u) && Within(a, u) && Within(b, u)
    requires Sorted(a, less) && Sorted(b, less)
    ensures Sorted(Merge(a, b, less), less)
  {
    if a != [] && b != [] {
      if !less(b[0], a[0]) {
        MergeSorted(a[1..], b, less, u);
        MergeHead(a[1..], b, less);
        SortedCons(a[0], Merge(a[1..], b, less), less);
      } else {
        MergeSorted(a, b[1..], less, u);
        MergeHead(a, b[1..], less);
        SortedCons(b[0], Merge(a, b[1..], less), less);
      }
    }
  }

  lemma {:induction false} MergeStable<T>(a: seq<T>, b: seq<T>, x: T, less: Less<T>, u: set<T>)
    requires StrictWeakOrder(less, u) && Within(a, u) && Within(b, u) && x in u
    requires Sorted(a, less)
    ensures Ties(Merge(a, b, less), x, less) == Ties(a, x, less) + Ties(b, x, less)
  {
    hide StrictWeakOrder;
    if a != [] && b != [] {
      if !less(b[0], a[0]) {
        MergeStable(a[1..], b, x, less, u);
        TiesCons(a[0], Merge(a[1..], b, less), x, less);
      } else {
        MergeStable(a, b[1..], x, less, u);
        TiesCons(b[0], Merge(a, b[1..], less), x, less);
        if Tie(less, b[0], x) {
          NoTiesAbove(a, b[0], x, less, u);
        }
      }
    }
  }

  // ----- Runs

  /** Length of the longest nondecreasing prefix. */
  function RunLength<T>(s: seq<T>, less: Less<T>): (n: nat)
    ensures n <= |s| && (s != [] ==> n > 0)
  {
    if |s| <= 1 then |s|
    else if less(s[1], s[0]) then 1
    else 1 + RunLength(s[1..], less)
  }

  lemma {:induction false} RunLengthIs<T>(s: seq<T>, less: Less<T>, n: nat)
    requires 0 < n <= |s| && Sorted(s[..n], less) && (n < |s| ==> less(s[n], s[n - 1]))
    ensures n == RunLength(s, less)
  {
    if n > 1 {
      assert !less(s[..n][1], s[..n][0]);
      assert s[1..][..n - 1] == s[..n][1..];
      RunLengthIs(s[1..], less, n - 1);
    }
  }

  lemma {:induction false} RunIsSorted<T>(s: seq<T>, less: Less<T>)
    ensures Sorted(s[..RunLength(s, less)], less)
  {
    if |s| > 1 && !less(s[1], s[0]) {
      RunIsSorted(s[1..], less);
      var t := s[1..][..RunLength(s[1..], less)];
      SortedCons(s[0], t, less);
      assert s[..RunLength(s, less)] == [s[0]] + t;
    }
  }

  /** The number of maximal runs. */
  function Runs<T>(s: seq<T>, less: Less<T>): nat {
    if |s| <= 1 then |s| else Runs(s[1..], less) + (if less(s[1], s[0]) then 1 else 0)
  }

  lemma {:induction false} RunsSkipOne<T>(s: seq<T>, less: Less<T>)
    requires s != []
    ensures Runs(s, less) == 1 + Runs(s[RunLength(s, less)..], less)
  {
    if |s| > 1 && !less(s[1], s[0]) {
      RunsSkipOne(s[1..], less);
      assert s[1..][RunLength(s[1..], less)..] == s[RunLength(s, less)..];
    }
  }

  lemma {:induction false} RunsOfSorted<T>(s: seq<T>, less: Less<T>)
    ensures Runs(s, less) <= 1 <==> Sorted(s, less)
    ensures s != [] ==> Runs(s, less) > 0
  {
    if |s| > 1 {
      RunsOfSorted(s[1..], less);
      if less(s[1], s[0]) {
        assert !Sorted(s, less);
      } else if Sorted(s[1..], less) {
        SortedCons(s[0], s[1..], less);
        assert s == [s[0]] + s[1..];
      } else {
        var i :| 0 < i < |s[1..]| && less(s[1..][i], s[1..][i - 1]);
        assert less(s[i + 1], s[i]);
      }
    }
  }

  lemma {:induction false} RunsConcat<T>(a: seq<T>, b: seq<T>, less: Less<T>)
    ensures Runs(a + b, less) <= Runs(a, less) + Runs(b, less)
  {
    if a == [] {
      assert a + b == b;
    } else {
      RunsConcat(a[1..], b, less);
      assert (a + b)[1..] == a[1..] + b;
    }
  }

  // ----- One pass of the sort

  /** One pass: neighbouring runs are merged two by two. */
  function Pass<T>(s: seq<T>, less: Less<T>): (r: seq<T>)
    ensures |r| == |s|
  {
    var n := RunLength(s, less);
    var t := s[n..];
    if t == [] then s
    else
      var m := RunLength(t, less);
      Merge(s[..n], t[..m], less) + Pass(t[m..], less)
  }

  /** The number of runs that a pass puts out. */
  function PassRuns<T>(s: seq<T>, less: Less<T>): nat {
    (Runs(s, less) + 1) / 2
  }

  /** The pieces that the first step of a pass looks at: two runs and what follows them. */
  lemma PassPieces<T>(s: seq<T>, less: Less<T>) returns (a: seq<T>, b: seq<T>, rest: seq<T>)
    requires RunLength(s, less) < |s|
    ensures s == a + b + rest && |rest| < |s|
    ensures Sorted(a, less) && Sorted(b, less)
    ensures Pass(s, less) == Merge(a, b, less) + Pass(rest, less)
    ensures Runs(s, less) == 2 + Runs(rest, less)
  {
    var n := RunLength(s, less);
    var t := s[n..];
    var m := RunLength(t, less);
    a, b, rest := s[..n], t[..m], t[m..];
    RunIsSorted(s, less);
    RunIsSorted(t, less);
    RunsSkipOne(s, less);
    RunsSkipOne(t, less);
    assert s == a + t && t == b + rest;
  }

  lemma PassOfRun<T>(s: seq<T>, less: Less<T>)
    requires RunLength(s, less) == |s|
    ensures Pass(s, less) == s && Sorted(s, less) && Runs(s, less) <= 1
  {
    RunIsSorted(s, less);
    RunsOfSorted(s, less);
    assert s[..|s|] == s && s[|s|..] == [];
  }

  lemma {:induction false} PassElements<T>(s: seq<T>, less: Less<T>)
    ensures multiset(Pass(s, less)) == multiset(s)
    decreases |s|
  {
    if RunLength(s, less) == |s| {
      PassOfRun(s, less);
    } else {
      var a, b, rest := PassPieces(s, less);
      MergeElements(a, b, less);
      PassElements(rest, less);
      ElementsOfParts(Merge(a, b, less), Pass(rest, less), a + b, rest);
    }
  }

  lemma StableParts<T>(a: seq<T>, b: seq<T>, m: seq<T>, rest: seq<T>, pass: seq<T>, x: T, less: Less<T>)
    requires Ties(m, x, less) == Ties(a, x, less) + Ties(b, x, less)
    requires Ties(pass, x, less) == Ties(rest, x, less)
    ensures Ties(m + pass, x, less) == Ties(a + b + rest, x, less)
  {
    TiesConcat(m, pass, x, less);
    TiesConcat(a, b, x, less);
    TiesConcat(a + b, rest, x, less);
  }

  lemma WithinParts<T>(a: seq<T>, b: seq<T>, c: seq<T>, u: set<T>)
    requires Within(a + b + c, u)
    ensures Within(a, u) && Within(b, u) && Within(c, u)
  {
    assert forall i | 0 <= i < |a| :: a[i] == (a + b + c)[i];
    assert forall i | 0 <= i < |b| :: b[i] == (a + b + c)[|a| + i];
    assert forall i | 0 <= i < |c| :: c[i] == (a + b + c)[|a| + |b| + i];
  }

  lemma {:induction false} PassStable<T>(s: seq<T>, x: T, less: Less<T>, u: set<T>)
    requires StrictWeakOrder(less, u) && Within(s, u) && x in u
    ensures Ties(Pass(s, less), x, less) == Ties(s, x, less)
    decreases |s|
  {
    if RunLength(s, less) == |s| {
      PassOfRun(s, less);
    } else {
      var a, b, rest := PassPieces(s, less);
      WithinParts(a, b, rest, u);
      MergeStable(a, b, x, less, u);
      PassStable(rest, x, less, u);
      StableParts(a, b, Merge(a, b, less), rest, Pass(rest, less), x, less);
    }
  }

  /** A pass takes k runs to at most half of k, rounded up. */
  lemma {:induction false} PassHalves<T>(s: seq<T>, less: Less<T>, u: set<T>)
    requires StrictWeakOrder(less, u) && Within(s, u)
    ensures Runs(Pass(s, less), less) <= PassRuns(s, less)
    decreases |s|
  {
    if RunLength(s, less) == |s| {
      PassOfRun(s, less);
    } else {
      var a, b, rest := PassPieces(s, less);
      WithinParts(a, b, rest, u);
      MergeSorted(a, b, less, u);
      RunsOfSorted(Merge(a, b, less), less);
      PassHalves(rest, less, u);
      RunsConcat(Merge(a, b, less), Pass(rest, less), less);
    }
  }

  // ----- Ordered insertion

  /** The place list_insert_ordered finds: before the first element that `x` is less than. */
  function InsertAt<T>(s: seq<T>, x: T, less: Less<T>): (k: nat)
    ensures k <= |s|
  {
    if s == [] || less(x, s[0]) then 0 else 1 + InsertAt(s[1..], x, less)
  }

  function Inserted<T>(s: seq<T>, x: T, less: Less<T>): (r: seq<T>)
    ensures |r| == |s| + 1
  {
    var k := InsertAt(s, x, less);
    s[..k] + [x] + s[k..]
  }

  lemma {:induction false} InsertAtIs<T>(s: seq<T>, x: T, less: Less<T>, k: nat)
    requires k <= |s| && (forall i | 0 <= i < k :: !less(x, s[i])) && (k < |s| ==> less(x, s[k]))
    ensures k == InsertAt(s, x, less)
  {
    if k > 0 {
      assert !less(x, s[0]);
      assert forall i | 0 <= i < k - 1 :: s[1..][i] == s[i + 1];
      InsertAtIs(s[1..], x, less, k - 1);
    }
  }

  lemma {:induction false} InsertAtBounds<T>(s: seq<T>, x: T, less: Less<T>)
    ensures var k := InsertAt(s, x, less);
      (forall i | 0 <= i < k :: !less(x, s[i])) && (k < |s| ==> less(x, s[k]))
  {
    if s != [] && !less(x, s[0]) {
      InsertAtBounds(s[1..], x, less);
      var k := InsertAt(s, x, less);
      assert forall i | 0 < i < k :: s[i] == s[1..][i - 1];
    }
  }

  lemma InsertedSorted<T>(s: seq<T>, x: T, less: Less<T>, u: set<T>)
    requires StrictWeakOrder(less, u) && Within(s, u) && x in u && Sorted(s, less)
    ensures Sorted(Inserted(s, x, less), less)
  {
    InsertAtBounds(s, x, less);
  }

  lemma TiesOfInserted<T>(a: seq<T>, b: seq<T>, x: T, y: T, less: Less<T>)
    requires Tie(less, x, y) ==> Ties(b, y, less) == []
    ensures Ties(a + [x] + b, y, less) == Ties(a + b + [x], y, less)
  {
    TiesConcat(a + [x], b, y, less);
    TiesConcat(a, [x], y, less);
    TiesConcat(a + b, [x], y, less);
    TiesConcat(a, b, y, less);
  }

  lemma InsertedTies<T>(s: seq<T>, x: T, y: T, less: Less<T>, u: set<T>)
    requires StrictWeakOrder(less, u) && Within(s, u) && x in u && y in u && Sorted(s, less)
    ensures Ties(Inserted(s, x, less), y, less) == Ties(s + [x], y, less)
  {
    var k := InsertAt(s, x, less);
    InsertAtBounds(s, x, less);
    var t := s[k..];
    if t != [] && Tie(less, x, y) {
      NoTiesAbove(t, x, y, less, u);
    }
    TiesOfInserted(s[..k], t, x, y, less);
    assert s == s[..k] + t;
  }

  /** Inserting into a sorted list keeps it sorted; `x` comes after the elements it ties with. */
  lemma InsertedSortedStable<T>(s: seq<T>, x: T, less: Less<T>, u: set<T>)
    requires StrictWeakOrder(less, u) && Within(s, u) && x in u && Sorted(s, less)
    ensures SortedStable(s + [x], Inserted(s, x, less), less)
  {
    hide StrictWeakOrder;
    hide Ties;
    hide Sorted;
    var k := InsertAt(s, x, less);
    ElementsOfParts(s[..k] + [x], s[k..], [x] + s[..k], s[k..]);
    assert s + [x] == s[..k] + s[k..] + [x];
    InsertedSorted(s, x, less, u);
    forall y | y in s + [x]
      ensures Ties(Inserted(s, x, less), y, less) == Ties(s + [x], y, less)
    {
      assert y in u;
      InsertedTies(s, x, y, less, u);
    }
  }

  // ----- Sorting by insertion, the reference for list_sort

  /** Every element of `s`, in turn, put in with list_insert_ordered. */
  function InsertAll<T>(s: seq<T>, less: Less<T>): (r: seq<T>)
    ensures |r| == |s|
  {
    if s == [] then [] else Inserted(InsertAll(s[..|s| - 1], less), s[|s| - 1], less)
  }

  lemma {:induction false} InsertAllElements<T>(s: seq<T>, less: Less<T>)
    ensures multiset(InsertAll(s, less)) == multiset(s)
  {
    if s != [] {
      var t, x := s[..|s| - 1], s[|s| - 1];
      InsertAllElements(t, less);
      var r := InsertAll(t, less);
      var k := InsertAt(r, x, less);
      assert r == r[..k] + r[k..];
      ElementsOfParts(r[..k] + [x], r[k..], [x] + r[..k], r[k..]);
      assert s == t + [x];
    }
  }

  lemma {:induction false} InsertAllSortedStable<T>(s: seq<T>, less: Less<T>, u: set<T>)
    requires StrictWeakOrder(less, u) && Within(s, u)
    ensures Sorted(InsertAll(s, less), less)
    ensures forall y | y in u :: Ties(InsertAll(s, less), y, less) == Ties(s, y, less)
  {
    if s != [] {
      var t, x := s[..|s| - 1], s[|s| - 1];
      InsertAllSortedStable(t, less, u);
      var r := InsertAll(t, less);
      InsertAllElements(t, less);
      SameElementsWithin(t, r, u);
      InsertedSorted(r, x, less, u);
      assert s == t + [x];
      forall y | y in u ensures Ties(Inserted(r, x, less), y, less) == Ties(s, y, less) {
        InsertedTies(r, x, y, less, u);
        TiesConcat(r, [x], y, less);
        TiesConcat(t, [x], y, less);
      }
    }
  }

  /** There is one sorted stable rearrangement of `s`: the one that insertion gives. */
  lemma SortedStableIsInsertAll<T>(s: seq<T>, r: seq<T>, less: Less<T>, u: set<T>)
    requires StrictWeakOrder(less, u) && Within(s, u)
    ensures SortedStable(s, r, less) <==> r == InsertAll(s, less)
  {
    InsertAllSortedStable(s, less, u);
    InsertAllElements(s, less);
    var q := InsertAll(s, less);
    assert forall x | x in s :: x in u;
    if SortedStable(s, r, less) {
      SameElementsWithin(s, r, u);
      forall x | x in r ensures Ties(r, x, less) == Ties(q, x, less) {
        assert x in multiset(s);
      }
      SortedStableUnique(r, q, less, u);
    }
  }
}
