/** list_unique (kernel/list.c): of adjacent elements that tie, all but the first leave the list. */
module ListUnique {
  import opened OrderedSeqs
  import opened LinkedList

  // ----- What stays and what goes

  /** `x` stays; of `s`, what follows it, an element goes if it ties with the last that stays. */
  function Kept<T>(x: T, s: seq<T>, less: Less<T>): (r: seq<T>)
    ensures r != [] && r[0] == x
  {
    if s == [] then [x]
    else if Tie(less, x, s[0]) then Kept(x, s[1..], less)
    else [x] + Kept(s[0], s[1..], less)
  }

  function Dropped<T>(x: T, s: seq<T>, less: Less<T>): seq<T> {
    if s == [] then []
    else if Tie(less, x, s[0]) then [s[0]] + Dropped(x, s[1..], less)
    else Dropped(s[0], s[1..], less)
  }

  lemma {:induction false} NothingLost<T>(x: T, s: seq<T>, less: Less<T>)
    ensures multiset(Kept(x, s, less)) + multiset(Dropped(x, s, less)) == multiset([x] + s)
  {
    hide Tie;
    hide Kept;
    hide Dropped;
    if s == [] {
      NoMore(x, less);
      ConsElements(x, []);
    } else {
      var y, t := s[0], s[1..];
      assert s == [y] + t;
      KeptStep(x, s, less);
      ConsElements(x, s);
      ConsElements(y, t);
      if Tie(less, x, y) {
        NothingLost(x, t, less);
        ConsElements(x, t);
        ConsElements(y, Dropped(x, t, less));
        OneEach(multiset(Kept(x, t, less)), multiset(Dropped(x, t, less)), x, y, multiset(t));
      } else {
        NothingLost(y, t, less);
        ConsElements(x, Kept(y, t, less));
        OneEach(multiset(Dropped(y, t, less)), multiset(Kept(y, t, less)), y, x, multiset(t));
      }
    }
  }

  lemma ConsElements<T>(x: T, t: seq<T>)
    ensures multiset([x] + t) == multiset{x} + multiset(t)
  {}

  lemma OneEach<T>(a: multiset<T>, b: multiset<T>, x: T, y: T, t: multiset<T>)
    requires a + b == multiset{x} + t || b + a == multiset{x} + t
    ensures a + (multiset{y} + b) == multiset{x} + (multiset{y} + t) == multiset{y} + (multiset{x} + t)
    ensures (multiset{y} + b) + a == multiset{x} + (multiset{y} + t)
  {}

  /** No two adjacent elements tie any more, whatever the comparison. */
  lemma {:induction false} KeptApart<T>(x: T, s: seq<T>, less: Less<T>, i: nat)
    requires i + 1 < |Kept(x, s, less)|
    ensures !Tie(less, Kept(x, s, less)[i], Kept(x, s, less)[i + 1])
    decreases |s|
  {
    if Tie(less, x, s[0]) {
      KeptApart(x, s[1..], less, i);
    } else if i > 0 {
      KeptApart(s[0], s[1..], less, i - 1);
    }
  }

  /** Of a sorted list, the first of all the elements that tie with `y` stays, and no other of them. */
  lemma {:induction false} KeptFirst<T>(x: T, s: seq<T>, y: T, less: Less<T>, u: set<T>)
    requires StrictWeakOrder(less, u) && Within([x] + s, u) && y in u && Sorted([x] + s, less)
    ensures Ties(Kept(x, s, less), y, less) == FirstOf(Ties([x] + s, y, less))
    decreases |s|
  {
    TiesCons(x, s, y, less);
    if s != [] {
      var t := s[1..];
      SortedParts(x, s, less, u);
      assert s == [s[0]] + t;
      if Tie(less, x, s[0]) {
        KeptFirst(x, t, y, less, u);
        TiesCons(x, t, y, less);
        TiesCons(s[0], t, y, less);
      } else {
        KeptFirst(s[0], t, y, less, u);
        TiesCons(x, Kept(s[0], t, less), y, less);
        if Tie(less, x, y) {
          NoTiesAbove(s, x, y, less, u);
        }
      }
    }
  }

  function FirstOf<T>(s: seq<T>): seq<T> {
    if s == [] then [] else [s[0]]
  }

  lemma SortedParts<T>(x: T, s: seq<T>, less: Less<T>, u: set<T>)
    requires StrictWeakOrder(less, u) && Within([x] + s, u) && s != [] && Sorted([x] + s, less)
    ensures Sorted(s, less) && Within(s, u) && x in u && !less(s[0], x)
    ensures Sorted([x] + s[1..], less) && Within([x] + s[1..], u)
  {
    var all := [x] + s;
    forall i | 0 <= i < |s| ensures s[i] in u && (i > 0 ==> !less(s[i], s[i - 1])) {
      assert all[i + 1] == s[i] && (i > 0 ==> all[i] == s[i - 1]);
    }
    assert all[0] in u && !less(all[1], all[0]);
    SortedParts2(x, s, less, u);
  }

  lemma SortedParts2<T>(x: T, s: seq<T>, less: Less<T>, u: set<T>)
    requires StrictWeakOrder(less, u) && Within(s, u) && x in u && s != [] && Sorted(s, less) && !less(s[0], x)
    ensures Sorted([x] + s[1..], less) && Within([x] + s[1..], u)
  {
    if |s| > 1 {
      assert !less(s[1], s[0]);
    }
    SortedTail(s, less);
    SortedCons(x, s[1..], less);
  }

  lemma SortedTail<T>(s: seq<T>, less: Less<T>)
    requires s != [] && Sorted(s, less)
    ensures Sorted(s[1..], less)
  {}

  // ----- The method

  ghost function Owned(list: List): (o: set<object>)
    reads list
    ensures list in o && forall e | e in list.Whole() :: e in o
  {
    {list} + set e: object | e in list.Whole()
  }

  ghost function Footprint(list: List, dups: List?): set<object>
    reads list
    reads if dups == null then {} else {dups}
  {
    Owned(list) + if dups == null then {} else Owned(dups)
  }

  ghost predicate TwoLists(list: List, dups: List?)
    reads Footprint(list, dups)
  {
    list.Valid() && (dups != null ==> dups.Valid() && dups != list && Disjoint(list.Whole(), dups.Whole()))
  }

  twostate lemma ValidKept(list: List)
    requires old(list.Valid()) && unchanged(list) && forall e | e in old(list.Whole()) :: unchanged(e)
    ensures list.Valid()
  {
    var w := list.Whole();
    forall i | 0 <= i < |w| ensures unchanged(w[i]) {
      assert w[i] in w;
    }
  }

  ghost predicate Disjoint(v: seq<Elem>, w: seq<Elem>) {
    forall e | e in v :: e !in w
  }

  lemma Whereabouts(list: List, k: nat)
    requires list.Valid() && k < |list.elems|
    ensures list.elems[k].next == (list.elems[k + 1..] + [list.tail])[0] && list.elems[k] != list.tail
  {
    hide Chain;
    var w := list.Whole();
    ChainLinks(w, k + 1);
    ChainDistinct(w, k + 1, |w| - 1);
    assert w[k + 1] == list.elems[k] && w[k + 2] == (list.elems[k + 1..] + [list.tail])[0];
  }

  lemma OutsideIfRemoved(w: seq<Elem>, k: nat)
    requires Chain(w) && k < |w|
    ensures w[k] !in RemovedAt(w, k)
  {}

  /** The element at `k` goes to the end of `dups`. */
  method MoveTo(list: List, dups: List, ghost k: nat, elem: Elem)
    requires TwoLists(list, dups) && k < |list.elems| && elem == list.elems[k]
    modifies Footprint(list, dups)
    ensures TwoLists(list, dups)
    ensures list.elems == old(list.elems[..k] + list.elems[k + 1..])
    ensures dups.elems == old(dups.elems) + [elem]
    ensures Footprint(list, dups) <= old(Footprint(list, dups))
  {
    ghost var w, d := list.Whole(), dups.Whole();
    OutsideIfRemoved(w, k + 1);
    hide Chain;
    hide List.Valid;
    assert w[k + 1] == elem;
    assert elem in w && elem !in d;
    label before:
    var _ := list.Remove(k, elem);
    ghost var r := list.Whole();
    assert r == RemovedAt(w, k + 1);
    assert forall e | e in r :: e in w && e != elem;
    ValidKept@before(dups);
    label between:
    dups.PushBack(elem);
    ValidKept@between(list);
    assert forall e | e in dups.Whole() :: e in d || e == elem;
  }

  /** The same where there may be no such list. */
  method MoveOut(list: List, dups: List?, ghost k: nat, elem: Elem)
    requires TwoLists(list, dups) && k < |list.elems| && elem == list.elems[k]
    modifies Footprint(list, dups)
    ensures TwoLists(list, dups)
    ensures list.elems == old(list.elems[..k] + list.elems[k + 1..])
    ensures dups != null ==> dups.elems == old(dups.elems) + [elem]
    ensures Footprint(list, dups) <= old(Footprint(list, dups))
  {
    hide Chain;
    hide List.Valid;
    if dups != null {
      MoveTo(list, dups, k, elem);
    } else {
      ghost var w := list.Whole();
      var _ := list.Remove(k, elem);
      assert list.Whole() == RemovedAt(w, k + 1);
    }
  }

  lemma Mine(list: List, dups: List?)
    requires TwoLists(list, dups)
    ensures list.Valid()
  {}

  lemma KeptStep<T>(x: T, s: seq<T>, less: Less<T>)
    requires s != []
    ensures Tie(less, x, s[0]) ==> Kept(x, s, less) == Kept(x, s[1..], less)
                                   && Dropped(x, s, less) == [s[0]] + Dropped(x, s[1..], less)
    ensures !Tie(less, x, s[0]) ==> Kept(x, s, less) == [x] + Kept(s[0], s[1..], less)
                                    && Dropped(x, s, less) == Dropped(s[0], s[1..], less)
  {}

  /** list_unique */
  method Unique(list: List, dups: List?, less: Less<Elem>)
    requires TwoLists(list, dups)
    modifies Footprint(list, dups)
    ensures TwoLists(list, dups)
    ensures list.elems == if old(list.elems) == [] then [] else Kept(old(list.elems)[0], old(list.elems)[1..], less)
    ensures dups != null ==>
              dups.elems == old(dups.elems) + (if old(list.elems) == [] then []
                  else Dropped(old(list.elems)[0], old(list.elems)[1..], less))
  {
    hide Chain;
    hide TwoLists;
    hide Footprint;
    hide Kept;
    hide Dropped;
    hide List.Valid;
    ghost var s := list.elems;
    Mine(list, dups);
    FirstNext(list);
    if list.head.next == list.tail {
      return;
    }
    var elem: Elem := list.head.next;
    ghost var k: nat, before: seq<Elem> := 0, if dups == null then [] else dups.elems;
    NextIs(list, k, elem);
    var next: Elem := elem.next;
    while next != list.tail
      invariant TwoLists(list, dups) && k < |list.elems| && elem == list.elems[k]
      invariant next == list.tail <==> k + 1 == |list.elems|
      invariant k + 1 < |list.elems| ==> next == list.elems[k + 1]
      invariant ToKeep(list, k, less) == Kept(s[0], s[1..], less)
      invariant dups != null ==> ToDrop(list, dups, k, less) == before + Dropped(s[0], s[1..], less)
      invariant Footprint(list, dups) <= old(Footprint(list, dups))
      decreases |list.elems| - k
    {
      k, elem := OneStep(list, dups, k, elem, next, less);
      Mine(list, dups);
      NextIs(list, k, elem);
      next := elem.next;
    }
    NoMore(elem, less);
    assert list.elems[k + 1..] == [] && list.elems[..k] + [elem] == list.elems;
  }

  /** What will be kept, and what goes to `dups`, where the loop stands at element `k`. */
  ghost function ToKeep(list: List, k: nat, less: Less<Elem>): seq<Elem>
    requires k < |list.elems|
    reads list
  {
    list.elems[..k] + Kept(list.elems[k], list.elems[k + 1..], less)
  }

  ghost function ToDrop(list: List, dups: List?, k: nat, less: Less<Elem>): seq<Elem>
    requires k < |list.elems|
    reads list, if dups == null then {} else {dups}
  {
    (if dups == null then [] else dups.elems) + Dropped(list.elems[k], list.elems[k + 1..], less)
  }

  /** The body of the loop: either the next element goes, or it is the next to look at. */
  method OneStep(list: List, dups: List?, ghost k: nat, elem: Elem, next: Elem, less: Less<Elem>)
      returns (ghost i: nat, e: Elem)
    requires TwoLists(list, dups) && k + 1 < |list.elems| && elem == list.elems[k] && next == list.elems[k + 1]
    modifies Footprint(list, dups)
    ensures TwoLists(list, dups) && i < |list.elems| && e == list.elems[i] && |list.elems| - i < |old(list.elems)| - k
    ensures ToKeep(list, i, less) == old(ToKeep(list, k, less))
    ensures dups != null ==> ToDrop(list, dups, i, less) == old(ToDrop(list, dups, k, less))
    ensures Footprint(list, dups) <= old(Footprint(list, dups))
  {
    hide Chain;
    hide TwoLists;
    hide Footprint;
    hide Kept;
    hide Dropped;
    hide List.Valid;
    KeptStep(elem, list.elems[k + 1..], less);
    Around(list.elems, k);
    if !less(elem, next) && !less(next, elem) {
      MoveOut(list, dups, k + 1, next);
      i, e := k, elem;
    } else {
      i, e := k + 1, next;
    }
  }

  lemma NextIs(list: List, k: nat, elem: Elem)
    requires list.Valid() && k < |list.elems| && elem == list.elems[k]
    ensures elem.next != null && (elem.next == list.tail <==> k + 1 == |list.elems|)
    ensures k + 1 < |list.elems| ==> elem.next == list.elems[k + 1]
  {
    Whereabouts(list, k);
    if k + 1 < |list.elems| {
      Whereabouts(list, k + 1);
    }
  }

  lemma Around<T>(e: seq<T>, k: nat)
    requires k + 1 < |e|
    ensures e[k + 1..][0] == e[k + 1] && e[k + 1..][1..] == e[k + 2..] && e[..k + 1] == e[..k] + [e[k]]
    ensures var f := e[..k + 1] + e[k + 2..]; f[..k] == e[..k] && f[k] == e[k] && f[k + 1..] == e[k + 2..]
  {}

  lemma NoMore<T>(x: T, less: Less<T>)
    ensures Kept(x, [], less) == [x] && Dropped(x, [], less) == []
  {}

  lemma FirstNext(list: List)
    requires list.Valid()
    ensures list.head.next == if list.elems == [] then list.tail else list.elems[0]
    ensures list.elems != [] ==> list.elems[0] != list.tail && list.elems == [list.elems[0]] + list.elems[1..]
  {
    hide Chain;
    var w := list.Whole();
    ChainLinks(w, 0);
    ChainDistinct(w, 1, |w| - 1);
  }
}
