/** Pieces laid end to end. */
module Pieces {

  function Flat<T>(ss: seq<seq<T>>): seq<T> {
    if ss == [] then [] else ss[0] + Flat(ss[1..])
  }

  ghost predicate AllOf<T>(ss: seq<seq<T>>, w: nat) {
    forall s | s in ss :: |s| == w
  }

  lemma {:induction false} FlatLength<T>(ss: seq<seq<T>>, w: nat)
    requires AllOf(ss, w)
    ensures |Flat(ss)| == |ss| * w
  {
    if ss != [] {
      FlatLength(ss[1..], w);
      OneMore(|ss| - 1, w);
    }
  }

  lemma OneMore(n: nat, w: nat)
    ensures (n + 1) * w == n * w + w
  {}

  lemma {:induction false} FlatSplit<T>(ss: seq<seq<T>>, ts: seq<seq<T>>)
    ensures Flat(ss + ts) == Flat(ss) + Flat(ts)
  {
    hide Flat;
    if ss == [] {
      FlatNothing<T>();
      assert ss + ts == ts;
    } else {
      FlatSplit(ss[1..], ts);
      assert (ss + ts)[1..] == ss[1..] + ts;
      FlatFirst(ss);
      FlatFirst(ss + ts);
      Regroup(ss[0], Flat(ss[1..]), Flat(ts));
    }
  }

  lemma FlatFirst<T>(ss: seq<seq<T>>)
    requires ss != []
    ensures Flat(ss) == ss[0] + Flat(ss[1..])
  {}

  lemma FlatNothing<T>()
    ensures Flat<T>([]) == []
  {}

  lemma Regroup<T>(a: seq<T>, b: seq<T>, c: seq<T>)
    ensures a + (b + c) == a + b + c
  {}

  /** Piece `i` stands after i * w elements. */
  lemma FlatAt<T>(ss: seq<seq<T>>, i: nat, w: nat)
    requires AllOf(ss, w) && i < |ss|
    ensures 0 <= i * w && i * w + w <= |Flat(ss)| == |ss| * w
    ensures Flat(ss) == Flat(ss[..i]) + ss[i] + Flat(ss[i + 1..])
    ensures |Flat(ss[..i])| == i * w && |ss[i]| == w
    ensures Flat(ss)[i * w..i * w + w] == ss[i]
  {
    FlatLength(ss, w);
    FlatLength(ss[..i], w);
    FlatSplit(ss[..i], ss[i..]);
    assert ss == ss[..i] + ss[i..];
    assert ss[i..][1..] == ss[i + 1..];
    assert |ss[i]| == w;
  }

  /** A stretch within one piece. */
  lemma FlatWithin<T>(ss: seq<seq<T>>, i: nat, w: nat, lo: nat, hi: nat)
    requires AllOf(ss, w) && i < |ss| && lo <= hi <= w
    ensures 0 <= i * w && i * w + w <= |Flat(ss)| == |ss| * w && |ss[i]| == w
    ensures Flat(ss)[i * w + lo..i * w + hi] == ss[i][lo..hi]
  {
    FlatAt(ss, i, w);
    Nested(Flat(ss), i * w, i * w + w, lo, hi);
  }

  lemma Nested<T>(s: seq<T>, a: nat, b: nat, lo: nat, hi: nat)
    requires a <= b <= |s| && lo <= hi <= b - a
    ensures s[a..b][lo..hi] == s[a + lo..a + hi]
  {
    var t, u := s[a..b][lo..hi], s[a + lo..a + hi];
    assert |t| == |u|;
    forall x | 0 <= x < |t| ensures t[x] == u[x] {}
  }

  /** `s` with `t` written at position `at`. */
  function Over<T>(s: seq<T>, at: nat, t: seq<T>): (r: seq<T>)
    requires at + |t| <= |s|
    ensures |r| == |s|
  {
    s[..at] + t + s[at + |t|..]
  }

  /** Writing within one piece writes within the whole. */
  lemma FlatOver<T>(ss: seq<seq<T>>, i: nat, w: nat, lo: nat, t: seq<T>)
    requires AllOf(ss, w) && i < |ss| && lo + |t| <= w
    ensures 0 <= i * w && |ss[i]| == w && i * w + w <= |Flat(ss)|
    ensures AllOf(ss[i := Over(ss[i], lo, t)], w)
    ensures Flat(ss[i := Over(ss[i], lo, t)]) == Over(Flat(ss), i * w + lo, t)
  {
    hide Flat;
    FlatAt(ss, i, w);
    SetOne(ss, i, w, lo, t);
    hide AllOf;
    hide Over;
    var r := ss[i := Over(ss[i], lo, t)];
    FlatAt(r, i, w);
    assert r[..i] == ss[..i] && r[i + 1..] == ss[i + 1..];
    OverMiddle(Flat(ss[..i]), ss[i], Flat(ss[i + 1..]), lo, t);
  }

  lemma SetOne<T>(ss: seq<seq<T>>, i: nat, w: nat, lo: nat, t: seq<T>)
    requires AllOf(ss, w) && i < |ss| && lo + |t| <= |ss[i]|
    ensures AllOf(ss[i := Over(ss[i], lo, t)], w)
  {}

  lemma OverMiddle<T>(a: seq<T>, b: seq<T>, c: seq<T>, lo: nat, t: seq<T>)
    requires lo + |t| <= |b|
    ensures a + Over(b, lo, t) + c == Over(a + b + c, |a| + lo, t)
  {
    var r := Over(a + b + c, |a| + lo, t);
    assert (a + b + c)[..|a| + lo] == a + b[..lo];
    assert (a + b + c)[|a| + lo + |t|..] == b[lo + |t|..] + c;
  }

  /** Writing one stretch after another. */
  lemma OverOver<T>(s: seq<T>, at: nat, t: seq<T>, u: seq<T>)
    requires at + |t| + |u| <= |s|
    ensures Over(Over(s, at, t), at + |t|, u) == Over(s, at, t + u)
  {
    var r := Over(s, at, t);
    assert r[..at + |t|] == s[..at] + t;
    assert r[at + |t| + |u|..] == s[at + |t| + |u|..];
  }

  lemma OverRead<T>(s: seq<T>, at: nat, t: seq<T>)
    requires at + |t| <= |s|
    ensures Over(s, at, t)[at..at + |t|] == t
    ensures forall x | 0 <= x < |s| && !(at <= x < at + |t|) :: Over(s, at, t)[x] == s[x]
  {}
}
