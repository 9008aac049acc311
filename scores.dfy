/** Score arithmetic shared by the hybrid ranker, the session loop and the theme
    extractor: min-max normalisation, minima and maxima, and the stable
    descending sort that Python's `list.sort(key=..., reverse=True)` performs. */
module Scores {

  function Min(a: real, b: real): real { if a <= b then a else b }
  function Max(a: real, b: real): real { if a >= b then a else b }

  /** The first components of a list of pairs, in order: the ids of documents, the
      names of ranked themes. */
  function Firsts<A, B>(pairs: seq<(A, B)>): (r: seq<A>)
    ensures |r| == |pairs|
    ensures forall i :: 0 <= i < |pairs| ==> r[i] == pairs[i].0
  {
    seq(|pairs|, i requires 0 <= i < |pairs| => pairs[i].0)
  }

  /** Min-max normalisation with the degenerate-range rule: a zero range gives 0.0. */
  function Norm(val: real, vmin: real, vmax: real): (r: real)
    ensures vmin <= val <= vmax ==> 0.0 <= r <= 1.0
    ensures vmin == vmax ==> r == 0.0
    ensures vmin < vmax && val == vmin ==> r == 0.0
    ensures vmin < vmax && val == vmax ==> r == 1.0
  {
    if vmax == vmin then 0.0
    else
      var d := vmax - vmin;
      assert (val - vmin) / d * d == val - vmin;
      (val - vmin) / d
  }

  /** Normalisation keeps the order of scores within one range. */
  lemma NormMonotone(a: real, b: real, vmin: real, vmax: real)
    requires vmin <= vmax && a <= b
    ensures Norm(a, vmin, vmax) <= Norm(b, vmin, vmax)
  {
    if vmin < vmax {
      var d := vmax - vmin;
      assert (b - vmin) / d - (a - vmin) / d == (b - a) / d;
    }
  }

  lemma MulBound(w: real, a: real)
    requires 0.0 <= w && 0.0 <= a <= 1.0
    ensures 0.0 <= w * a <= w
  {
    assert w * (1.0 - a) >= 0.0;
  }

  /** A weighted mix of two unit scores with a unit weight is a unit score. */
  lemma Convex(w: real, a: real, b: real)
    requires 0.0 <= w <= 1.0 && 0.0 <= a <= 1.0 && 0.0 <= b <= 1.0
    ensures 0.0 <= w * a + (1.0 - w) * b <= 1.0
  {
    var v := 1.0 - w;
    MulBound(w, a);
    MulBound(v, b);
    var x, y := w * a, v * b;
    assert x <= w && y <= v;
  }

  /** `min(xs)` of a non-empty list. */
  function SeqMin(xs: seq<real>): (m: real)
    requires xs != []
    ensures m in xs
    ensures forall i :: 0 <= i < |xs| ==> m <= xs[i]
  {
    if |xs| == 1 then xs[0] else Min(xs[0], SeqMin(xs[1..]))
  }

  /** `max(xs)` of a non-empty list. */
  function SeqMax(xs: seq<real>): (m: real)
    requires xs != []
    ensures m in xs
    ensures forall i :: 0 <= i < |xs| ==> xs[i] <= m
  {
    if |xs| == 1 then xs[0] else Max(xs[0], SeqMax(xs[1..]))
  }

  lemma NonEmpty(s: set<real>)
    requires s != {}
    ensures exists x :: x in s
  {
    if forall x :: x !in s { assert false; }
  }

  /** A non-empty finite set of reals has a least and a greatest element. */
  lemma {:induction false} HasExtremes(s: set<real>)
    requires s != {}
    ensures exists lo :: lo in s && forall y :: y in s ==> lo <= y
    ensures exists hi :: hi in s && forall y :: y in s ==> y <= hi
    decreases |s|
  {
    NonEmpty(s);
    var x :| x in s;
    if s != {x} {
      var rest := s - {x};
      HasExtremes(rest);
      var lo :| lo in rest && forall y :: y in rest ==> lo <= y;
      var hi :| hi in rest && forall y :: y in rest ==> y <= hi;
      var lo' := Min(x, lo);
      var hi' := Max(x, hi);
      forall y | y in s ensures lo' <= y <= hi' {
        if y != x { assert y in rest; }
      }
      assert lo' in s && hi' in s;
    } else {
      assert forall y :: y in s ==> y == x;
    }
  }

  /** `min(d.values())`: the least element of a non-empty set. */
  ghost function Least(s: set<real>): (lo: real)
    requires s != {}
    ensures lo in s && forall y :: y in s ==> lo <= y
  {
    HasExtremes(s);
    var lo :| lo in s && forall y :: y in s ==> lo <= y; lo
  }

  /** `max(d.values())`: the greatest element of a non-empty set. */
  ghost function Greatest(s: set<real>): (hi: real)
    requires s != {}
    ensures hi in s && forall y :: y in s ==> y <= hi
  {
    HasExtremes(s);
    var hi :| hi in s && forall y :: y in s ==> y <= hi; hi
  }

  /** Python's `min`/`max` over a set of values, one element at a time. */
  method MinMax(values: set<real>) returns (lo: real, hi: real)
    requires values != {}
    ensures lo == Least(values) && hi == Greatest(values)
  {
    NonEmpty(values);
    var x :| x in values;
    lo, hi := x, x;
    var rest := values - {x};
    while rest != {}
      invariant rest <= values
      invariant lo in values && hi in values
      invariant forall y :: y in values && y !in rest ==> lo <= y <= hi
      decreases |rest|
    {
      NonEmpty(rest);
      var y :| y in rest;
      if y < lo { lo := y; }
      if y > hi { hi := y; }
      rest := rest - {y};
    }
  }

  // ---------------------------------------------------------------------------
  // Stable descending sort on (item, score) pairs

  ghost predicate SortedDesc<T>(s: seq<(T, real)>) {
    forall i, j :: 0 <= i < j < |s| ==> s[i].1 >= s[j].1
  }

  /** The entries of `s` whose score is `v`, in order. */
  function WithScore<T>(s: seq<(T, real)>, v: real): (r: seq<(T, real)>)
    ensures |r| <= |s|
  {
    if s == [] then [] else (if s[0].1 == v then [s[0]] else []) + WithScore(s[1..], v)
  }

  lemma {:induction false} WithScoreAppend<T>(a: seq<(T, real)>, b: seq<(T, real)>, v: real)
    ensures WithScore(a + b, v) == WithScore(a, v) + WithScore(b, v)
    decreases |a|
  {
    if a != [] {
      assert (a + b)[0] == a[0];
      assert (a + b)[1..] == a[1..] + b;
      WithScoreAppend(a[1..], b, v);
    } else {
      assert a + b == b;
    }
  }

  lemma {:induction false} WithScoreAbsent<T>(s: seq<(T, real)>, v: real)
    requires forall i :: 0 <= i < |s| ==> s[i].1 != v
    ensures WithScore(s, v) == []
    decreases |s|
  {
    if s != [] { WithScoreAbsent(s[1..], v); }
  }

  /** Insert `x` after every entry whose score is at least its own, as a stable sort does. */
  function InsertDesc<T>(x: (T, real), s: seq<(T, real)>): (r: seq<(T, real)>)
    ensures |r| == |s| + 1
    ensures multiset(r) == multiset(s) + multiset{x}
  {
    if s == [] then [x]
    else if s[0].1 >= x.1 then
      assert s == [s[0]] + s[1..];
      [s[0]] + InsertDesc(x, s[1..])
    else [x] + s
  }

  lemma {:induction false} InsertDescSorted<T>(x: (T, real), s: seq<(T, real)>)
    requires SortedDesc(s)
    ensures SortedDesc(InsertDesc(x, s))
    decreases |s|
  {
    if s != [] && s[0].1 >= x.1 {
      InsertDescSorted(x, s[1..]);
      var r := InsertDesc(x, s);
      assert r == [s[0]] + InsertDesc(x, s[1..]);
      forall j | 0 < j < |r| ensures r[0].1 >= r[j].1 {
        var e := r[j];
        assert e in multiset(InsertDesc(x, s[1..]));
        assert e == x || e in multiset(s[1..]);
      }
    }
  }

  lemma {:induction false} InsertDescWithScore<T>(x: (T, real), s: seq<(T, real)>, v: real)
    requires SortedDesc(s)
    ensures WithScore(InsertDesc(x, s), v) == WithScore(s, v) + WithScore([x], v)
    decreases |s|
  {
    if s == [] {
      assert InsertDesc(x, s) == [x];
    } else if s[0].1 >= x.1 {
      assert SortedDesc(s[1..]);
      InsertDescWithScore(x, s[1..], v);
      assert InsertDesc(x, s) == [s[0]] + InsertDesc(x, s[1..]);
      InsertBehind(s, InsertDesc(x, s[1..]), x, v);
    } else {
      InsertInFront(x, s, v);
    }
  }

  /** Putting the head back in front of a list whose scored-`v` entries are those of the tail
      followed by `x`'s gives those of the whole list followed by `x`'s. */
  lemma InsertBehind<T>(s: seq<(T, real)>, rest: seq<(T, real)>, x: (T, real), v: real)
    requires s != []
    requires WithScore(rest, v) == WithScore(s[1..], v) + WithScore([x], v)
    ensures WithScore([s[0]] + rest, v) == WithScore(s, v) + WithScore([x], v)
  {
    var ins := [s[0]] + rest;
    assert ins[0] == s[0] && ins[1..] == rest;
    var a := if s[0].1 == v then [s[0]] else [];
    var b, c := WithScore(s[1..], v), WithScore([x], v);
    assert WithScore(ins, v) == a + (b + c);
    assert WithScore(s, v) == a + b;
    assert a + (b + c) == (a + b) + c;
  }

  /** Inserting in front of a sorted list whose head scores lower: an entry scored `v`
      there has nothing scored `v` behind it. */
  lemma InsertInFront<T>(x: (T, real), s: seq<(T, real)>, v: real)
    requires SortedDesc(s) && s != [] && s[0].1 < x.1
    ensures WithScore(InsertDesc(x, s), v) == WithScore(s, v) + WithScore([x], v)
  {
    WithScoreSingle(x, v);
    assert InsertDesc(x, s) == [x] + s;
    WithScoreAppend([x], s, v);
    if x.1 == v {
      assert forall i :: 0 <= i < |s| ==> s[i].1 <= s[0].1;
      WithScoreAbsent(s, v);
      assert [x] + [] == [] + [x];
    } else {
      assert [] + WithScore(s, v) == WithScore(s, v) + [];
    }
  }

  lemma WithScoreSingle<T>(x: (T, real), v: real)
    ensures WithScore([x], v) == if x.1 == v then [x] else []
  {
    assert [x][1..] == [];
  }

  lemma {:induction false} InsertDescDistinct<T>(x: (T, real), s: seq<(T, real)>)
    requires forall i, j :: 0 <= i < j < |s| ==> s[i].0 != s[j].0
    requires forall i :: 0 <= i < |s| ==> s[i].0 != x.0
    ensures forall i, j :: 0 <= i < j < |InsertDesc(x, s)| ==> InsertDesc(x, s)[i].0 != InsertDesc(x, s)[j].0
    decreases |s|
  {
    if s != [] && s[0].1 >= x.1 {
      InsertDescDistinct(x, s[1..]);
      var t := InsertDesc(x, s[1..]);
      forall e | e in t ensures e.0 != s[0].0 {
        assert e in multiset(t);
        assert e == x || e in multiset(s[1..]);
      }
    }
  }

  /** `xs.sort(key=score, reverse=True)`, an insertion sort of the entries taken left to right. */
  function SortDesc<T>(xs: seq<(T, real)>): (r: seq<(T, real)>)
    ensures |r| == |xs|
    ensures multiset(r) == multiset(xs)
  {
    if xs == [] then []
    else
      assert xs == xs[..|xs| - 1] + [xs[|xs| - 1]];
      InsertDesc(xs[|xs| - 1], SortDesc(xs[..|xs| - 1]))
  }

  /** The sort result is ordered by non-increasing score. */
  lemma {:induction false} SortDescSorted<T>(xs: seq<(T, real)>)
    ensures SortedDesc(SortDesc(xs))
    decreases |xs|
  {
    if xs != [] {
      SortDescSorted(xs[..|xs| - 1]);
      InsertDescSorted(xs[|xs| - 1], SortDesc(xs[..|xs| - 1]));
    }
  }

  /** Stability: the entries sharing one score keep their input order. */
  lemma {:induction false} SortDescStable<T>(xs: seq<(T, real)>, v: real)
    ensures WithScore(SortDesc(xs), v) == WithScore(xs, v)
    decreases |xs|
  {
    if xs != [] {
      var init := xs[..|xs| - 1];
      var x := xs[|xs| - 1];
      assert xs == init + [x];
      assert SortDesc(xs) == InsertDesc(x, SortDesc(init));
      SortDescStable(init, v);
      SortDescSorted(init);
      InsertDescWithScore(x, SortDesc(init), v);
      WithScoreAppend(init, [x], v);
    }
  }

  /** Entries with distinct items stay distinct. */
  lemma {:induction false} SortDescDistinct<T>(xs: seq<(T, real)>)
    requires forall i, j :: 0 <= i < j < |xs| ==> xs[i].0 != xs[j].0
    ensures forall i, j :: 0 <= i < j < |SortDesc(xs)| ==> SortDesc(xs)[i].0 != SortDesc(xs)[j].0
    decreases |xs|
  {
    if xs != [] {
      var init := xs[..|xs| - 1];
      var x := xs[|xs| - 1];
      SortDescDistinct(init);
      var s := SortDesc(init);
      forall i | 0 <= i < |s| ensures s[i].0 != x.0 {
        assert s[i] in multiset(init);
      }
      InsertDescDistinct(x, s);
    }
  }

  /** The first entry with score `v` heads `WithScore(s, v)`. */
  lemma {:induction false} FirstWithScore<T>(s: seq<(T, real)>, v: real, e: (T, real)) returns (i: nat)
    requires e in s && e.1 == v
    ensures i < |s| && s[i].1 == v && WithScore(s, v) != [] && WithScore(s, v)[0] == s[i]
    ensures forall j :: 0 <= j < i ==> s[j].1 != v
    decreases |s|
  {
    if s[0].1 == v {
      i := 0;
    } else {
      var k := FirstWithScore(s[1..], v, e);
      i := k + 1;
    }
  }

  /** The front of a sorted list has the greatest score. */
  lemma SortedFrontIsGreatest<T>(xs: seq<(T, real)>)
    requires xs != []
    ensures forall j :: 0 <= j < |xs| ==> xs[j].1 <= SortDesc(xs)[0].1
  {
    var sorted := SortDesc(xs);
    SortDescSorted(xs);
    forall j | 0 <= j < |xs| ensures xs[j].1 <= sorted[0].1 {
      assert xs[j] in multiset(sorted);
    }
  }

  /** The front of the stable sort is the first entry with the greatest score. */
  lemma SortDescFrontIsFirstMaximal<T>(xs: seq<(T, real)>)
    requires xs != []
    ensures exists i :: 0 <= i < |xs| && SortDesc(xs)[0] == xs[i] &&
              (forall j :: 0 <= j < |xs| ==> xs[j].1 <= xs[i].1) &&
              (forall j :: 0 <= j < i ==> xs[j].1 < xs[i].1)
  {
    var sorted := SortDesc(xs);
    var top := sorted[0];
    assert top in multiset(xs);
    SortedFrontIsGreatest(xs);
    var i := FirstWithScore(xs, top.1, top);
    SortDescStable(xs, top.1);
    assert WithScore(sorted, top.1)[0] == top;
  }
}
