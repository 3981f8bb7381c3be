/** Shared vocabulary: optional values, filtering, grouping by key and stable sorting of sequences.
    Everything recurses on the last element, because the loops modelled elsewhere run left to right. */
module Basics {

  datatype Option<+T> = None | Some(value: T)

  datatype Result<+T, +E> = Ok(value: T) | Err(error: E)

  function Map<T, U>(f: T -> U, xs: seq<T>): (ys: seq<U>)
    ensures |ys| == |xs|
    ensures forall i :: 0 <= i < |xs| ==> ys[i] == f(xs[i])
  {
    seq(|xs|, i requires 0 <= i < |xs| => f(xs[i]))
  }

  /** The elements of xs that satisfy p, in order. */
  function Filter<T(!new)>(xs: seq<T>, p: T -> bool): (ys: seq<T>)
    ensures |ys| <= |xs|
  {
    if xs == [] then []
    else
      var n := |xs| - 1;
      if p(xs[n]) then Filter(xs[..n], p) + [xs[n]] else Filter(xs[..n], p)
  }

  /** The elements of xs whose key (in the parallel list ks) is k, in order. */
  function Pick<T, K(==)>(xs: seq<T>, ks: seq<K>, k: K): (ys: seq<T>)
    requires |xs| == |ks|
    ensures |ys| <= |xs|
    ensures forall y :: y in ys ==> y in xs
  {
    if xs == [] then []
    else
      var n := |xs| - 1;
      if ks[n] == k then Pick(xs[..n], ks[..n], k) + [xs[n]] else Pick(xs[..n], ks[..n], k)
  }

  /** The last element of xs whose key is k. */
  function LastWith<T, K(==)>(xs: seq<T>, ks: seq<K>, k: K): (r: Option<T>)
    requires |xs| == |ks|
    ensures r.Some? <==> k in ks
    ensures r.Some? ==> exists i :: 0 <= i < |xs| && ks[i] == k && r.value == xs[i]
  {
    if xs == [] then None
    else
      var n := |xs| - 1;
      if ks[n] == k then Some(xs[n])
      else
        var r := LastWith(xs[..n], ks[..n], k);
        assert forall j :: 0 <= j < n ==> ks[..n][j] == ks[j] && xs[..n][j] == xs[j];
        r
  }

  /** The distinct elements of xs, in order of first appearance. */
  function FirstAppearances<T(==,!new)>(xs: seq<T>): (ys: seq<T>)
    ensures forall y :: y in ys <==> y in xs
    ensures Distinct(ys)
  {
    if xs == [] then []
    else
      var last := xs[|xs| - 1];
      var init := xs[..|xs| - 1];
      assert xs == init + [last];
      var ys := FirstAppearances(init);
      if last in ys then ys else ys + [last]
  }

  ghost predicate Distinct<T(!new)>(xs: seq<T>) {
    forall i, j :: 0 <= i < j < |xs| ==> xs[i] != xs[j]
  }

  // ---- laws of Filter ----

  lemma {:induction false} FilterMember<T(!new)>(xs: seq<T>, p: T -> bool, y: T)
    ensures y in Filter(xs, p) <==> y in xs && p(y)
  {
    if xs != [] {
      var n := |xs| - 1;
      FilterMember(xs[..n], p, y);
      assert xs == xs[..n] + [xs[n]];
    }
  }

  lemma {:induction false} FilterSame<T(!new)>(xs: seq<T>, p: T -> bool, q: T -> bool)
    requires forall x :: x in xs ==> p(x) == q(x)
    ensures Filter(xs, p) == Filter(xs, q)
  {
    if xs != [] {
      FilterSame(xs[..|xs| - 1], p, q);
    }
  }

  lemma {:induction false} FilterAll<T(!new)>(xs: seq<T>, p: T -> bool)
    requires forall x :: x in xs ==> p(x)
    ensures Filter(xs, p) == xs
  {
    if xs != [] {
      var n := |xs| - 1;
      FilterAll(xs[..n], p);
      assert xs == xs[..n] + [xs[n]];
    }
  }

  lemma {:induction false} FilterNone<T(!new)>(xs: seq<T>, p: T -> bool)
    requires forall x :: x in xs ==> !p(x)
    ensures Filter(xs, p) == []
  {
    if xs != [] {
      FilterNone(xs[..|xs| - 1], p);
    }
  }

  lemma {:induction false} FilterSnoc<T(!new)>(xs: seq<T>, x: T, p: T -> bool)
    ensures Filter(xs + [x], p) == if p(x) then Filter(xs, p) + [x] else Filter(xs, p)
  {
    assert (xs + [x])[..|xs + [x]| - 1] == xs;
  }

  lemma {:induction false} FilterConcat<T(!new)>(xs: seq<T>, ys: seq<T>, p: T -> bool)
    ensures Filter(xs + ys, p) == Filter(xs, p) + Filter(ys, p)
  {
    if ys == [] {
      assert xs + ys == xs;
    } else {
      var init, last := ys[..|ys| - 1], ys[|ys| - 1];
      FilterConcat(xs, init, p);
      FilterConcatSnoc(xs, init, last, p);
      assert ys == init + [last];
    }
  }

  lemma {:induction false} FilterConcatSnoc<T(!new)>(xs: seq<T>, ys: seq<T>, y: T, p: T -> bool)
    requires Filter(xs + ys, p) == Filter(xs, p) + Filter(ys, p)
    ensures Filter(xs + (ys + [y]), p) == Filter(xs, p) + Filter(ys + [y], p)
  {
    hide Filter;
    FilterSnoc(ys, y, p);
    FilterSnoc(xs + ys, y, p);
    assert xs + (ys + [y]) == (xs + ys) + [y];
  }

  /** Two filters act as their conjunction. */
  lemma {:induction false} FilterFilter<T(!new)>(xs: seq<T>, p: T -> bool, q: T -> bool, both: T -> bool)
    requires forall x :: x in xs ==> both(x) == (p(x) && q(x))
    ensures Filter(Filter(xs, p), q) == Filter(xs, both)
  {
    if xs != [] {
      var n := |xs| - 1;
      FilterFilter(xs[..n], p, q, both);
      if p(xs[n]) {
        FilterSnoc(Filter(xs[..n], p), xs[n], q);
      }
    }
  }

  /** The kept elements in terms of their positions: all of them, once, in order. */
  lemma {:induction false} FilterPositions<T(!new)>(xs: seq<T>, p: T -> bool) returns (at: seq<nat>)
    ensures |at| == |Filter(xs, p)|
    ensures forall k :: 0 <= k < |at| ==> at[k] < |xs| && p(xs[at[k]]) && Filter(xs, p)[k] == xs[at[k]]
    ensures forall k, l :: 0 <= k < l < |at| ==> at[k] < at[l]
    ensures forall i :: 0 <= i < |xs| && p(xs[i]) ==> i in at
  {
    at := [];
    if xs != [] {
      var n := |xs| - 1;
      at := FilterPositions(xs[..n], p);
      if p(xs[n]) {
        at := at + [n];
      }
    }
  }

  /** A list along which p, once true, stays true is its p-less part followed by its p-part. */
  lemma {:induction false} FilterSplit<T(!new)>(xs: seq<T>, p: T -> bool, not: T -> bool)
    requires forall x :: x in xs ==> not(x) == !p(x)
    requires forall i, j :: 0 <= i < j < |xs| && p(xs[i]) ==> p(xs[j])
    ensures Filter(xs, not) + Filter(xs, p) == xs
  {
    if xs != [] {
      var n := |xs| - 1;
      FilterSplit(xs[..n], p, not);
      if !p(xs[n]) {
        FilterNone(xs[..n], p);
      }
      assert xs == xs[..n] + [xs[n]];
    }
  }
}
