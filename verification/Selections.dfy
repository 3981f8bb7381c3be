/** Queries over one table: filter by predicates, sort stably by the order options, then apply offset and limit. */
module Selections {
  import opened Basics

  // ---- stable sorting ----

  /** Lexicographic comparison by the keys from position i on. */
  predicate Less<R>(keys: seq<R -> int>, i: nat, a: R, b: R)
    requires i <= |keys|
    decreases |keys| - i
  {
    i < |keys| && (keys[i](a) < keys[i](b) || (keys[i](a) == keys[i](b) && Less(keys, i + 1, a, b)))
  }

  function Below<R>(keys: seq<R -> int>, x: R): R -> bool {
    (y: R) => Less(keys, 0, x, y)
  }

  function NotBelow<R>(keys: seq<R -> int>, x: R): R -> bool {
    (y: R) => !Less(keys, 0, x, y)
  }

  /** x goes behind everything that does not have to come after it. */
  function Insert<R(!new)>(sorted: seq<R>, keys: seq<R -> int>, x: R): seq<R> {
    Filter(sorted, NotBelow(keys, x)) + [x] + Filter(sorted, Below(keys, x))
  }

  function StableSort<R(!new)>(rows: seq<R>, keys: seq<R -> int>): seq<R> {
    if rows == [] then []
    else
      var n := |rows| - 1;
      Insert(StableSort(rows[..n], keys), keys, rows[n])
  }

  // ---- selections ----

  /** What one query builder asks of its table. */
  datatype Selection<C(==), !R(!new)> = Selection(
    fields: seq<C>, preds: seq<R -> bool>, order: seq<R -> int>, limit: Option<nat>, offset: Option<nat>)
  {
    predicate Holds(r: R) {
      forall i :: 0 <= i < |preds| ==> preds[i](r)
    }

    function Test(): R -> bool {
      (r: R) => Holds(r)
    }

    function Where(p: R -> bool): Selection<C, R> {
      this.(preds := preds + [p])
    }

    /** An explicit projection is extended, the default one already has every column. */
    function NeedField(c: C): Selection<C, R> {
      if fields == [] || c in fields then this else this.(fields := fields + [c])
    }

    /** A zero limit or offset is the same as none. */
    predicate Unlimited() {
      (limit.None? || limit.value == 0) && (offset.None? || offset.value == 0)
    }

    function Window(rows: seq<R>): (page: seq<R>)
      ensures Unlimited() ==> page == rows
      ensures forall r :: r in page ==> r in rows
    {
      var start := if offset.None? then 0 else if offset.value < |rows| then offset.value else |rows|;
      var rest := rows[start..];
      if limit.None? || limit.value == 0 || |rest| <= limit.value then rest else rest[..limit.value]
    }

    function Matching(rows: seq<R>): seq<R> {
      StableSort(Filter(rows, Test()), order)
    }

    /** The rows the query returns, in the order it returns them. */
    function Run(rows: seq<R>): seq<R> {
      Window(Matching(rows))
    }
  }

  // ---- the sort is a stable sort, and commutes with filtering ----

  ghost predicate Sorted<R>(rows: seq<R>, keys: seq<R -> int>) {
    forall i, j :: 0 <= i < j < |rows| ==> !Less(keys, 0, rows[j], rows[i])
  }

  lemma {:induction false} LessIsWeakOrder<R>(keys: seq<R -> int>, i: nat, a: R, b: R, c: R)
    requires i <= |keys|
    ensures Less(keys, i, a, b) ==> !Less(keys, i, b, a)
    ensures Less(keys, i, a, c) ==> Less(keys, i, a, b) || Less(keys, i, b, c)
    decreases |keys| - i
  {
    if i < |keys| {
      LessIsWeakOrder(keys, i + 1, a, b, c);
    }
  }

  /** In a sorted list the elements x must precede form a suffix. */
  lemma {:induction false} SplitSorted<R(!new)>(rows: seq<R>, keys: seq<R -> int>, x: R)
    requires Sorted(rows, keys)
    ensures Filter(rows, NotBelow(keys, x)) + Filter(rows, Below(keys, x)) == rows
  {
    forall i, j | 0 <= i < j < |rows| && Below(keys, x)(rows[i]) ensures Below(keys, x)(rows[j]) {
      LessIsWeakOrder(keys, 0, x, rows[j], rows[i]);
    }
    FilterSplit(rows, Below(keys, x), NotBelow(keys, x));
  }

  lemma {:induction false} StableSortSorted<R(!new)>(rows: seq<R>, keys: seq<R -> int>)
    ensures Sorted(StableSort(rows, keys), keys)
  {
    if rows != [] {
      var n := |rows| - 1;
      StableSortSorted(rows[..n], keys);
      InsertSorted(StableSort(rows[..n], keys), keys, rows[n]);
    }
  }

  lemma {:induction false} InsertSorted<R(!new)>(s: seq<R>, keys: seq<R -> int>, x: R)
    requires Sorted(s, keys)
    ensures Sorted(Insert(s, keys, x), keys)
  {
    SplitSorted(s, keys, x);
    var a, b := Filter(s, NotBelow(keys, x)), Filter(s, Below(keys, x));
    forall i, j | 0 <= i < j < |a + [x] + b| ensures !Less(keys, 0, (a + [x] + b)[j], (a + [x] + b)[i]) {
      if i == |a| {
        var y := b[j - |a| - 1];
        assert y in b;
        FilterMember(s, Below(keys, x), y);
        LessIsWeakOrder(keys, 0, x, y, x);
      } else if j == |a| {
        assert a[i] in a;
        FilterMember(s, NotBelow(keys, x), a[i]);
      } else {
        assert (a + b)[if i < |a| then i else i - 1] == (a + [x] + b)[i];
        assert (a + b)[if j < |a| then j else j - 1] == (a + [x] + b)[j];
      }
    }
  }

  /** Sorting permutes: nothing is lost or invented. */
  lemma {:induction false} StableSortPermutes<R(!new)>(rows: seq<R>, keys: seq<R -> int>)
    ensures multiset(StableSort(rows, keys)) == multiset(rows)
  {
    if rows != [] {
      var n := |rows| - 1;
      StableSortPermutes(rows[..n], keys);
      StableSortSorted(rows[..n], keys);
      InsertPermutes(StableSort(rows[..n], keys), keys, rows[n]);
      assert rows == rows[..n] + [rows[n]];
    }
  }

  lemma {:induction false} InsertPermutes<R(!new)>(s: seq<R>, keys: seq<R -> int>, x: R)
    requires Sorted(s, keys)
    ensures multiset(Insert(s, keys, x)) == multiset(s) + multiset{x}
  {
    SplitSorted(s, keys, x);
    var a, b := Filter(s, NotBelow(keys, x)), Filter(s, Below(keys, x));
    assert multiset(a + b) == multiset(a) + multiset(b);
    assert multiset(a + [x] + b) == multiset(a) + multiset{x} + multiset(b);
  }

  lemma {:induction false} InsertFilter<R(!new)>(s: seq<R>, keys: seq<R -> int>, x: R, p: R -> bool)
    requires Sorted(s, keys)
    ensures Filter(Insert(s, keys, x), p) == if p(x) then Insert(Filter(s, p), keys, x) else Filter(s, p)
  {
    var a, b := Filter(s, NotBelow(keys, x)), Filter(s, Below(keys, x));
    FilterConcat(a + [x], b, p);
    FilterSnoc(a, x, p);
    FilterConcat(a, b, p);
    SplitSorted(s, keys, x);
    FilterCommutes(s, NotBelow(keys, x), p);
    FilterCommutes(s, Below(keys, x), p);
  }

  lemma {:induction false} FilterCommutes<T(!new)>(xs: seq<T>, p: T -> bool, q: T -> bool)
    ensures Filter(Filter(xs, p), q) == Filter(Filter(xs, q), p)
  {
    var both := (x: T) => p(x) && q(x);
    FilterFilter(xs, p, q, both);
    FilterFilter(xs, q, p, both);
  }

  /** Sorting commutes with filtering: this is what makes one batched query stand for many small ones. */
  lemma {:induction false} SortFilter<R(!new)>(rows: seq<R>, keys: seq<R -> int>, p: R -> bool)
    ensures Filter(StableSort(rows, keys), p) == StableSort(Filter(rows, p), keys)
  {
    if rows != [] {
      var n := |rows| - 1;
      SortFilter(rows[..n], keys, p);
      StableSortSorted(rows[..n], keys);
      InsertFilter(StableSort(rows[..n], keys), keys, rows[n], p);
      var kept := Filter(rows[..n], p);
      if p(rows[n]) {
        assert (kept + [rows[n]])[..|kept|] == kept;
      }
    }
  }

  // ---- what a query returns ----

  lemma {:induction false} WhereHolds<C, R(!new)>(sel: Selection<C, R>, p: R -> bool, r: R)
    ensures sel.Where(p).Holds(r) <==> sel.Holds(r) && p(r)
  {
    var w := sel.Where(p);
    assert w.preds[|sel.preds|] == p;
    assert forall i :: 0 <= i < |sel.preds| ==> w.preds[i] == sel.preds[i];
  }

  lemma {:induction false} MatchingMember<C, R(!new)>(sel: Selection<C, R>, rows: seq<R>, r: R)
    ensures r in sel.Matching(rows) <==> r in rows && sel.Holds(r)
  {
    FilterMember(rows, sel.Test(), r);
    StableSortPermutes(Filter(rows, sel.Test()), sel.order);
    assert r in sel.Matching(rows) <==> r in multiset(sel.Matching(rows));
    assert r in Filter(rows, sel.Test()) <==> r in multiset(Filter(rows, sel.Test()));
  }

  /** A query returns only rows of the table that meet all its predicates. */
  lemma {:induction false} RunMember<C, R(!new)>(sel: Selection<C, R>, rows: seq<R>, r: R)
    requires r in sel.Run(rows)
    ensures r in rows && sel.Holds(r)
  {
    MatchingMember(sel, rows, r);
  }

  /** Narrowing a batched, unlimited query to one key gives the query for that key alone. */
  lemma {:induction false} RunNarrows<C, R(!new)>(sel: Selection<C, R>, rows: seq<R>, batch: R -> bool, one: R -> bool)
    requires sel.Unlimited()
    requires forall r :: r in rows && one(r) ==> batch(r)
    ensures Filter(sel.Where(batch).Run(rows), one) == sel.Where(one).Run(rows)
  {
    var b, o := sel.Where(batch), sel.Where(one);
    forall r | r in rows ensures o.Test()(r) == (b.Test()(r) && one(r)) {
      WhereHolds(sel, one, r);
      WhereHolds(sel, batch, r);
    }
    SortFilter(Filter(rows, b.Test()), sel.order, one);
    FilterFilter(rows, b.Test(), one, o.Test());
  }

  /** Without an order the rows come as they are stored. */
  lemma {:induction false} Unsorted<R(!new)>(rows: seq<R>)
    ensures StableSort(rows, []) == rows
  {
    if rows != [] {
      var n := |rows| - 1;
      Unsorted(rows[..n]);
      FilterAll(rows[..n], NotBelow([], rows[n]));
      FilterNone(rows[..n], Below([], rows[n]));
      assert rows == rows[..n] + [rows[n]];
    }
  }

  // ---- primary keys stay unique ----

  ghost predicate UniqueBy<R>(key: R -> int, rows: seq<R>) {
    forall i, j :: 0 <= i < j < |rows| ==> key(rows[i]) != key(rows[j])
  }

  function HasKey<R>(key: R -> int, k: int): R -> bool {
    (r: R) => key(r) == k
  }

  lemma {:induction false} UniqueMeansAtMostOne<R(!new)>(key: R -> int, rows: seq<R>, k: int)
    requires UniqueBy(key, rows)
    ensures |Filter(rows, HasKey(key, k))| <= 1
  {
    if rows != [] {
      var n := |rows| - 1;
      UniqueMeansAtMostOne(key, rows[..n], k);
      if key(rows[n]) == k {
        FilterNone(rows[..n], HasKey(key, k));
      }
    }
  }

  lemma {:induction false} AtMostOneMeansUnique<R(!new)>(key: R -> int, rows: seq<R>)
    requires forall k :: |Filter(rows, HasKey(key, k))| <= 1
    ensures UniqueBy(key, rows)
  {
    forall i, j | 0 <= i < j < |rows| ensures key(rows[i]) != key(rows[j]) {
      var p := HasKey(key, key(rows[i]));
      assert rows == rows[..j] + rows[j..];
      FilterConcat(rows[..j], rows[j..], p);
      FilterMember(rows[..j], p, rows[..j][i]);
      FilterMember(rows[j..], p, rows[j..][0]);
    }
  }

  /** Any query over a table with a primary key returns rows with distinct keys. */
  lemma {:induction false} RunUnique<C, R(!new)>(sel: Selection<C, R>, rows: seq<R>, key: R -> int)
    requires UniqueBy(key, rows)
    ensures UniqueBy(key, sel.Run(rows))
  {
    var found := sel.Matching(rows);
    forall k ensures |Filter(found, HasKey(key, k))| <= 1 {
      var p := HasKey(key, k);
      SortFilter(Filter(rows, sel.Test()), sel.order, p);
      FilterCommutes(rows, sel.Test(), p);
      UniqueMeansAtMostOne(key, rows, k);
      StableSortPermutes(Filter(Filter(rows, sel.Test()), p), sel.order);
      assert |multiset(Filter(found, p))| == |multiset(Filter(Filter(rows, sel.Test()), p))|;
    }
    AtMostOneMeansUnique(key, found);
  }
}
