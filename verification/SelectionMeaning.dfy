/** What a query returns, said without the functions that compute it: which rows, in which order, which page. */
module SelectionMeaning {
  import opened Basics
  import opened Selections

  // ======== the order ========

  /** The first order option in which two rows differ decides. */
  ghost predicate Precedes<R>(order: seq<R -> int>, a: R, b: R) {
    exists i :: 0 <= i < |order| && order[i](a) < order[i](b)
                && forall j :: 0 <= j < i ==> order[j](a) == order[j](b)
  }

  ghost predicate PrecedesFrom<R>(order: seq<R -> int>, from: nat, a: R, b: R) {
    exists i :: from <= i < |order| && order[i](a) < order[i](b)
                && forall j :: from <= j < i ==> order[j](a) == order[j](b)
  }

  lemma {:induction false} LessFrom<R>(order: seq<R -> int>, from: nat, a: R, b: R)
    requires from <= |order|
    ensures Less(order, from, a, b) <==> PrecedesFrom(order, from, a, b)
    decreases |order| - from
  {
    if from < |order| {
      LessFrom(order, from + 1, a, b);
      if order[from](a) == order[from](b) && PrecedesFrom(order, from + 1, a, b) {
        var i :| from + 1 <= i < |order| && order[i](a) < order[i](b)
                 && forall j :: from + 1 <= j < i ==> order[j](a) == order[j](b);
        assert forall j :: from <= j < i ==> order[j](a) == order[j](b);
      }
      if PrecedesFrom(order, from, a, b) {
        var i :| from <= i < |order| && order[i](a) < order[i](b)
                 && forall j :: from <= j < i ==> order[j](a) == order[j](b);
        assert i > from ==> order[from](a) == order[from](b);
      }
    }
  }

  /** Sorting is lexicographic over the order options. */
  lemma {:induction false} LessIsLexicographic<R>(order: seq<R -> int>, a: R, b: R)
    ensures Less(order, 0, a, b) <==> Precedes(order, a, b)
  {
    LessFrom(order, 0, a, b);
  }

  lemma {:induction false} PrecedesIsStrict<R>(order: seq<R -> int>, a: R, b: R)
    ensures !(Precedes(order, a, b) && Precedes(order, b, a))
  {
  }

  // ======== the rows ========

  /** A row at position i comes before one at position j: by the order, or in case of a tie by position. */
  ghost predicate Before<R>(order: seq<R -> int>, table: seq<R>, i: nat, j: nat)
    requires i < |table| && j < |table|
  {
    Precedes(order, table[i], table[j]) || (!Precedes(order, table[j], table[i]) && i < j)
  }

  ghost predicate Meets<R>(preds: seq<R -> bool>, r: R) {
    forall i :: 0 <= i < |preds| ==> preds[i](r)
  }

  /** The positions of all rows that meet the predicates and one more, in order. */
  ghost predicate InPlace<R>(preds: seq<R -> bool>, extra: R -> bool, order: seq<R -> int>, table: seq<R>,
                             at: seq<nat>)
  {
    && (forall k :: 0 <= k < |at| ==> at[k] < |table| && Meets(preds, table[at[k]]) && extra(table[at[k]]))
    && (forall i :: 0 <= i < |table| && Meets(preds, table[i]) && extra(table[i]) ==> i in at)
    && (forall k, l :: 0 <= k < l < |at| ==> Before(order, table, at[k], at[l]))
  }

  /** The page a limit and an offset cut out of n rows; zero means none. */
  function PageStart(offset: Option<nat>, n: nat): nat {
    if offset.Some? && offset.value < n then offset.value else if offset.Some? then n else 0
  }

  function PageLength(limit: Option<nat>, offset: Option<nat>, n: nat): nat {
    var rest: nat := n - PageStart(offset, n);
    if limit.Some? && 0 < limit.value < rest then limit.value else rest
  }

  /** These are the rows the query returns when one more predicate is added. */
  ghost predicate Answer<C, R(!new)>(sel: Selection<C, R>, extra: R -> bool, table: seq<R>, rows: seq<R>) {
    exists at :: InPlace(sel.preds, extra, sel.order, table, at) && IsPage(sel.limit, sel.offset, table, at, rows)
  }

  ghost predicate IsPage<R>(limit: Option<nat>, offset: Option<nat>, table: seq<R>, at: seq<nat>, rows: seq<R>) {
    && |rows| == PageLength(limit, offset, |at|)
    && forall k :: 0 <= k < |rows| ==>
         at[PageStart(offset, |at|) + k] < |table| && rows[k] == table[at[PageStart(offset, |at|) + k]]
  }

  // ---- sorting in terms of positions ----

  lemma {:induction false} SortPositions<R(!new)>(rows: seq<R>, order: seq<R -> int>) returns (at: seq<nat>)
    ensures Listed(rows, order, StableSort(rows, order), at)
  {
    hide StableSort, Insert, Less, Before, Sorted, Filter;
    at := [];
    SortStep(rows, order);
    if rows != [] {
      var n: nat := |rows| - 1;
      var init, x := rows[..n], rows[n];
      var before := SortPositions(init, order);
      var sorted := StableSort(init, order);
      StableSortSorted(init, order);
      var m := |Filter(sorted, NotBelow(order, x))|;
      at := before[..m] + [n] + before[m..];
      InsertedAt(sorted, order, x);
      InsertedPositions(init, x, order, sorted, before, m);
      assert rows == init + [x];
    }
  }

  lemma {:induction false} SortStep<R(!new)>(rows: seq<R>, order: seq<R -> int>)
    ensures rows == [] ==> StableSort(rows, order) == []
    ensures rows != [] ==>
              StableSort(rows, order) == Insert(StableSort(rows[..|rows| - 1], order), order, rows[|rows| - 1])
  {
  }

  /** Inserting puts x between what need not come after it and what has to. */
  lemma {:induction false} InsertedAt<R(!new)>(sorted: seq<R>, order: seq<R -> int>, x: R)
    requires Sorted(sorted, order)
    ensures var m := |Filter(sorted, NotBelow(order, x))|;
            && m <= |sorted| && Insert(sorted, order, x) == sorted[..m] + [x] + sorted[m..]
            && (forall k :: 0 <= k < m ==> !Less(order, 0, x, sorted[k]))
            && (forall k :: m <= k < |sorted| ==> Less(order, 0, x, sorted[k]))
  {
    SplitSorted(sorted, order, x);
    var a, b := Filter(sorted, NotBelow(order, x)), Filter(sorted, Below(order, x));
    assert sorted == a + b;
    assert sorted[..|a|] == a && sorted[|a|..] == b;
    forall k | 0 <= k < |a| ensures !Less(order, 0, x, sorted[k]) {
      assert a[k] in a;
      FilterMember(sorted, NotBelow(order, x), a[k]);
    }
    forall k | |a| <= k < |sorted| ensures Less(order, 0, x, sorted[k]) {
      assert b[k - |a|] in b;
      FilterMember(sorted, Below(order, x), b[k - |a|]);
    }
  }

  /** These positions list all rows, in order, and this is the list. */
  ghost predicate Listed<R>(rows: seq<R>, order: seq<R -> int>, sorted: seq<R>, at: seq<nat>) {
    && |at| == |rows| == |sorted|
    && (forall k :: 0 <= k < |at| ==> at[k] < |rows| && sorted[k] == rows[at[k]])
    && (forall i :: 0 <= i < |rows| ==> i in at)
    && (forall k, l :: 0 <= k < l < |at| ==> Before(order, rows, at[k], at[l]))
  }

  lemma {:induction false} InsertedPositions<R(!new)>(init: seq<R>, x: R, order: seq<R -> int>, sorted: seq<R>,
                                                      before: seq<nat>, m: nat)
    requires Listed(init, order, sorted, before) && m <= |before|
    requires forall k :: 0 <= k < m ==> !Less(order, 0, x, sorted[k])
    requires forall k :: m <= k < |sorted| ==> Less(order, 0, x, sorted[k])
    ensures Listed(init + [x], order, sorted[..m] + [x] + sorted[m..], before[..m] + [|init|] + before[m..])
  {
    hide Less, Precedes;
    var rows, n := init + [x], |init|;
    var at := before[..m] + [n] + before[m..];
    forall i | 0 <= i < |rows| ensures i in at {
      if i < n {
        assert i in before;
        var k :| 0 <= k < |before| && before[k] == i;
        assert at[if k < m then k else k + 1] == i;
      } else {
        assert at[m] == i;
      }
    }
    forall k, l | 0 <= k < l < |at| ensures Before(order, rows, at[k], at[l]) {
      if l == m {
        assert at[k] == before[k] && rows[at[k]] == sorted[k];
        LessIsLexicographic(order, x, sorted[k]);
      } else if k == m {
        assert at[l] == before[l - 1] && rows[at[l]] == sorted[l - 1];
        LessIsLexicographic(order, x, sorted[l - 1]);
      } else {
        var k', l' := if k < m then k else k - 1, if l < m then l else l - 1;
        assert at[k] == before[k'] && at[l] == before[l'];
        assert Before(order, init, before[k'], before[l']);
      }
    }
  }

  // ---- the positions of a query ----

  lemma {:induction false} MatchingInPlace<C, R(!new)>(sel: Selection<C, R>, extra: R -> bool, table: seq<R>)
    returns (at: seq<nat>)
    ensures InPlace(sel.preds, extra, sel.order, table, at)
    ensures |at| == |sel.Where(extra).Matching(table)|
    ensures forall k :: 0 <= k < |at| ==> sel.Where(extra).Matching(table)[k] == table[at[k]]
  {
    hide StableSort, Filter, Precedes;
    var w := sel.Where(extra);
    var kept := FilterPositions(table, w.Test());
    var found := Filter(table, w.Test());
    var sorted := SortPositions(found, sel.order);
    at := seq(|sorted|, k requires 0 <= k < |sorted| => kept[sorted[k]]);
    forall r ensures w.Test()(r) <==> Meets(sel.preds, r) && extra(r) {
      WhereHolds(sel, extra, r);
    }
    forall i | 0 <= i < |table| && Meets(sel.preds, table[i]) && extra(table[i]) ensures i in at {
      assert i in kept;
      var j :| 0 <= j < |kept| && kept[j] == i;
      assert j in sorted;
      var k :| 0 <= k < |sorted| && sorted[k] == j;
      assert at[k] == i;
    }
    forall k, l | 0 <= k < l < |at| ensures Before(sel.order, table, at[k], at[l]) {
      assert Before(sel.order, found, sorted[k], sorted[l]);
    }
  }

  /** A query with one more predicate returns the answer. */
  lemma {:induction false} RunAnswers<C, R(!new)>(sel: Selection<C, R>, extra: R -> bool, table: seq<R>)
    ensures Answer(sel, extra, table, sel.Where(extra).Run(table))
  {
    hide StableSort, Filter, InPlace;
    var at := MatchingInPlace(sel, extra, table);
    assert forall k :: 0 <= k < |at| ==> at[k] < |table| by {
      InPlaceInside(sel.preds, extra, sel.order, table, at);
    }
    assert IsPage(sel.limit, sel.offset, table, at, sel.Where(extra).Run(table));
  }

  lemma {:induction false} InPlaceInside<R>(preds: seq<R -> bool>, extra: R -> bool, order: seq<R -> int>,
                                            table: seq<R>, at: seq<nat>)
    requires InPlace(preds, extra, order, table, at)
    ensures forall k :: 0 <= k < |at| ==> at[k] < |table|
  {
  }

  // ---- the answer is determined ----

  ghost predicate Increasing(at: seq<nat>, before: (nat, nat) -> bool) {
    forall k, l :: 0 <= k < l < |at| ==> before(at[k], at[l])
  }

  /** Two lists of the same elements in the same strict order are the same. */
  lemma {:induction false} SameOrderSameList(xs: seq<nat>, ys: seq<nat>, before: (nat, nat) -> bool)
    requires Increasing(xs, before) && Increasing(ys, before)
    requires forall i, j :: i in xs && j in xs ==> !(before(i, j) && before(j, i))
    requires forall i :: i in xs <==> i in ys
    ensures xs == ys
  {
    assert ys != [] ==> ys[0] in ys;
    if xs != [] {
      assert xs[0] in ys && ys != [] && ys[0] in xs;
      var x, y := xs[0], ys[0];
      assert x == y by {
        var k :| 0 <= k < |xs| && xs[k] == y;
        var l :| 0 <= l < |ys| && ys[l] == x;
        assert k > 0 ==> before(x, y);
        assert l > 0 ==> before(y, x);
      }
      TailMembers(xs, ys, before);
      SameOrderSameList(xs[1..], ys[1..], before);
      assert xs == [xs[0]] + xs[1..] && ys == [ys[0]] + ys[1..];
    }
  }

  lemma {:induction false} TailMembers(xs: seq<nat>, ys: seq<nat>, before: (nat, nat) -> bool)
    requires xs != [] && ys != [] && xs[0] == ys[0] && Increasing(xs, before) && Increasing(ys, before)
    requires forall i, j :: i in xs && j in xs ==> !(before(i, j) && before(j, i))
    requires forall i :: i in xs <==> i in ys
    ensures forall i :: i in xs[1..] <==> i in ys[1..]
    ensures Increasing(xs[1..], before) && Increasing(ys[1..], before)
  {
    OnlyInTail(xs, before);
    OnlyInTail(ys, before);
  }

  /** The first element does not come again. */
  lemma {:induction false} OnlyInTail(xs: seq<nat>, before: (nat, nat) -> bool)
    requires xs != [] && Increasing(xs, before)
    requires forall i, j :: i in xs && j in xs ==> !(before(i, j) && before(j, i))
    ensures forall i :: i in xs[1..] <==> i in xs && i != xs[0]
    ensures Increasing(xs[1..], before)
  {
    var tail := xs[1..];
    assert xs == [xs[0]] + tail;
    assert forall k :: 0 <= k < |tail| ==> tail[k] == xs[k + 1];
    forall i | i in tail ensures i != xs[0] {
      var k :| 0 <= k < |tail| && tail[k] == i;
      assert before(xs[0], xs[k + 1]);
    }
  }

  ghost function BeforeIn<R>(order: seq<R -> int>, table: seq<R>): (nat, nat) -> bool {
    (i: nat, j: nat) => i < |table| && j < |table| && Before(order, table, i, j)
  }

  /** So there is only one answer: being it says everything about the rows, their order and their number. */
  lemma {:induction false} AnswerUnique<C, R(!new)>(sel: Selection<C, R>, extra: R -> bool, table: seq<R>, xs: seq<R>,
                                                    ys: seq<R>)
    requires Answer(sel, extra, table, xs) && Answer(sel, extra, table, ys)
    ensures xs == ys
  {
    hide InPlace;
    var at :| InPlace(sel.preds, extra, sel.order, table, at) && IsPage(sel.limit, sel.offset, table, at, xs);
    var bt :| InPlace(sel.preds, extra, sel.order, table, bt) && IsPage(sel.limit, sel.offset, table, bt, ys);
    InPlaceUnique(sel, extra, table, at, bt);
  }

  lemma {:induction false} InPlaceUnique<C, R(!new)>(sel: Selection<C, R>, extra: R -> bool, table: seq<R>,
                                                     at: seq<nat>, bt: seq<nat>)
    requires InPlace(sel.preds, extra, sel.order, table, at) && InPlace(sel.preds, extra, sel.order, table, bt)
    ensures at == bt
  {
    hide Meets, Precedes;
    var before := BeforeIn(sel.order, table);
    forall i, j | i in at && j in at ensures !(before(i, j) && before(j, i)) {
      if i < |table| && j < |table| {
        PrecedesIsStrict(sel.order, table[i], table[j]);
      }
    }
    SameOrderSameList(at, bt, before);
  }

  /** Only what the added predicate says of the rows of the table matters. */
  lemma {:induction false} AnswerSame<C, D, R(!new)>(sel: Selection<C, R>, other: Selection<D, R>, extra: R -> bool,
                                                     same: R -> bool, table: seq<R>, rows: seq<R>)
    requires Answer(sel, extra, table, rows) && forall r :: r in table ==> extra(r) == same(r)
    requires other.preds == sel.preds && other.order == sel.order
    requires other.limit == sel.limit && other.offset == sel.offset
    ensures Answer(other, same, table, rows)
  {
    hide Precedes, Meets;
    var at :| InPlace(sel.preds, extra, sel.order, table, at) && IsPage(sel.limit, sel.offset, table, at, rows);
    assert InPlace(sel.preds, same, sel.order, table, at);
  }
}
