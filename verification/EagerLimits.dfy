/** What becomes of a limit or an offset on an edge query: they cut the batch, not the rows of each node; and exactly
    when that makes no difference. */
module EagerLimits {
  import opened Basics
  import opened AccountEntity
  import opened AccountScan
  import opened Selections
  import opened EagerModel
  import opened EagerSpec
  import opened EagerNaive
  import opened EagerRefinement

  // ======== cutting a list, and cutting its parts ========

  function Has<R>(key: R -> Option<int>, k: int): R -> bool {
    (r: R) => key(r) == Some(k)
  }

  function Cut<C, R(!new)>(sel: Selection<C, R>, xs: seq<R>): seq<R> {
    sel.Window(xs)
  }

  function OffsetOf<C, R(!new)>(sel: Selection<C, R>): nat {
    if sel.offset.None? then 0 else sel.offset.value
  }

  predicate Limited<C, R(!new)>(sel: Selection<C, R>) {
    sel.limit.Some? && sel.limit.value > 0
  }

  /** Where the window of a list ends. */
  function EndOf<C, R(!new)>(sel: Selection<C, R>, n: nat): (e: nat)
    ensures e <= n
  {
    if Limited(sel) && OffsetOf(sel) + sel.limit.value < n then OffsetOf(sel) + sel.limit.value else n
  }

  lemma {:induction false} CutIs<C, R(!new)>(sel: Selection<C, R>, xs: seq<R>)
    ensures Cut(sel, xs) == if |xs| <= OffsetOf(sel) then [] else xs[OffsetOf(sel)..EndOf(sel, |xs|)]
    ensures |xs| > OffsetOf(sel) ==> OffsetOf(sel) < EndOf(sel, |xs|)
  {
  }

  /** Every key gets the rows it would get alone. */
  ghost predicate Fair<C, R(!new)>(sel: Selection<C, R>, all: seq<R>, key: R -> Option<int>, ids: seq<int>) {
    forall id :: id in ids ==> Filter(Cut(sel, all), Has(key, id)) == Cut(sel, Filter(all, Has(key, id)))
  }

  /** Nothing is returned at all; or everything is; or what is cut off at either end belongs with what is kept: up
      to the end of the window all rows have one key, and no other key has more rows than the offset skips. */
  ghost predicate Harmless<C, R(!new)>(sel: Selection<C, R>, all: seq<R>, key: R -> Option<int>) {
    || |all| <= OffsetOf(sel)
    || (OffsetOf(sel) == 0 && EndOf(sel, |all|) == |all|)
    || ((forall i :: 0 <= i < EndOf(sel, |all|) ==> key(all[i]) == key(all[0]))
        && forall k :: key(all[0]) != Some(k) ==> |Filter(all, Has(key, k))| <= OffsetOf(sel))
  }

  // ---- harmless windows are fair ----

  lemma {:induction false} FairIfHarmless<C, R(!new)>(sel: Selection<C, R>, all: seq<R>, key: R -> Option<int>,
                                                      ids: seq<int>)
    requires Harmless(sel, all, key)
    ensures Fair(sel, all, key, ids)
  {
    forall id | id in ids ensures Filter(Cut(sel, all), Has(key, id)) == Cut(sel, Filter(all, Has(key, id))) {
      var own := Filter(all, Has(key, id));
      CutIs(sel, all);
      CutIs(sel, own);
      if |all| > OffsetOf(sel) && !(OffsetOf(sel) == 0 && EndOf(sel, |all|) == |all|) {
        OneKeyWindow(sel, all, key, id);
      }
    }
  }

  lemma {:induction false} OneKeyWindow<C, R(!new)>(sel: Selection<C, R>, all: seq<R>, key: R -> Option<int>, id: int)
    requires |all| > OffsetOf(sel)
    requires forall i :: 0 <= i < EndOf(sel, |all|) ==> key(all[i]) == key(all[0])
    requires forall k :: key(all[0]) != Some(k) ==> |Filter(all, Has(key, k))| <= OffsetOf(sel)
    ensures Filter(Cut(sel, all), Has(key, id)) == Cut(sel, Filter(all, Has(key, id)))
  {
    hide Filter, Cut, EndOf;
    var p, o, e := Has(key, id), OffsetOf(sel), EndOf(sel, |all|);
    CutIs(sel, all);
    var own, kept := Filter(all, p), all[o..e];
    CutIs(sel, own);
    forall x | x in kept ensures key(x) == key(all[0]) {
      var i :| 0 <= i < |kept| && kept[i] == x;
      assert kept[i] == all[o + i];
    }
    if key(all[0]) == Some(id) {
      FilterAll(kept, p);
      PrefixOfOwn(all, p, e);
      SameEnd(sel, |all|, |own|);
    } else {
      FilterNone(kept, p);
    }
  }

  lemma {:induction false} PrefixOfOwn<R(!new)>(all: seq<R>, p: R -> bool, e: nat)
    requires e <= |all| && forall i :: 0 <= i < e ==> p(all[i])
    ensures e <= |Filter(all, p)| <= |all| && Filter(all, p)[..e] == all[..e]
  {
    forall x | x in all[..e] ensures p(x) {
      var i :| 0 <= i < e && all[..e][i] == x;
    }
    FilterAll(all[..e], p);
    assert all == all[..e] + all[e..];
    FilterConcat(all[..e], all[e..], p);
  }

  lemma {:induction false} SameEnd<C, R(!new)>(sel: Selection<C, R>, n: nat, m: nat)
    requires EndOf(sel, n) <= m <= n
    ensures EndOf(sel, m) == EndOf(sel, n)
  {
  }

  // ---- fair windows are harmless ----

  lemma {:induction false} FilterFull<T(!new)>(xs: seq<T>, p: T -> bool)
    requires |Filter(xs, p)| == |xs|
    ensures forall x :: x in xs ==> p(x)
  {
    if xs != [] {
      var n := |xs| - 1;
      FilterFull(xs[..n], p);
      assert xs == xs[..n] + [xs[n]];
    }
  }

  lemma {:induction false} FilterDistinct<T(!new)>(xs: seq<T>, p: T -> bool)
    requires Distinct(xs)
    ensures Distinct(Filter(xs, p))
  {
    if xs != [] {
      var n := |xs| - 1;
      FilterDistinct(xs[..n], p);
      FilterMember(xs[..n], p, xs[n]);
    }
  }

  /** A list in three parts, filtered. */
  lemma {:induction false} FilterParts<R(!new)>(all: seq<R>, o: nat, e: nat, p: R -> bool)
    requires o <= e <= |all|
    ensures Filter(all, p) == Filter(all[..o], p) + Filter(all[o..e], p) + Filter(all[e..], p)
  {
    assert all == all[..o] + all[o..];
    assert all[o..] == all[o..e] + all[e..];
    FilterConcat(all[..o], all[o..], p);
    FilterConcat(all[o..e], all[e..], p);
  }

  lemma {:induction false} FilterFirst<R(!new)>(xs: seq<R>, p: R -> bool)
    requires xs != [] && p(xs[0])
    ensures Filter(xs, p) != [] && Filter(xs, p)[0] == xs[0]
  {
    assert xs == [xs[0]] + xs[1..];
    FilterConcat([xs[0]], xs[1..], p);
    FilterAll([xs[0]], p);
  }

  /** With an offset: the skipped rows all have the key of the first row that is kept. */
  lemma {:induction false} SkippedAreOneKeys<C, R(!new)>(sel: Selection<C, R>, all: seq<R>, key: R -> Option<int>,
                                                         ids: seq<int>)
    requires Fair(sel, all, key, ids) && Distinct(all) && |all| > OffsetOf(sel)
    requires forall i :: 0 <= i < |all| ==> key(all[i]).Some? && key(all[i]).value in ids
    ensures forall i :: 0 <= i <= OffsetOf(sel) ==> key(all[i]) == key(all[OffsetOf(sel)])
  {
    hide Filter, Cut, EndOf;
    var o, e := OffsetOf(sel), EndOf(sel, |all|);
    var x := all[o];
    var p := Has(key, key(x).value);
    var own := Filter(all, p);
    CutIs(sel, all);
    CutIs(sel, own);
    FilterParts(all, o, e, p);
    FilterFirst(all[o..e], p);
    FilterDistinct(all, p);
    var before := Filter(all[..o], p);
    assert own[|before|] == x;
    assert Filter(Cut(sel, all), p)[0] == x;
    assert |before| == o;
    FilterFull(all[..o], p);
    forall i | 0 <= i < o ensures key(all[i]) == key(x) {
      assert all[..o][i] == all[i] && all[i] in all[..o];
    }
  }

  /** And no other key has more rows than are skipped, or any inside the window. */
  lemma {:induction false} OthersAreSkipped<C, R(!new)>(sel: Selection<C, R>, all: seq<R>, key: R -> Option<int>,
                                                        ids: seq<int>, k: int)
    requires Fair(sel, all, key, ids) && Distinct(all) && |all| > OffsetOf(sel) > 0 && k in ids
    requires forall i :: 0 <= i <= OffsetOf(sel) ==> key(all[i]) != Some(k)
    ensures |Filter(all, Has(key, k))| <= OffsetOf(sel)
    ensures forall i :: 0 <= i < EndOf(sel, |all|) ==> key(all[i]) != Some(k)
  {
    var p, o, e := Has(key, k), OffsetOf(sel), EndOf(sel, |all|);
    var own := Filter(all, p);
    CutIs(sel, all);
    CutIs(sel, own);
    FilterParts(all, o, e, p);
    NoneSkipped(sel, all, key, k);
    FilterDistinct(all, p);
    if |own| > o {
      FirstIsLater(sel, all, key, ids, k);
      assert false;
    }
    forall i | 0 <= i < e ensures key(all[i]) != Some(k) {
      if i >= o && key(all[i]) == Some(k) {
        FilterMember(all[o..e], p, all[o..e][i - o]);
        assert false;
      }
    }
  }

  lemma {:induction false} NoneSkipped<C, R(!new)>(sel: Selection<C, R>, all: seq<R>, key: R -> Option<int>, k: int)
    requires |all| > OffsetOf(sel) && forall i :: 0 <= i < OffsetOf(sel) ==> key(all[i]) != Some(k)
    ensures Filter(all[..OffsetOf(sel)], Has(key, k)) == []
  {
    var o := OffsetOf(sel);
    forall x | x in all[..o] ensures !Has(key, k)(x) {
      var i :| 0 <= i < o && all[..o][i] == x;
    }
    FilterNone(all[..o], Has(key, k));
  }

  /** Of a key with rows left after its own offset, the batch would return the first row, where it is due a
      later one. */
  lemma {:induction false} FirstIsLater<C, R(!new)>(sel: Selection<C, R>, all: seq<R>, key: R -> Option<int>,
                                                    ids: seq<int>, k: int)
    requires Fair(sel, all, key, ids) && |all| > OffsetOf(sel) && k in ids
    requires forall i :: 0 <= i < OffsetOf(sel) ==> key(all[i]) != Some(k)
    requires |Filter(all, Has(key, k))| > OffsetOf(sel)
    ensures Filter(all, Has(key, k))[0] == Filter(all, Has(key, k))[OffsetOf(sel)]
  {
    var p, o, e := Has(key, k), OffsetOf(sel), EndOf(sel, |all|);
    var own := Filter(all, p);
    CutIs(sel, all);
    CutIs(sel, own);
    FilterParts(all, o, e, p);
    NoneSkipped(sel, all, key, k);
    assert Filter(Cut(sel, all), p) == Cut(sel, own);
  }

  lemma {:induction false} HarmlessIfFairOffset<C, R(!new)>(sel: Selection<C, R>, all: seq<R>, key: R -> Option<int>,
                                                            ids: seq<int>)
    requires Fair(sel, all, key, ids) && Distinct(all) && |all| > OffsetOf(sel) > 0
    requires forall i :: 0 <= i < |all| ==> key(all[i]).Some? && key(all[i]).value in ids
    ensures Harmless(sel, all, key)
  {
    hide Fair, Filter, Harmless;
    SkippedAreOneKeys(sel, all, key, ids);
    forall k | k in ids && key(all[0]) != Some(k) ensures |Filter(all, Has(key, k))| <= OffsetOf(sel) {
      OthersAreSkipped(sel, all, key, ids, k);
    }
    forall i | 0 <= i < EndOf(sel, |all|) ensures key(all[i]) == key(all[0]) {
      if key(all[i]) != key(all[0]) {
        OthersAreSkipped(sel, all, key, ids, key(all[i]).value);
        assert false;
      }
    }
    OtherKeys(sel, all, key, ids);
  }

  lemma {:induction false} OtherKeys<C, R(!new)>(sel: Selection<C, R>, all: seq<R>, key: R -> Option<int>,
                                                 ids: seq<int>)
    requires |all| > 0 && forall i :: 0 <= i < |all| ==> key(all[i]).Some? && key(all[i]).value in ids
    requires forall k :: k in ids && key(all[0]) != Some(k) ==> |Filter(all, Has(key, k))| <= OffsetOf(sel)
    requires forall i :: 0 <= i < EndOf(sel, |all|) ==> key(all[i]) == key(all[0])
    ensures Harmless(sel, all, key)
  {
    forall k | key(all[0]) != Some(k) ensures |Filter(all, Has(key, k))| <= OffsetOf(sel) {
      if k !in ids {
        forall x | x in all ensures !Has(key, k)(x) {
          var i :| 0 <= i < |all| && all[i] == x;
        }
        FilterNone(all, Has(key, k));
      }
    }
  }

  /** Without an offset: the first row cut off belongs to some key, and that key loses rows unless the window is
      all its own. */
  lemma {:induction false} HarmlessIfFairLimit<C, R(!new)>(sel: Selection<C, R>, all: seq<R>, key: R -> Option<int>,
                                                           ids: seq<int>)
    requires Fair(sel, all, key, ids) && OffsetOf(sel) == 0 && EndOf(sel, |all|) < |all|
    requires forall i :: 0 <= i < |all| ==> key(all[i]).Some? && key(all[i]).value in ids
    ensures Harmless(sel, all, key)
  {
    var e := EndOf(sel, |all|);
    assert e == sel.limit.value > 0;
    WindowIsOneKeys(sel, all, key, ids);
    forall k | k in ids && key(all[0]) != Some(k) ensures |Filter(all, Has(key, k))| <= 0 {
      var own := Filter(all, Has(key, k));
      CutIs(sel, all);
      CutIs(sel, own);
      forall x | x in all[0..e] ensures !Has(key, k)(x) {
        var i :| 0 <= i < e && all[0..e][i] == x;
      }
      FilterNone(all[0..e], Has(key, k));
    }
    OtherKeys(sel, all, key, ids);
  }

  lemma {:induction false} WindowIsOneKeys<C, R(!new)>(sel: Selection<C, R>, all: seq<R>, key: R -> Option<int>,
                                                       ids: seq<int>)
    requires Fair(sel, all, key, ids) && OffsetOf(sel) == 0 && EndOf(sel, |all|) < |all|
    requires forall i :: 0 <= i < |all| ==> key(all[i]).Some? && key(all[i]).value in ids
    ensures forall i :: 0 <= i < EndOf(sel, |all|) ==> key(all[i]) == key(all[0])
  {
    var e := EndOf(sel, |all|);
    var k := key(all[e]).value;
    var p := Has(key, k);
    var own := Filter(all, p);
    CutIs(sel, all);
    CutIs(sel, own);
    FilterParts(all, 0, e, p);
    assert all[..0] == [];
    FilterFirst(all[e..], p);
    FilterFull(all[0..e], p);
    forall i | 0 <= i < e ensures key(all[i]) == Some(k) {
      assert all[0..e][i] == all[i] && all[i] in all[0..e];
    }
  }

  /** A window is fair exactly if it is harmless. */
  lemma {:induction false} FairExactly<C, R(!new)>(sel: Selection<C, R>, all: seq<R>, key: R -> Option<int>,
                                                   ids: seq<int>)
    requires Distinct(all) && forall i :: 0 <= i < |all| ==> key(all[i]).Some? && key(all[i]).value in ids
    ensures Fair(sel, all, key, ids) <==> Harmless(sel, all, key)
  {
    if Fair(sel, all, key, ids) && |all| > OffsetOf(sel) {
      if OffsetOf(sel) > 0 {
        HarmlessIfFairOffset(sel, all, key, ids);
      } else if EndOf(sel, |all|) < |all| {
        HarmlessIfFairLimit(sel, all, key, ids);
      }
    }
    if Harmless(sel, all, key) {
      FairIfHarmless(sel, all, key, ids);
    }
  }

  // ======== the rows of any edge query ========

  /** batch and one ask for the rows with one of the keys, and with one key. */
  ghost predicate Asks<R(!new)>(batch: R -> bool, one: int -> (R -> bool), key: R -> Option<int>, ids: seq<int>) {
    && (forall r :: batch(r) <==> key(r).Some? && key(r).value in ids)
    && (forall r, id :: one(id)(r) <==> key(r) == Some(id))
  }

  lemma {:induction false} MatchingOne<C, R(!new)>(sel: Selection<C, R>, table: seq<R>, batch: R -> bool,
                                                   one: R -> bool)
    requires forall r :: one(r) ==> batch(r)
    ensures sel.Where(one).Matching(table) == Filter(sel.Where(batch).Matching(table), one)
  {
    var b, o := sel.Where(batch), sel.Where(one);
    forall r | r in table ensures o.Test()(r) == (b.Test()(r) && one(r)) {
      WhereHolds(sel, one, r);
      WhereHolds(sel, batch, r);
    }
    SortFilter(Filter(table, b.Test()), sel.order, one);
    FilterFilter(table, b.Test(), one, o.Test());
  }

  lemma {:induction false} MatchingDistinct<C, R(!new)>(sel: Selection<C, R>, table: seq<R>, id: R -> int)
    requires UniqueBy(id, table)
    ensures Distinct(sel.Matching(table))
  {
    var whole := sel.(limit := None, offset := None);
    RunUnique(whole, table, id);
    FilterSame(table, whole.Test(), sel.Test());
    assert whole.Run(table) == sel.Matching(table);
    assert forall i, j :: 0 <= i < j < |sel.Matching(table)| ==>
             id(sel.Matching(table)[i]) != id(sel.Matching(table)[j]);
  }

  /** For every limit and offset: each key finds among the rows of the batch what it would find alone, if and only if
      the window is harmless. */
  lemma {:induction false} RowsWindowExact<C, R(!new)>(sel: Selection<C, R>, table: seq<R>, key: R -> Option<int>,
                                                       batch: R -> bool, one: int -> (R -> bool), ids: seq<int>)
    requires Distinct(sel.Where(batch).Matching(table)) && Asks(batch, one, key, ids)
    ensures (forall k :: k in ids ==> Filter(sel.Where(batch).Run(table), one(k)) == sel.Where(one(k)).Run(table))
       <==> Harmless(sel, sel.Where(batch).Matching(table), key)
  {
    hide Harmless, Filter, StableSort;
    var all := sel.Where(batch).Matching(table);
    forall i | 0 <= i < |all| ensures key(all[i]).Some? && key(all[i]).value in ids {
      MatchingMember(sel.Where(batch), table, all[i]);
      WhereHolds(sel, batch, all[i]);
    }
    FairExactly(sel, all, key, ids);
    forall k | k in ids
      ensures Filter(sel.Where(batch).Run(table), one(k)) == Filter(Cut(sel, all), Has(key, k))
           && sel.Where(one(k)).Run(table) == Cut(sel, Filter(all, Has(key, k))) {
      MatchingOne(sel, table, batch, one(k));
      FilterSame(Cut(sel, all), one(k), Has(key, k));
      FilterSame(all, one(k), Has(key, k));
    }
  }

  /** So it is over every table with a primary key. */
  lemma {:induction false} WindowExact<C, R(!new)>(sel: Selection<C, R>, table: seq<R>, id: R -> int,
                                                   key: R -> Option<int>, batch: R -> bool, one: int -> (R -> bool),
                                                   ids: seq<int>)
    requires UniqueBy(id, table) && Asks(batch, one, key, ids)
    ensures (forall k :: k in ids ==> Filter(sel.Where(batch).Run(table), one(k)) == sel.Where(one(k)).Run(table))
       <==> Harmless(sel, sel.Where(batch).Matching(table), key)
  {
    hide Harmless, Filter, StableSort;
    MatchingDistinct(sel.Where(batch), table, id);
    RowsWindowExact(sel, table, key, batch, one, ids);
  }

  // ======== two edges in full ========

  lemma {:induction false} NodesDetermineRows<R(!new), T>(node: R -> T, nodeID: T -> int, id: R -> int, table: seq<R>,
                                                          xs: seq<R>, ys: seq<R>)
    requires UniqueBy(id, table) && forall r :: r in table ==> nodeID(node(r)) == id(r)
    requires (forall x :: x in xs ==> x in table) && (forall y :: y in ys ==> y in table)
    ensures Map(node, xs) == Map(node, ys) ==> xs == ys
  {
    if Map(node, xs) == Map(node, ys) {
      assert |xs| == |Map(node, xs)| == |ys|;
      forall i | 0 <= i < |xs| ensures xs[i] == ys[i] {
        assert xs[i] in xs && ys[i] in ys && node(xs[i]) == Map(node, xs)[i] == Map(node, ys)[i] == node(ys[i]);
        var j :| 0 <= j < |table| && table[j] == xs[i];
        var k :| 0 <= k < |table| && table[k] == ys[i];
      }
    }
  }

  function LogOwner(): LeafRow -> Option<int> {
    (r: LeafRow) => Some(r.accountID)
  }

  function LogID(): LeafRow -> int {
    (r: LeafRow) => r.id
  }

  function OwnedBy(): int -> (LeafRow -> bool) {
    (id: int) => OwnerIn([id])
  }

  function ScanLog(q: LeafQ): LeafRow -> LeafRow {
    (r: LeafRow) => ScanLeaf(UsageLogsQuery(q).sel.fields, r)
  }

  lemma {:induction false} UsageLogsAsRows(db: DB, q: LeafQ, ids: seq<int>, id: int)
    requires UniqueBy(LogID(), db.usageLogs)
    ensures var sel := UsageLogsQuery(q).sel;
            UsageLogsShare(db, Some(q), ids, id) == NaiveUsageLogs(db, Some(q), id)
            <==> Filter(sel.Where(OwnerIn(ids)).Run(db.usageLogs), OwnedBy()(id))
                 == sel.Where(OwnedBy()(id)).Run(db.usageLogs)
  {
    var u := UsageLogsQuery(q);
    var raw, found := u.sel.Where(OwnerIn(ids)).Run(db.usageLogs), LeafNodes(u, OwnerIn(ids), db.usageLogs);
    PickIsFilter(raw, found, LeafOwners(found), id, ScanLog(q), OwnerIn([id]));
    var a, b := Filter(raw, OwnerIn([id])), u.sel.Where(OwnerIn([id])).Run(db.usageLogs);
    forall r | r in a ensures r in db.usageLogs {
      FilterMember(raw, OwnerIn([id]), r);
      RunMember(u.sel.Where(OwnerIn(ids)), db.usageLogs, r);
    }
    forall r | r in b ensures r in db.usageLogs {
      RunMember(u.sel.Where(OwnerIn([id])), db.usageLogs, r);
    }
    NodesDetermineRows(ScanLog(q), LogID(), LogID(), db.usageLogs, a, b);
    assert NaiveUsageLogs(db, Some(q), id) == Map(ScanLog(q), b);
  }

  /** A limit or an offset on the usage log edge gives every account the logs it would get alone, if and only if
      the window over everything matched is harmless. */
  lemma {:induction false} UsageLogsWindowExact(db: DB, q: LeafQ, ids: seq<int>)
    requires UniqueBy(LogID(), db.usageLogs)
    ensures var sel := UsageLogsQuery(q).sel;
            (forall id :: id in ids ==> UsageLogsShare(db, Some(q), ids, id) == NaiveUsageLogs(db, Some(q), id))
            <==> Harmless(sel, sel.Where(OwnerIn(ids)).Matching(db.usageLogs), LogOwner())
  {
    hide Harmless, UsageLogsShare, NaiveUsageLogs, Filter, StableSort;
    forall id | id in ids {
      UsageLogsAsRows(db, q, ids, id);
    }
    WindowExact(UsageLogsQuery(q).sel, db.usageLogs, LogID(), LogOwner(), OwnerIn(ids), OwnedBy(), ids);
  }

  function ParentOf(): AccountRow -> Option<int> {
    (r: AccountRow) => r.parentAccountID
  }

  function AccountID(): AccountRow -> int {
    (r: AccountRow) => r.id
  }

  function ChildOf(): int -> (AccountRow -> bool) {
    (id: int) => ParentIn([id])
  }

  function TreeID(): AccountTree -> int {
    (t: AccountTree) => t.row.id
  }

  lemma {:induction false} ChildrenAsRows(db: DB, q: AccountQ, ids: seq<int>, id: int)
    requires WellFormed(db) && EdgesUnlimited(q.edges)
    ensures var sel := q.sel.NeedField(Int64Column(ParentAccountID));
            ChildrenShare(db, Some(q), ids, id) == NaiveChildren(db, Some(q), id)
            <==> Filter(sel.Where(ParentIn(ids)).Run(db.accounts), ChildOf()(id))
                 == sel.Where(ChildOf()(id)).Run(db.accounts)
  {
    hide NaiveAccount, Filter, StableSort;
    var b, o := ChildrenQuery(q, ids), ChildrenQuery(q, [id]);
    var columns := AccountColumns(b.sel.fields, b.edges);
    var node := NodeOf(db, columns, q.edges);
    var raw, single := b.sel.Run(db.accounts), o.sel.Run(db.accounts);
    LoadIsNaive(db, b);
    NaiveAccountsAsMap(db, b);
    NaiveAccountsAsMap(db, o);
    ChildrenPickedRows(db, q, ids, id);
    var kept := Filter(raw, ParentIn([id]));
    forall r | r in kept ensures r in db.accounts {
      FilterMember(raw, ParentIn([id]), r);
      RunMember(b.sel, db.accounts, r);
    }
    forall r | r in single ensures r in db.accounts {
      RunMember(o.sel, db.accounts, r);
    }
    forall r | r in db.accounts ensures TreeID()(node(r)) == AccountID()(r) {
      NodeKeepsID(db, b.sel.fields, q.edges, r);
    }
    NodesDetermineRows(node, TreeID(), AccountID(), db.accounts, kept, single);
  }

  lemma {:induction false} NodeKeepsID(db: DB, fields: seq<Column>, edges: AccountEdgesQ, r: AccountRow)
    ensures NodeOf(db, AccountColumns(fields, edges), edges)(r).row.id == r.id
  {
    hide AccountColumns;
    ColumnsHaveKeys(fields, edges);
    ScannedID(AccountColumns(fields, edges), r);
  }

  lemma {:induction false} ChildrenPickedRows(db: DB, q: AccountQ, ids: seq<int>, id: int)
    ensures var b := ChildrenQuery(q, ids);
            var found := NaiveAccounts(db, b);
            Pick(found, TreeParents(found), Some(id))
            == Map(NodeOf(db, AccountColumns(b.sel.fields, b.edges), b.edges),
                   Filter(b.sel.Run(db.accounts), ParentIn([id])))
  {
    hide Filter, StableSort, AccountColumns, ScanRow;
    var b := ChildrenQuery(q, ids);
    var found, raw := NaiveAccounts(db, b), b.sel.Run(db.accounts);
    NaiveAccountsAsMap(db, b);
    ColumnsHaveKeys(b.sel.fields, b.edges);
    forall j | 0 <= j < |raw| ensures TreeParents(found)[j] == Some(id) <==> ParentIn([id])(raw[j]) {
      ScannedParent(AccountColumns(b.sel.fields, b.edges), raw[j]);
    }
    PickIsFilter(raw, found, TreeParents(found), Some(id), NodeOf(db, AccountColumns(b.sel.fields, b.edges), b.edges),
                 ParentIn([id]));
  }

  /** The same for children and everything loaded below them. */
  lemma {:induction false} ChildrenWindowExact(db: DB, q: AccountQ, ids: seq<int>)
    requires WellFormed(db) && EdgesUnlimited(q.edges)
    ensures var sel := q.sel.NeedField(Int64Column(ParentAccountID));
            (forall id :: id in ids ==> ChildrenShare(db, Some(q), ids, id) == NaiveChildren(db, Some(q), id))
            <==> Harmless(sel, sel.Where(ParentIn(ids)).Matching(db.accounts), ParentOf())
  {
    hide Harmless, ChildrenShare, NaiveChildren, Filter, StableSort;
    forall id | id in ids {
      ChildrenAsRows(db, q, ids, id);
    }
    assert UniqueBy(AccountID(), db.accounts);
    WindowExact(q.sel.NeedField(Int64Column(ParentAccountID)), db.accounts, AccountID(), ParentOf(), ParentIn(ids),
                ChildOf(), ids);
  }

  // ---- a database on which a limit of one starves the second account ----

  const TWO_LOGS := [LeafRow(10, 1, map[]), LeafRow(11, 2, map[])]
  const FIRST_LOG: LeafQ := LeafQ(Selection([], [], [], Some(1), None), [])

  lemma {:induction false} EdgeLimitStarves(db: DB)
    requires db.usageLogs == TWO_LOGS
    ensures !forall id :: id in [1, 2] ==>
              UsageLogsShare(db, Some(FIRST_LOG), [1, 2], id) == NaiveUsageLogs(db, Some(FIRST_LOG), id)
  {
    hide UsageLogsShare, NaiveUsageLogs, Filter, StableSort;
    var sel := UsageLogsQuery(FIRST_LOG).sel;
    var all := sel.Where(OwnerIn([1, 2])).Matching(db.usageLogs);
    assert UniqueBy(LogID(), db.usageLogs);
    UsageLogsWindowExact(db, FIRST_LOG, [1, 2]);
    MatchedTwo(db);
    OwnLog();
    assert LogOwner()(all[0]) != Some(2);
    assert OffsetOf(sel) == 0 && EndOf(sel, 2) == 1;
    assert !Harmless(sel, all, LogOwner());
  }

  lemma {:induction false} OwnLog()
    ensures |Filter(TWO_LOGS, Has(LogOwner(), 2))| > 0
  {
    FilterMember(TWO_LOGS, Has(LogOwner(), 2), TWO_LOGS[1]);
  }

  lemma {:induction false} MatchedTwo(db: DB)
    requires db.usageLogs == TWO_LOGS
    ensures UsageLogsQuery(FIRST_LOG).sel.Where(OwnerIn([1, 2])).Matching(db.usageLogs) == TWO_LOGS
  {
    hide Filter, StableSort;
    FilterAll(TWO_LOGS, UsageLogsQuery(FIRST_LOG).sel.Where(OwnerIn([1, 2])).Test());
    Unsorted(TWO_LOGS);
  }
}
