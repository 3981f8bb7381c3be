/** The many-to-many edge: what loadGroups makes of a row stream, for every stream and for the stream a
    batched query returns. */
module EagerGroups {
  import opened Basics
  import opened Selections
  import opened EagerModel
  import opened EagerSpec
  import opened EagerNaive

  // ======== the stream of a batched query, group by group ========

  lemma {:induction false} PairsOfMember(g: LeafRow, joins: seq<AccountGroupRow>, p: (int, LeafRow))
    ensures p in PairsOf(g, joins) <==> p.1 == g && IsMember(joins, p.0, g.id)
  {
    if joins != [] {
      var n := |joins| - 1;
      PairsOfMember(g, joins[..n], p);
      assert IsMember(joins, p.0, g.id)
        <==> (IsMember(joins[..n], p.0, g.id) || (joins[n].accountID == p.0 && joins[n].groupID == g.id)) by {
        MemberSnoc(joins, p.0, g.id);
      }
    }
  }

  lemma {:induction false} MemberSnoc(joins: seq<AccountGroupRow>, account: int, group: int)
    requires joins != []
    ensures IsMember(joins, account, group)
       <==> (IsMember(joins[..|joins| - 1], account, group)
             || (joins[|joins| - 1].accountID == account && joins[|joins| - 1].groupID == group))
  {
    var init := joins[..|joins| - 1];
    if j :| 0 <= j < |joins| && joins[j].accountID == account && joins[j].groupID == group {
      if j < |init| {
        assert init[j] == joins[j];
      }
    }
    if j :| 0 <= j < |init| && init[j].accountID == account && init[j].groupID == group {
      assert joins[j] == init[j];
    }
  }

  lemma {:induction false} JoinPairsMember(groups: seq<LeafRow>, joins: seq<AccountGroupRow>, p: (int, LeafRow))
    ensures p in JoinPairs(groups, joins) <==> p.1 in groups && IsMember(joins, p.0, p.1.id)
  {
    if groups != [] {
      var n := |groups| - 1;
      JoinPairsMember(groups[..n], joins, p);
      PairsOfMember(groups[n], joins, p);
      assert groups == groups[..n] + [groups[n]];
    }
  }

  lemma {:induction false} JoinPairsConcat(a: seq<LeafRow>, b: seq<LeafRow>, joins: seq<AccountGroupRow>)
    ensures JoinPairs(a + b, joins) == JoinPairs(a, joins) + JoinPairs(b, joins)
  {
    if b == [] {
      assert a + b == a;
    } else {
      var n := |b| - 1;
      JoinPairsConcat(a, b[..n], joins);
      assert (a + b)[..|a + b| - 1] == a + b[..n];
    }
  }

  lemma {:induction false} FilterPairsOf(g: LeafRow, joins: seq<AccountGroupRow>, keep: ((int, LeafRow)) -> bool,
                                         ids: seq<int>, test: bool)
    requires forall a :: keep((a, g)) <==> (test && a in ids)
    ensures Filter(PairsOf(g, joins), keep) == if test then PairsOf(g, Filter(joins, JoinOwnerIn(ids))) else []
  {
    if joins != [] {
      var n := |joins| - 1;
      FilterPairsOf(g, joins[..n], keep, ids, test);
      if joins[n].groupID == g.id {
        FilterSnoc(PairsOf(g, joins[..n]), (joins[n].accountID, g), keep);
      }
      var kept := Filter(joins[..n], JoinOwnerIn(ids));
      if joins[n].accountID in ids {
        assert (kept + [joins[n]])[..|kept|] == kept;
      }
    }
  }

  /** Filtering the join is joining the filtered tables. */
  lemma {:induction false} FilterJoinPairs(groups: seq<LeafRow>, joins: seq<AccountGroupRow>,
                                           keep: ((int, LeafRow)) -> bool, ids: seq<int>, test: LeafRow -> bool)
    requires forall a, g :: keep((a, g)) <==> (test(g) && a in ids)
    ensures Filter(JoinPairs(groups, joins), keep)
         == JoinPairs(Filter(groups, test), Filter(joins, JoinOwnerIn(ids)))
  {
    if groups != [] {
      var n := |groups| - 1;
      FilterJoinPairs(groups[..n], joins, keep, ids, test);
      FilterConcat(JoinPairs(groups[..n], joins), PairsOf(groups[n], joins), keep);
      FilterPairsOf(groups[n], joins, keep, ids, test(groups[n]));
      var kept := Filter(groups[..n], test);
      if test(groups[n]) {
        assert (kept + [groups[n]])[..|kept|] == kept;
      }
    }
  }

  lemma {:induction false} PairsLess(sel: Selection<LeafColumn, LeafRow>, i: nat, a: (int, LeafRow), b: (int, LeafRow))
    requires i <= |sel.order|
    ensures Less(OnPairs(sel).order, i, a, b) == Less(sel.order, i, a.1, b.1)
    decreases |sel.order| - i
  {
    if i < |sel.order| {
      PairsLess(sel, i + 1, a, b);
    }
  }

  lemma {:induction false} SortSnoc<R(!new)>(rows: seq<R>, x: R, keys: seq<R -> int>)
    ensures StableSort(rows + [x], keys) == Insert(StableSort(rows, keys), keys, x)
  {
    assert (rows + [x])[..|rows|] == rows;
  }

  /** Adding the pairs of one more group to a sorted join puts them where the group belongs. */
  lemma {:induction false} InsertPairs(sel: Selection<LeafColumn, LeafRow>, xs: seq<(int, LeafRow)>,
                                       a: seq<LeafRow>, b: seq<LeafRow>, joins: seq<AccountGroupRow>,
                                       g: LeafRow, some: seq<AccountGroupRow>)
    requires StableSort(xs, OnPairs(sel).order) == JoinPairs(a, joins) + JoinPairs(b, joins)
    requires forall x :: x in a ==> !Less(sel.order, 0, g, x)
    requires forall x :: x in b ==> Less(sel.order, 0, g, x)
    ensures StableSort(xs + PairsOf(g, some), OnPairs(sel).order)
         == JoinPairs(a, joins) + PairsOf(g, some) + JoinPairs(b, joins)
  {
    hide Filter, Insert, StableSort, Less;
    var keys := OnPairs(sel).order;
    if some == [] {
      assert xs + [] == xs;
      assert JoinPairs(a, joins) + [] + JoinPairs(b, joins) == JoinPairs(a, joins) + JoinPairs(b, joins);
    } else {
      var n := |some| - 1;
      InsertPairs(sel, xs, a, b, joins, g, some[..n]);
      if some[n].groupID == g.id {
        var p := (some[n].accountID, g);
        var before, after := JoinPairs(a, joins) + PairsOf(g, some[..n]), JoinPairs(b, joins);
        assert xs + PairsOf(g, some) == (xs + PairsOf(g, some[..n])) + [p];
        SortSnoc(xs + PairsOf(g, some[..n]), p, keys);
        InsertBetween(sel, before, after, p, a, b, joins, some[..n]);
        assert before + [p] + after == JoinPairs(a, joins) + PairsOf(g, some) + JoinPairs(b, joins);
      }
    }
  }

  lemma {:induction false} InsertBetween(sel: Selection<LeafColumn, LeafRow>, before: seq<(int, LeafRow)>,
                                         after: seq<(int, LeafRow)>, p: (int, LeafRow), a: seq<LeafRow>,
                                         b: seq<LeafRow>, joins: seq<AccountGroupRow>, some: seq<AccountGroupRow>)
    requires before == JoinPairs(a, joins) + PairsOf(p.1, some) && after == JoinPairs(b, joins)
    requires forall x :: x in a ==> !Less(sel.order, 0, p.1, x)
    requires forall x :: x in b ==> Less(sel.order, 0, p.1, x)
    ensures Insert(before + after, OnPairs(sel).order, p) == before + [p] + after
  {
    var keys := OnPairs(sel).order;
    forall x | x in before ensures NotBelow(keys, p)(x) && !Below(keys, p)(x) {
      PairsLess(sel, 0, p, x);
      if x in JoinPairs(a, joins) {
        JoinPairsMember(a, joins, x);
      } else {
        PairsOfMember(p.1, some, x);
        LessIsWeakOrder(sel.order, 0, p.1, p.1, p.1);
      }
    }
    forall x | x in after ensures !NotBelow(keys, p)(x) && Below(keys, p)(x) {
      PairsLess(sel, 0, p, x);
      JoinPairsMember(b, joins, x);
    }
    FilterConcat(before, after, NotBelow(keys, p));
    FilterConcat(before, after, Below(keys, p));
    FilterAll(before, NotBelow(keys, p));
    FilterNone(after, NotBelow(keys, p));
    FilterNone(before, Below(keys, p));
    FilterAll(after, Below(keys, p));
    assert before + [] == before && [] + after == after;
  }

  /** Sorting the join is joining the sorted groups: the rows of one group stay together. */
  lemma {:induction false} SortJoinPairs(sel: Selection<LeafColumn, LeafRow>, groups: seq<LeafRow>,
                                         joins: seq<AccountGroupRow>)
    ensures StableSort(JoinPairs(groups, joins), OnPairs(sel).order) == JoinPairs(StableSort(groups, sel.order), joins)
  {
    if groups != [] {
      var n := |groups| - 1;
      var g := groups[n];
      var sorted := StableSort(groups[..n], sel.order);
      SortJoinPairs(sel, groups[..n], joins);
      StableSortSorted(groups[..n], sel.order);
      var a, b := Filter(sorted, NotBelow(sel.order, g)), Filter(sorted, Below(sel.order, g));
      SplitSorted(sorted, sel.order, g);
      JoinPairsConcat(a, b, joins);
      forall x | x in a ensures !Less(sel.order, 0, g, x) {
        FilterMember(sorted, NotBelow(sel.order, g), x);
      }
      forall x | x in b ensures Less(sel.order, 0, g, x) {
        FilterMember(sorted, Below(sel.order, g), x);
      }
      InsertPairs(sel, JoinPairs(groups[..n], joins), a, b, joins, g, joins);
      JoinPairsConcat(a, [g], joins);
      JoinPairsConcat(a + [g], b, joins);
      assert JoinPairs([g], joins) == [] + PairsOf(g, joins);
    }
  }

  /** What a query over the joined rows matches is the join of the groups it matches. */
  lemma {:induction false} MatchedIsJoin(db: DB, q: LeafQ, ids: seq<int>)
    ensures OnPairs(q.sel).Where(PairOwnerIn(ids)).Matching(JoinPairs(db.groups, db.accountGroups))
         == JoinPairs(q.sel.Matching(db.groups), Filter(db.accountGroups, JoinOwnerIn(ids)))
  {
    var w := OnPairs(q.sel).Where(PairOwnerIn(ids));
    forall a, g ensures w.Test()((a, g)) <==> (q.sel.Test()(g) && a in ids) {
      WhereHolds(OnPairs(q.sel), PairOwnerIn(ids), (a, g));
      OnPairsHolds(q.sel, (a, g));
    }
    FilterJoinPairs(db.groups, db.accountGroups, w.Test(), ids, q.sel.Test());
    SortJoinPairs(q.sel, Filter(db.groups, q.sel.Test()), Filter(db.accountGroups, JoinOwnerIn(ids)));
  }

  lemma {:induction false} GroupStreamIsJoin(db: DB, q: LeafQ, ids: seq<int>)
    requires q.sel.Unlimited()
    ensures GroupStream(db, q, ids) == JoinPairs(q.sel.Run(db.groups), Filter(db.accountGroups, JoinOwnerIn(ids)))
  {
    hide StableSort, Filter, JoinPairs;
    MatchedIsJoin(db, q, ids);
  }

  lemma {:induction false} OnPairsHolds(sel: Selection<LeafColumn, LeafRow>, p: (int, LeafRow))
    ensures OnPairs(sel).Holds(p) <==> sel.Holds(p.1)
  {
    var ps := OnPairs(sel).preds;
    assert forall i :: 0 <= i < |sel.preds| ==> ps[i](p) == sel.preds[i](p.1);
  }

  // ======== what the accounts receive ========

  lemma {:induction false} FirstIDs(stream: seq<(int, LeafRow)>, id: int)
    ensures id in LeafIDs(FirstOfEachGroup(stream)) <==> exists i :: 0 <= i < |stream| && stream[i].1.id == id
  {
    if stream != [] {
      var n := |stream| - 1;
      var init := stream[..n];
      FirstIDs(init, id);
      FirstIDs(init, stream[n].1.id);
      assert forall i :: 0 <= i < n ==> init[i] == stream[i];
      var kept := FirstOfEachGroup(init);
      assert LeafIDs(kept + [stream[n].1]) == LeafIDs(kept) + [stream[n].1.id];
    }
  }

  lemma {:induction false} FirstOfOneGroup(xs: seq<(int, LeafRow)>, g: LeafRow, some: seq<AccountGroupRow>)
    requires g.id !in LeafIDs(FirstOfEachGroup(xs))
    ensures FirstOfEachGroup(xs + PairsOf(g, some))
         == FirstOfEachGroup(xs) + (if PairsOf(g, some) == [] then [] else [g])
  {
    if some == [] {
      assert xs + [] == xs;
    } else {
      var n := |some| - 1;
      FirstOfOneGroup(xs, g, some[..n]);
      if some[n].groupID == g.id {
        var p := (some[n].accountID, g);
        var before := xs + PairsOf(g, some[..n]);
        assert xs + PairsOf(g, some) == before + [p];
        assert (before + [p])[..|before|] == before;
        var kept := FirstOfEachGroup(xs);
        if PairsOf(g, some[..n]) == [] {
          assert kept + [] == kept;
        } else {
          assert LeafIDs(kept + [g])[|kept|] == g.id;
        }
      }
    }
  }

  function HasPairs(joins: seq<AccountGroupRow>): LeafRow -> bool {
    (g: LeafRow) => PairsOf(g, joins) != []
  }

  function LeafKey(): LeafRow -> int {
    (g: LeafRow) => g.id
  }

  lemma {:induction false} FirstOfJoin(groups: seq<LeafRow>, joins: seq<AccountGroupRow>)
    requires UniqueBy(LeafKey(), groups)
    ensures FirstOfEachGroup(JoinPairs(groups, joins)) == Filter(groups, HasPairs(joins))
  {
    if groups != [] {
      var n := |groups| - 1;
      var g := groups[n];
      var xs := JoinPairs(groups[..n], joins);
      assert forall i, j :: 0 <= i < j < n ==> LeafKey()(groups[i]) != LeafKey()(groups[j]);
      FirstOfJoin(groups[..n], joins);
      FirstIDs(xs, g.id);
      forall i | 0 <= i < |xs| ensures xs[i].1.id != g.id {
        JoinPairsMember(groups[..n], joins, xs[i]);
        var k :| 0 <= k < n && groups[k] == xs[i].1;
        assert LeafKey()(groups[k]) != LeafKey()(groups[n]);
      }
      FirstOfOneGroup(xs, g, joins);
      var kept := Filter(groups[..n], HasPairs(joins));
      assert kept + [] == kept;
    }
  }

  lemma {:induction false} JoinedInJoin(groups: seq<LeafRow>, joins: seq<AccountGroupRow>, account: int, g: LeafRow)
    requires UniqueBy(LeafKey(), groups) && g in groups
    ensures Joined(JoinPairs(groups, joins), account, g.id) <==> IsMember(joins, account, g.id)
  {
    var stream := JoinPairs(groups, joins);
    if Joined(stream, account, g.id) {
      var i :| 0 <= i < |stream| && stream[i].0 == account && stream[i].1.id == g.id;
      JoinPairsMember(groups, joins, stream[i]);
    }
    if IsMember(joins, account, g.id) {
      JoinPairsMember(groups, joins, (account, g));
      var i :| 0 <= i < |stream| && stream[i] == (account, g);
    }
  }

  lemma {:induction false} MemberAmong(joins: seq<AccountGroupRow>, ids: seq<int>, account: int, g: LeafRow)
    requires account in ids
    ensures IsMember(Filter(joins, JoinOwnerIn(ids)), account, g.id) <==> IsMember(joins, account, g.id)
    ensures IsMember(joins, account, g.id) ==> HasPairs(Filter(joins, JoinOwnerIn(ids)))(g)
  {
    var kept := Filter(joins, JoinOwnerIn(ids));
    if j :| 0 <= j < |joins| && joins[j].accountID == account && joins[j].groupID == g.id {
      FilterMember(joins, JoinOwnerIn(ids), joins[j]);
      var k :| 0 <= k < |kept| && kept[k] == joins[j];
      PairsOfMember(g, kept, (account, g));
    }
    if j :| 0 <= j < |kept| && kept[j].accountID == account && kept[j].groupID == g.id {
      FilterMember(joins, JoinOwnerIn(ids), kept[j]);
      var k :| 0 <= k < |joins| && joins[k] == kept[j];
    }
  }

  /** An account's share of the batched stream is the answer to the query for its own groups. */
  lemma {:induction false} GroupsAreNaive(db: DB, q: Option<LeafQ>, ids: seq<int>, account: int)
    requires WellFormed(db) && (q.Some? ==> q.value.sel.Unlimited()) && account in ids
    ensures GroupsShare(db, q, ids, account) == NaiveGroups(db, q, account)
  {
    if q.Some? {
      StreamShareIsNaive(db, q.value, ids, account);
    }
  }

  lemma {:induction false} StreamShareIsNaive(db: DB, q: LeafQ, ids: seq<int>, account: int)
    requires WellFormed(db) && q.sel.Unlimited() && account in ids
    ensures GroupsFrom(GroupStream(db, q, ids), account, q.sel.fields) == NaiveGroups(db, Some(q), account)
  {
    var groups, joins := q.sel.Run(db.groups), Filter(db.accountGroups, JoinOwnerIn(ids));
    var stream := GroupStream(db, q, ids);
    var everyone := (g: LeafRow) => true;
    var mine := GroupOf(db.accountGroups, account);
    GroupStreamIsJoin(db, q, ids);
    assert UniqueBy(LeafKey(), db.groups);
    RunUnique(q.sel, db.groups, LeafKey());
    FirstOfJoin(groups, joins);
    forall g | g in groups ensures mine(g) == (HasPairs(joins)(g) && JoinedTo(stream, account)(g)) {
      JoinedInJoin(groups, joins, account, g);
      MemberAmong(db.accountGroups, ids, account, g);
    }
    FilterFilter(groups, HasPairs(joins), JoinedTo(stream, account), mine);
    RunNarrows(q.sel, db.groups, everyone, mine);
    RunWhereTrue(q.sel, db.groups, everyone);
  }

  lemma {:induction false} RunWhereTrue<C, R(!new)>(sel: Selection<C, R>, rows: seq<R>, everyone: R -> bool)
    requires forall r :: everyone(r)
    ensures sel.Where(everyone).Run(rows) == sel.Run(rows)
  {
    forall r | r in rows ensures sel.Where(everyone).Test()(r) == sel.Test()(r) {
      WhereHolds(sel, everyone, r);
    }
    FilterSame(rows, sel.Where(everyone).Test(), sel.Test());
  }
}
