/** Limits and offsets on the other edges: single targets, join rows, and the many-to-many stream, where the rows of
    one group stay together and every row belongs to one account. */
module EagerWindows {
  import opened Basics
  import opened AccountEntity
  import opened AccountScan
  import opened Selections
  import opened EagerModel
  import opened EagerSpec
  import opened EagerNaive
  import opened EagerGroups
  import opened EagerRefinement
  import opened EagerRoutes
  import opened EagerLimits

  // ======== the many-to-many edge ========

  // ---- the joined rows: distinct, and group by group ----

  lemma {:induction false} PairsDistinct(g: LeafRow, joins: seq<AccountGroupRow>)
    requires UniquePairs(joins)
    ensures Distinct(PairsOf(g, joins))
  {
    if joins != [] {
      var n := |joins| - 1;
      var init := joins[..n];
      assert forall i :: 0 <= i < n ==> init[i] == joins[i];
      PairsDistinct(g, init);
      if joins[n].groupID == g.id {
        PairsOfMember(g, init, (joins[n].accountID, g));
      }
    }
  }

  lemma {:induction false} JoinPairsDistinct(groups: seq<LeafRow>, joins: seq<AccountGroupRow>)
    requires UniqueBy(LeafKey(), groups) && UniquePairs(joins)
    ensures Distinct(JoinPairs(groups, joins))
  {
    if groups != [] {
      var n := |groups| - 1;
      JoinPairsDistinct(groups[..n], joins);
      PairsDistinct(groups[n], joins);
      var first, second := JoinPairs(groups[..n], joins), PairsOf(groups[n], joins);
      forall i, j | 0 <= i < |first| && 0 <= j < |second| ensures first[i] != second[j] {
        EarlierGroup(groups, joins, first[i]);
        PairsOfMember(groups[n], joins, second[j]);
        assert second[j] in second;
      }
    }
  }

  lemma {:induction false} EarlierGroup(groups: seq<LeafRow>, joins: seq<AccountGroupRow>, p: (int, LeafRow))
    requires groups != [] && UniqueBy(LeafKey(), groups) && p in JoinPairs(groups[..|groups| - 1], joins)
    ensures p.1.id != groups[|groups| - 1].id
  {
    var n := |groups| - 1;
    JoinPairsMember(groups[..n], joins, p);
    var k :| 0 <= k < n && groups[k] == p.1;
    assert LeafKey()(groups[k]) != LeafKey()(groups[n]);
  }

  /** The rows of one group stay together, and name the same group. */
  ghost predicate Grouped(stream: seq<(int, LeafRow)>) {
    && (forall i, j, k :: 0 <= i < j < k < |stream| && stream[i].1.id == stream[k].1.id ==>
          stream[j].1.id == stream[i].1.id)
    && (forall i, j :: 0 <= i < j < |stream| && stream[i].1.id == stream[j].1.id ==> stream[i].1 == stream[j].1)
  }

  lemma {:induction false} JoinPairsGrouped(groups: seq<LeafRow>, joins: seq<AccountGroupRow>)
    requires UniqueBy(LeafKey(), groups)
    ensures Grouped(JoinPairs(groups, joins))
  {
    hide Grouped;
    if groups == [] {
      NothingGrouped();
    } else {
      var n := |groups| - 1;
      JoinPairsGrouped(groups[..n], joins);
      var first, second := JoinPairs(groups[..n], joins), PairsOf(groups[n], joins);
      forall i | 0 <= i < |first| ensures first[i].1.id != groups[n].id {
        EarlierGroup(groups, joins, first[i]);
      }
      forall j | 0 <= j < |second| ensures second[j].1 == groups[n] {
        PairsOfMember(groups[n], joins, second[j]);
        assert second[j] in second;
      }
      OneMoreGroup(first, second, groups[n]);
    }
  }

  lemma {:induction false} NothingGrouped()
    ensures Grouped([])
  {
  }

  lemma {:induction false} OneMoreGroup(first: seq<(int, LeafRow)>, second: seq<(int, LeafRow)>, g: LeafRow)
    requires Grouped(first) && (forall i :: 0 <= i < |first| ==> first[i].1.id != g.id)
    requires forall j :: 0 <= j < |second| ==> second[j].1 == g
    ensures Grouped(first + second)
  {
  }

  lemma {:induction false} SliceGrouped(stream: seq<(int, LeafRow)>, lo: nat, hi: nat)
    requires lo <= hi <= |stream| && Grouped(stream) && Distinct(stream)
    ensures Grouped(stream[lo..hi]) && Distinct(stream[lo..hi])
  {
    var part := stream[lo..hi];
    assert forall i :: 0 <= i < |part| ==> part[i] == stream[lo + i];
  }

  // ---- what an account receives from such a stream ----

  lemma {:induction false} FirstUnique(stream: seq<(int, LeafRow)>)
    ensures UniqueBy(LeafKey(), FirstOfEachGroup(stream))
  {
    if stream != [] {
      var n := |stream| - 1;
      FirstUnique(stream[..n]);
      var kept := FirstOfEachGroup(stream[..n]);
      assert forall i :: 0 <= i < |kept| ==> LeafIDs(kept)[i] == kept[i].id;
    }
  }

  /** The last group to appear is that of the last row. */
  lemma {:induction false} LastAppeared(stream: seq<(int, LeafRow)>)
    requires stream != [] && Grouped(stream)
    ensures var firsts := FirstOfEachGroup(stream);
            firsts != [] && firsts[|firsts| - 1] == stream[|stream| - 1].1
  {
    var n := |stream| - 1;
    var init := stream[..n];
    var kept := FirstOfEachGroup(init);
    if stream[n].1.id in LeafIDs(kept) {
      FirstIDs(init, stream[n].1.id);
      var i :| 0 <= i < n && init[i].1.id == stream[n].1.id;
      assert init[i] == stream[i] && init[n - 1] == stream[n - 1];
      SliceGroupedOnly(stream, n);
      LastAppeared(init);
    }
  }

  lemma {:induction false} SliceGroupedOnly(stream: seq<(int, LeafRow)>, n: nat)
    requires n <= |stream| && Grouped(stream)
    ensures Grouped(stream[..n])
  {
    var part := stream[..n];
    assert forall i :: 0 <= i < |part| ==> part[i] == stream[i];
  }

  function GroupOfPair(): ((int, LeafRow)) -> LeafRow {
    (p: (int, LeafRow)) => p.1
  }

  lemma {:induction false} JoinedSnoc(init: seq<(int, LeafRow)>, p: (int, LeafRow), account: int, group: int)
    ensures Joined(init + [p], account, group) <==> Joined(init, account, group) || (p.0 == account && p.1.id == group)
  {
    var s := init + [p];
    if i :| 0 <= i < |s| && s[i].0 == account && s[i].1.id == group {
      if i < |init| {
        assert init[i] == s[i];
      }
    }
    if i :| 0 <= i < |init| && init[i].0 == account && init[i].1.id == group {
      assert s[i] == init[i];
    }
    assert s[|init|] == p;
  }

  /** Group by group and without repetition, an account receives the groups of its own rows, in their order. */
  lemma {:induction false} ShareOfGrouped(stream: seq<(int, LeafRow)>, account: int)
    requires Grouped(stream) && Distinct(stream)
    ensures Filter(FirstOfEachGroup(stream), JoinedTo(stream, account))
         == Map(GroupOfPair(), Filter(stream, PairOwnerIn([account])))
  {
    if stream != [] {
      var n := |stream| - 1;
      var init, p := stream[..n], stream[n];
      assert stream == init + [p];
      SliceGrouped(stream, 0, n);
      assert stream[0..n] == init;
      ShareOfGrouped(init, account);
      ShareSnoc(init, p, account);
      FilterSnoc(init, p, PairOwnerIn([account]));
      var own := Filter(init, PairOwnerIn([account]));
      assert Map(GroupOfPair(), own + [p]) == Map(GroupOfPair(), own) + [p.1];
    }
  }

  lemma {:induction false} ShareSnoc(init: seq<(int, LeafRow)>, p: (int, LeafRow), account: int)
    requires Grouped(init + [p]) && Distinct(init + [p])
    ensures var before := Filter(FirstOfEachGroup(init), JoinedTo(init, account));
            Filter(FirstOfEachGroup(init + [p]), JoinedTo(init + [p], account))
            == if p.0 == account then before + [p.1] else before
  {
    var stream := init + [p];
    var prior, now := JoinedTo(init, account), JoinedTo(stream, account);
    var kept := FirstOfEachGroup(init);
    assert stream[..|init|] == init;
    forall g ensures now(g) <==> prior(g) || (p.0 == account && p.1.id == g.id) {
      JoinedSnoc(init, p, account, g.id);
    }
    FirstUnique(init);
    FirstIDs(init, p.1.id);
    if p.1.id in LeafIDs(kept) {
      LastAppeared(stream);
      var m := |kept| - 1;
      assert kept == kept[..m] + [p.1];
      forall g | g in kept[..m] ensures prior(g) == now(g) {
        OtherGroup(kept, g);
      }
      FilterSame(kept[..m], prior, now);
      FilterSnoc(kept[..m], p.1, prior);
      FilterSnoc(kept[..m], p.1, now);
      if p.0 == account {
        NotYet(init, p);
      }
    } else {
      forall g | g in kept ensures prior(g) == now(g) {
        KeptElsewhere(kept, p.1.id, g);
      }
      FilterSame(kept, prior, now);
      FilterSnoc(kept, p.1, now);
      NotJoined(init, p, account);
    }
  }

  lemma {:induction false} OtherGroup(kept: seq<LeafRow>, g: LeafRow)
    requires kept != [] && UniqueBy(LeafKey(), kept) && g in kept[..|kept| - 1]
    ensures g.id != kept[|kept| - 1].id
  {
    var i :| 0 <= i < |kept| - 1 && kept[i] == g;
    assert LeafKey()(kept[i]) != LeafKey()(kept[|kept| - 1]);
  }

  lemma {:induction false} KeptElsewhere(kept: seq<LeafRow>, id: int, g: LeafRow)
    requires id !in LeafIDs(kept) && g in kept
    ensures g.id != id
  {
    var i :| 0 <= i < |kept| && kept[i] == g;
    assert LeafIDs(kept)[i] == g.id;
  }

  lemma {:induction false} NotYet(init: seq<(int, LeafRow)>, p: (int, LeafRow))
    requires Grouped(init + [p]) && Distinct(init + [p])
    ensures !Joined(init, p.0, p.1.id)
  {
    var s := init + [p];
    forall i | 0 <= i < |init| ensures init[i].0 != p.0 || init[i].1.id != p.1.id {
      assert s[i] == init[i] && s[|init|] == p;
    }
  }

  lemma {:induction false} NotJoined(init: seq<(int, LeafRow)>, p: (int, LeafRow), account: int)
    requires p.1.id !in LeafIDs(FirstOfEachGroup(init))
    ensures !Joined(init, account, p.1.id)
  {
    FirstIDs(init, p.1.id);
  }

  // ---- the stream of a query with a limit ----

  /** Everything a query over the joined rows matches, before its limit. */
  function Matched(db: DB, q: LeafQ, ids: seq<int>): seq<(int, LeafRow)> {
    OnPairs(q.sel).Where(PairOwnerIn(ids)).Matching(JoinPairs(db.groups, db.accountGroups))
  }

  lemma {:induction false} MatchedIsGrouped(db: DB, q: LeafQ, ids: seq<int>)
    requires WellFormed(db) && UniquePairs(db.accountGroups)
    ensures Grouped(Matched(db, q, ids)) && Distinct(Matched(db, q, ids))
    ensures Grouped(GroupStream(db, q, ids)) && Distinct(GroupStream(db, q, ids))
  {
    hide Filter, StableSort, JoinPairs, Grouped;
    var groups, joins := q.sel.Matching(db.groups), Filter(db.accountGroups, JoinOwnerIn(ids));
    MatchedIsJoin(db, q, ids);
    MatchingUnique(q.sel, db.groups);
    FewerPairs(db.accountGroups, JoinOwnerIn(ids));
    JoinPairsGrouped(groups, joins);
    JoinPairsDistinct(groups, joins);
    var all := Matched(db, q, ids);
    CutIs(OnPairs(q.sel).Where(PairOwnerIn(ids)), all);
    var lo := OffsetOf(q.sel);
    if lo < |all| {
      SliceGrouped(all, lo, EndOf(q.sel, |all|));
    } else {
      SliceGrouped(all, 0, 0);
      assert all[0..0] == [];
    }
  }

  lemma {:induction false} MatchingUnique(sel: Selection<LeafColumn, LeafRow>, groups: seq<LeafRow>)
    requires UniqueBy(LeafKey(), groups)
    ensures UniqueBy(LeafKey(), sel.Matching(groups))
  {
    hide Filter, StableSort;
    var whole := sel.(limit := None, offset := None);
    RunUnique(whole, groups, LeafKey());
    FilterSame(groups, whole.Test(), sel.Test());
    assert whole.Run(groups) == sel.Matching(groups);
  }

  lemma {:induction false} FewerPairs(joins: seq<AccountGroupRow>, p: AccountGroupRow -> bool)
    requires UniquePairs(joins)
    ensures UniquePairs(Filter(joins, p))
  {
    if joins != [] {
      var n := |joins| - 1;
      var init := joins[..n];
      assert forall i :: 0 <= i < n ==> init[i] == joins[i];
      FewerPairs(init, p);
      forall i | 0 <= i < |Filter(init, p)|
        ensures Filter(init, p)[i].accountID != joins[n].accountID || Filter(init, p)[i].groupID != joins[n].groupID {
        assert Filter(init, p)[i] in Filter(init, p);
        FilterMember(init, p, Filter(init, p)[i]);
        var k :| 0 <= k < n && init[k] == Filter(init, p)[i];
      }
    }
  }

  /** Narrowing a query narrows what it matches, in order. */
  lemma {:induction false} MatchingFilter<C, R(!new)>(sel: Selection<C, R>, table: seq<R>, p: R -> bool)
    ensures sel.Where(p).Matching(table) == Filter(sel.Matching(table), p)
  {
    hide Filter, StableSort;
    var w := sel.Where(p);
    forall r | r in table ensures w.Test()(r) == (sel.Test()(r) && p(r)) {
      WhereHolds(sel, p, r);
    }
    SortFilter(Filter(table, sel.Test()), sel.order, p);
    FilterFilter(table, sel.Test(), p, w.Test());
  }

  /** One account's join rows yield each of its groups once. */
  lemma {:induction false} OwnGroups(groups: seq<LeafRow>, joins: seq<AccountGroupRow>, account: int)
    requires UniquePairs(joins)
    ensures Map(GroupOfPair(), JoinPairs(groups, Filter(joins, JoinOwnerIn([account]))))
         == Filter(groups, GroupOf(joins, account))
  {
    hide Filter;
    var own := Filter(joins, JoinOwnerIn([account]));
    if groups == [] {
      FilterNone(groups, GroupOf(joins, account));
    } else {
      var n := |groups| - 1;
      var g := groups[n];
      var first := JoinPairs(groups[..n], own);
      OwnGroups(groups[..n], joins, account);
      OwnGroup(g, joins, account);
      assert groups == groups[..n] + [g];
      FilterSnoc(groups[..n], g, GroupOf(joins, account));
      assert Map(GroupOfPair(), first + PairsOf(g, own))
          == Map(GroupOfPair(), first) + Map(GroupOfPair(), PairsOf(g, own));
    }
  }

  lemma {:induction false} OwnGroup(g: LeafRow, joins: seq<AccountGroupRow>, account: int)
    requires UniquePairs(joins)
    ensures Map(GroupOfPair(), PairsOf(g, Filter(joins, JoinOwnerIn([account]))))
         == if IsMember(joins, account, g.id) then [g] else []
  {
    hide Filter, PairsOf, IsMember;
    var own := JoinOwnerIn([account]);
    if joins == [] {
      NoPairs(g, account, own);
    } else {
      var n := |joins| - 1;
      var init, last := joins[..n], joins[n];
      InitUnique(joins);
      OwnGroup(g, init, account);
      MemberSnoc(joins, account, g.id);
      assert joins == init + [last];
      FilterSnoc(init, last, own);
      if last.accountID == account {
        PairsSnoc(g, Filter(init, own), last);
        NoOtherPair(joins);
      }
    }
  }

  lemma {:induction false} NoPairs(g: LeafRow, account: int, own: AccountGroupRow -> bool)
    ensures PairsOf(g, Filter([], own)) == [] && !IsMember([], account, g.id)
  {
  }

  lemma {:induction false} InitUnique(joins: seq<AccountGroupRow>)
    requires joins != [] && UniquePairs(joins)
    ensures UniquePairs(joins[..|joins| - 1])
  {
    var init := joins[..|joins| - 1];
    assert forall i :: 0 <= i < |init| ==> init[i] == joins[i];
  }

  lemma {:induction false} NoOtherPair(joins: seq<AccountGroupRow>)
    requires joins != [] && UniquePairs(joins)
    ensures var last := joins[|joins| - 1]; !IsMember(joins[..|joins| - 1], last.accountID, last.groupID)
  {
    var init := joins[..|joins| - 1];
    assert forall i :: 0 <= i < |init| ==> init[i] == joins[i];
  }

  lemma {:induction false} PairsSnoc(g: LeafRow, joins: seq<AccountGroupRow>, j: AccountGroupRow)
    ensures PairsOf(g, joins + [j])
         == PairsOf(g, joins) + (if j.groupID == g.id then [(j.accountID, g)] else [])
  {
    assert (joins + [j])[..|joins|] == joins;
  }

  /** What the query for one account's groups returns are the groups of its own stream. */
  lemma {:induction false} NaiveIsOwnStream(db: DB, q: LeafQ, account: int)
    requires UniquePairs(db.accountGroups)
    ensures q.sel.Where(GroupOf(db.accountGroups, account)).Run(db.groups)
         == Map(GroupOfPair(), GroupStream(db, q, [account]))
  {
    hide Filter, StableSort, JoinPairs;
    var w, o := q.sel.Where(GroupOf(db.accountGroups, account)), OnPairs(q.sel).Where(PairOwnerIn([account]));
    var all := Matched(db, q, [account]);
    MatchedIsJoin(db, q, [account]);
    MatchingFilter(q.sel, db.groups, GroupOf(db.accountGroups, account));
    OwnGroups(q.sel.Matching(db.groups), db.accountGroups, account);
    assert w.Matching(db.groups) == Map(GroupOfPair(), all);
    CutIs(w, Map(GroupOfPair(), all));
    CutIs(o, all);
    assert Cut(w, Map(GroupOfPair(), all)) == Map(GroupOfPair(), Cut(o, all));
  }

  function ScanGroup(q: LeafQ): LeafRow -> LeafRow {
    (g: LeafRow) => ScanLeaf(q.sel.fields, g)
  }

  lemma {:induction false} GroupsAsRows(db: DB, q: LeafQ, ids: seq<int>, account: int)
    requires WellFormed(db) && UniquePairs(db.accountGroups)
    ensures GroupsShare(db, Some(q), ids, account) == NaiveGroups(db, Some(q), account)
            <==> Filter(GroupStream(db, q, ids), PairOwnerIn([account])) == GroupStream(db, q, [account])
  {
    hide Filter, FirstOfEachGroup, GroupStream;
    var stream, own := GroupStream(db, q, ids), GroupStream(db, q, [account]);
    var share := Filter(stream, PairOwnerIn([account]));
    MatchedIsGrouped(db, q, ids);
    ShareOfGrouped(stream, account);
    NaiveIsOwnStream(db, q, account);
    assert GroupsShare(db, Some(q), ids, account) == Map(ScanGroup(q), Map(GroupOfPair(), share));
    assert NaiveGroups(db, Some(q), account) == Map(ScanGroup(q), Map(GroupOfPair(), own));
    forall p | p in share ensures p.0 == account && p.1 in db.groups {
      FilterMember(stream, PairOwnerIn([account]), p);
      StreamRow(db, q, ids, p);
    }
    forall p | p in own ensures p.0 == account && p.1 in db.groups {
      StreamRow(db, q, [account], p);
    }
    SameGroupsSameRows(db, q, account, share, own);
  }

  lemma {:induction false} StreamRow(db: DB, q: LeafQ, ids: seq<int>, p: (int, LeafRow))
    requires p in GroupStream(db, q, ids)
    ensures p.0 in ids && p.1 in db.groups
  {
    hide Filter, StableSort;
    RunMember(OnPairs(q.sel).Where(PairOwnerIn(ids)), JoinPairs(db.groups, db.accountGroups), p);
    WhereHolds(OnPairs(q.sel), PairOwnerIn(ids), p);
    JoinPairsMember(db.groups, db.accountGroups, p);
  }

  lemma {:induction false} SameGroupsSameRows(db: DB, q: LeafQ, account: int, xs: seq<(int, LeafRow)>,
                                              ys: seq<(int, LeafRow)>)
    requires WellFormed(db)
    requires (forall p :: p in xs ==> p.0 == account && p.1 in db.groups)
             && forall p :: p in ys ==> p.0 == account && p.1 in db.groups
    ensures Map(ScanGroup(q), Map(GroupOfPair(), xs)) == Map(ScanGroup(q), Map(GroupOfPair(), ys)) ==> xs == ys
  {
    var a, b := Map(ScanGroup(q), Map(GroupOfPair(), xs)), Map(ScanGroup(q), Map(GroupOfPair(), ys));
    if a == b {
      assert |xs| == |a| == |b| == |ys|;
      forall i | 0 <= i < |xs| ensures xs[i] == ys[i] {
        assert xs[i] in xs && ys[i] in ys && a[i] == b[i];
        var j :| 0 <= j < |db.groups| && db.groups[j] == xs[i].1;
        var k :| 0 <= k < |db.groups| && db.groups[k] == ys[i].1;
      }
    }
  }

  function PairOwner(): ((int, LeafRow)) -> Option<int> {
    (p: (int, LeafRow)) => Some(p.0)
  }

  function OwnPair(): int -> (((int, LeafRow)) -> bool) {
    (id: int) => PairOwnerIn([id])
  }

  /** A limit or an offset on the groups edge cuts the joined rows. Every account gets the groups it would get alone, if
      and only if the window over everything matched is harmless. */
  lemma {:induction false} GroupsWindowExact(db: DB, q: LeafQ, ids: seq<int>)
    requires WellFormed(db) && UniquePairs(db.accountGroups)
    ensures (forall id :: id in ids ==> GroupsShare(db, Some(q), ids, id) == NaiveGroups(db, Some(q), id))
       <==> Harmless(OnPairs(q.sel), Matched(db, q, ids), PairOwner())
  {
    hide Harmless, GroupsShare, NaiveGroups, Filter, StableSort, JoinPairs;
    forall id | id in ids {
      GroupsAsRows(db, q, ids, id);
    }
    MatchedIsGrouped(db, q, ids);
    RowsWindowExact(OnPairs(q.sel), JoinPairs(db.groups, db.accountGroups), PairOwner(), PairOwnerIn(ids), OwnPair(),
                    ids);
  }

  // ======== join rows with their own edges ========

  function OwnerOf(): AccountGroupRow -> Option<int> {
    (r: AccountGroupRow) => Some(r.accountID)
  }

  function OwnedJoin(): int -> (AccountGroupRow -> bool) {
    (id: int) => JoinOwnerIn([id])
  }

  lemma {:induction false} MatchingJoinsDistinct(sel: Selection<AccountGroupColumn, AccountGroupRow>,
                                                 joins: seq<AccountGroupRow>)
    requires UniquePairs(joins)
    ensures Distinct(sel.Matching(joins))
  {
    hide StableSort;
    FewerPairs(joins, sel.Test());
    var kept := Filter(joins, sel.Test());
    DistinctCounts(kept);
    StableSortPermutes(kept, sel.order);
    CountsDistinct(sel.Matching(joins));
  }

  lemma {:induction false} DistinctCounts<T(!new)>(xs: seq<T>)
    requires Distinct(xs)
    ensures forall x :: multiset(xs)[x] <= 1
  {
    if xs != [] {
      var n := |xs| - 1;
      DistinctCounts(xs[..n]);
      assert xs == xs[..n] + [xs[n]];
      assert xs[n] !in xs[..n];
    }
  }

  lemma {:induction false} CountsDistinct<T(!new)>(xs: seq<T>)
    requires forall x :: multiset(xs)[x] <= 1
    ensures Distinct(xs)
  {
    forall i, j | 0 <= i < j < |xs| ensures xs[i] != xs[j] {
      assert xs == xs[..j] + [xs[j]] + xs[j + 1..];
      assert multiset(xs) == multiset(xs[..j]) + multiset{xs[j]} + multiset(xs[j + 1..]);
      assert multiset(xs)[xs[j]] >= multiset(xs[..j])[xs[j]] + 1;
      assert xs[j] !in multiset(xs[..j]);
      assert xs[..j][i] == xs[i] && xs[i] in xs[..j];
    }
  }

  lemma {:induction false} JoinsAsRows(db: DB, q: AccountGroupQ, ids: seq<int>, id: int)
    requires WellFormed(db) && JoinEdgesUnlimited(q.edges) && UniquePairs(db.accountGroups)
    ensures var sel := q.sel.NeedField(AccountIDField);
            var share, alone := AccountGroupsShare(db, Some(q), ids, id), NaiveJoins(db, Some(q), id);
            var kept := Filter(sel.Where(JoinOwnerIn(ids)).Run(db.accountGroups), OwnedJoin()(id));
            var own := sel.Where(OwnedJoin()(id)).Run(db.accountGroups);
            && (kept == own ==> share == alone)
            && (GroupIDField in JoinColumns(sel.fields, q.edges) && share == alone ==> kept == own)
  {
    hide NaiveAccountGroup, Filter, StableSort, JoinColumns;
    var b, o := AccountGroupsQuery(q, ids), AccountGroupsQuery(q, [id]);
    var columns := JoinColumns(b.sel.fields, q.edges);
    var node := JoinNodeOf(db, columns, q.edges);
    var raw, own := b.sel.Run(db.accountGroups), o.sel.Run(db.accountGroups);
    LoadJoinsIsNaive(db, b);
    NaiveAccountGroupsAsMap(db, b);
    NaiveAccountGroupsAsMap(db, o);
    var kept := Filter(raw, JoinOwnerIn([id]));
    JoinsPickedRows(db, q, ids, id);
    forall r | r in kept ensures r in db.accountGroups && r.accountID == id {
      FilterMember(raw, JoinOwnerIn([id]), r);
      RunMember(b.sel, db.accountGroups, r);
    }
    forall r | r in own ensures r in db.accountGroups && r.accountID == id {
      RunMember(o.sel, db.accountGroups, r);
      WhereHolds(q.sel.NeedField(AccountIDField), JoinOwnerIn([id]), r);
    }
    if GroupIDField in columns {
      forall r ensures node(r).row.groupID == r.groupID {
        JoinKeepsGroup(db, columns, q.edges, r);
      }
      SameNodesSameJoins(db, node, id, kept, own);
    }
  }

  lemma {:induction false} JoinKeepsGroup(db: DB, columns: seq<AccountGroupColumn>, edges: AccountGroupEdgesQ,
                                          r: AccountGroupRow)
    requires GroupIDField in columns
    ensures JoinNodeOf(db, columns, edges)(r).row.groupID == r.groupID
  {
    hide NaiveAccountTarget, NaiveTarget;
  }

  lemma {:induction false} JoinsPickedRows(db: DB, q: AccountGroupQ, ids: seq<int>, id: int)
    ensures var b := AccountGroupsQuery(q, ids);
            var found := NaiveAccountGroups(db, b);
            Pick(found, JoinOwners(found), id)
            == Map(JoinNodeOf(db, JoinColumns(b.sel.fields, b.edges), b.edges),
                   Filter(b.sel.Run(db.accountGroups), JoinOwnerIn([id])))
  {
    hide Filter, StableSort;
    var b := AccountGroupsQuery(q, ids);
    var found, raw := NaiveAccountGroups(db, b), b.sel.Run(db.accountGroups);
    var columns := JoinColumns(b.sel.fields, b.edges);
    NaiveAccountGroupsAsMap(db, b);
    PickIsFilter(raw, found, JoinOwners(found), id, JoinNodeOf(db, columns, b.edges), JoinOwnerIn([id]));
  }

  lemma {:induction false} SameNodesSameJoins(db: DB, node: AccountGroupRow -> AccountGroupTree, id: int,
                                              xs: seq<AccountGroupRow>, ys: seq<AccountGroupRow>)
    requires UniquePairs(db.accountGroups) && forall r :: node(r).row.groupID == r.groupID
    requires (forall r :: r in xs ==> r in db.accountGroups && r.accountID == id)
             && forall r :: r in ys ==> r in db.accountGroups && r.accountID == id
    ensures Map(node, xs) == Map(node, ys) ==> xs == ys
  {
    var a, b := Map(node, xs), Map(node, ys);
    if a == b {
      assert |xs| == |a| == |b| == |ys|;
      forall i | 0 <= i < |xs| ensures xs[i] == ys[i] {
        assert xs[i] in xs && ys[i] in ys && a[i] == b[i];
        var j :| 0 <= j < |db.accountGroups| && db.accountGroups[j] == xs[i];
        var k :| 0 <= k < |db.accountGroups| && db.accountGroups[k] == ys[i];
      }
    }
  }

  /** A harmless window gives every account the join rows it would get alone; and where the group id is read, so that
      join rows of one account can be told apart, only a harmless one does. */
  lemma {:induction false} JoinsWindowExact(db: DB, q: AccountGroupQ, ids: seq<int>)
    requires WellFormed(db) && JoinEdgesUnlimited(q.edges) && UniquePairs(db.accountGroups)
    ensures var sel := q.sel.NeedField(AccountIDField);
            var harmless := Harmless(sel, sel.Where(JoinOwnerIn(ids)).Matching(db.accountGroups), OwnerOf());
            var fair := forall id :: id in ids ==>
                          AccountGroupsShare(db, Some(q), ids, id) == NaiveJoins(db, Some(q), id);
            && (harmless ==> fair)
            && (GroupIDField in JoinColumns(sel.fields, q.edges) && fair ==> harmless)
  {
    hide Harmless, AccountGroupsShare, NaiveJoins, Filter, StableSort, JoinColumns;
    var sel := q.sel.NeedField(AccountIDField);
    forall id | id in ids {
      JoinsAsRows(db, q, ids, id);
    }
    MatchingJoinsDistinct(sel.Where(JoinOwnerIn(ids)), db.accountGroups);
    RowsWindowExact(sel, db.accountGroups, OwnerOf(), JoinOwnerIn(ids), OwnedJoin(), ids);
  }

  // ---- without the group id ----

  const THREE_JOINS := [AccountGroupRow(2, 9, 1, 0), AccountGroupRow(1, 7, 1, 0), AccountGroupRow(1, 8, 1, 0)]

  const SECOND_PRIORITY: AccountGroupQ :=
    AccountGroupQ(Selection([PriorityField], [], [], Some(1), Some(1)), [], AccountGroupEdgesQ(None, None))

  /** Where it is not read, another row of the same account can stand in for the one that was due: every account gets
      what it would get alone, through a window that is not harmless. */
  lemma {:induction false} JoinsCoincide(db: DB)
    requires WellFormed(db) && db.accountGroups == THREE_JOINS
    ensures forall id :: id in [1, 2] ==>
              AccountGroupsShare(db, Some(SECOND_PRIORITY), [1, 2], id) == NaiveJoins(db, Some(SECOND_PRIORITY), id)
    ensures var sel := SECOND_PRIORITY.sel.NeedField(AccountIDField);
            !Harmless(sel, sel.Where(JoinOwnerIn([1, 2])).Matching(db.accountGroups), OwnerOf())
  {
    hide StableSort, Filter, AccountGroupsShare, NaiveJoins, Harmless;
    forall id | id in [1, 2] {
      JoinsCoincideFor(db, id);
    }
    var sel := SECOND_PRIORITY.sel.NeedField(AccountIDField);
    MatchedThree(sel);
    NotHarmless(sel);
  }

  lemma {:induction false} NotHarmless(sel: Selection<AccountGroupColumn, AccountGroupRow>)
    requires sel.limit == Some(1) && sel.offset == Some(1)
    ensures !Harmless(sel, THREE_JOINS, OwnerOf())
  {
    hide Filter;
    assert OffsetOf(sel) == 1 && EndOf(sel, 3) == 2;
    assert OwnerOf()(THREE_JOINS[1]) != OwnerOf()(THREE_JOINS[0]);
  }

  lemma {:induction false} JoinsCoincideFor(db: DB, id: int)
    requires WellFormed(db) && db.accountGroups == THREE_JOINS && id in [1, 2]
    ensures AccountGroupsShare(db, Some(SECOND_PRIORITY), [1, 2], id) == NaiveJoins(db, Some(SECOND_PRIORITY), id)
  {
    hide StableSort, Filter, NaiveAccountGroups, LoadAccountGroups, JoinColumns;
    var q := SECOND_PRIORITY;
    var b, o := AccountGroupsQuery(q, [1, 2]), AccountGroupsQuery(q, [id]);
    var node := JoinNodeOf(db, JoinColumns(b.sel.fields, q.edges), q.edges);
    LoadJoinsIsNaive(db, b);
    JoinsPickedRows(db, q, [1, 2], id);
    NaiveAccountGroupsAsMap(db, o);
    var raw, own := b.sel.Run(db.accountGroups), o.sel.Run(db.accountGroups);
    WindowsOfThree(q.sel.NeedField(AccountIDField), id);
    FilterOne(THREE_JOINS[1], JoinOwnerIn([id]));
    SameNode(db, node);
    assert Map(node, Filter(raw, JoinOwnerIn([id]))) == Map(node, own);
  }

  lemma {:induction false} WindowsOfThree(sel: Selection<AccountGroupColumn, AccountGroupRow>, id: int)
    requires sel.preds == [] && sel.order == [] && sel.limit == Some(1) && sel.offset == Some(1) && id in [1, 2]
    ensures sel.Where(JoinOwnerIn([1, 2])).Run(THREE_JOINS) == [THREE_JOINS[1]]
    ensures sel.Where(JoinOwnerIn([id])).Run(THREE_JOINS) == if id == 1 then [THREE_JOINS[2]] else []
  {
    hide StableSort, Filter;
    MatchedThree(sel);
  }

  lemma {:induction false} SameNode(db: DB, node: AccountGroupRow -> AccountGroupTree)
    requires node == JoinNodeOf(db, JoinColumns(AccountGroupsQuery(SECOND_PRIORITY, [1, 2]).sel.fields,
                                                SECOND_PRIORITY.edges), SECOND_PRIORITY.edges)
    ensures node(THREE_JOINS[1]) == node(THREE_JOINS[2])
  {
    var columns := JoinColumns(AccountGroupsQuery(SECOND_PRIORITY, [1, 2]).sel.fields, SECOND_PRIORITY.edges);
    assert ScanAccountGroup(columns, THREE_JOINS[1]) == ScanAccountGroup(columns, THREE_JOINS[2]);
  }

  lemma {:induction false} FilterOne<T(!new)>(x: T, p: T -> bool)
    ensures Filter([x], p) == if p(x) then [x] else []
  {
    FilterSnoc([], x, p);
    assert [] + [x] == [x];
  }

  lemma {:induction false} MatchedThree(sel: Selection<AccountGroupColumn, AccountGroupRow>)
    requires sel.preds == [] && sel.order == []
    ensures sel.Where(JoinOwnerIn([1, 2])).Matching(THREE_JOINS) == THREE_JOINS
    ensures sel.Where(JoinOwnerIn([1])).Matching(THREE_JOINS) == [THREE_JOINS[1], THREE_JOINS[2]]
    ensures sel.Where(JoinOwnerIn([2])).Matching(THREE_JOINS) == [THREE_JOINS[0]]
  {
    hide StableSort, Filter;
    KeptOfThree(sel, [1, 2]);
    KeptOfThree(sel, [1]);
    KeptOfThree(sel, [2]);
  }

  lemma {:induction false} KeptOfThree(sel: Selection<AccountGroupColumn, AccountGroupRow>, ids: seq<int>)
    requires sel.preds == [] && sel.order == []
    ensures sel.Where(JoinOwnerIn(ids)).Matching(THREE_JOINS)
         == (if 2 in ids then [THREE_JOINS[0]] else []) + (if 1 in ids then [THREE_JOINS[1], THREE_JOINS[2]] else [])
  {
    hide StableSort, Filter;
    var w := sel.Where(JoinOwnerIn(ids));
    forall r ensures w.Test()(r) == (r.accountID in ids) {
      WhereHolds(sel, JoinOwnerIn(ids), r);
    }
    FilterThree(THREE_JOINS[0], THREE_JOINS[1], THREE_JOINS[2], w.Test());
    Unsorted(Filter(THREE_JOINS, w.Test()));
  }

  lemma {:induction false} FilterThree<T(!new)>(x: T, y: T, z: T, p: T -> bool)
    ensures Filter([x, y, z], p) == (if p(x) then [x] else []) + (if p(y) then [y] else []) + (if p(z) then [z] else [])
  {
    hide Filter;
    FilterOne(x, p);
    FilterSnoc([x], y, p);
    FilterSnoc([x] + [y], z, p);
    assert [x] + [y] + [z] == [x, y, z];
  }

  // ======== single targets ========

  /** Among at most one row each, the last is the same exactly if the rows are. */
  lemma {:induction false} LastOfOne<R(!new), T>(node: R -> T, nodeID: T -> int, id: R -> int, table: seq<R>,
                                                 xs: seq<R>, ys: seq<R>)
    requires UniqueBy(id, table) && forall r :: r in table ==> nodeID(node(r)) == id(r)
    requires (forall x :: x in xs ==> x in table) && (forall y :: y in ys ==> y in table)
    requires |xs| <= 1 && |ys| <= 1
    ensures LastOf(Map(node, xs)) == LastOf(Map(node, ys)) <==> xs == ys
  {
    NodesDetermineRows(node, nodeID, id, table, xs, ys);
    if LastOf(Map(node, xs)) == LastOf(Map(node, ys)) {
      assert |Map(node, xs)| == |Map(node, ys)|;
      assert Map(node, xs) == Map(node, ys);
    }
  }

  /** A key leads to at most one row. */
  lemma {:induction false} OneTarget<C, R(!new)>(sel: Selection<C, R>, table: seq<R>, id: R -> int, keep: R -> bool,
                                                 k: int)
    requires UniqueBy(id, table) && forall r :: keep(r) <==> id(r) == k
    ensures |Filter(sel.Run(table), keep)| <= 1
    ensures |sel.Where(keep).Run(table)| <= 1
  {
    hide StableSort;
    RunUnique(sel, table, id);
    UniqueMeansAtMostOne(id, sel.Run(table), k);
    FilterSame(sel.Run(table), keep, HasKey(id, k));
    var found := sel.Where(keep).Run(table);
    RunUnique(sel.Where(keep), table, id);
    UniqueMeansAtMostOne(id, found, k);
    forall r | r in found ensures HasKey(id, k)(r) {
      RunMember(sel.Where(keep), table, r);
      WhereHolds(sel, keep, r);
    }
    FilterAll(found, HasKey(id, k));
  }

  function LeafIDOf(): LeafRow -> Option<int> {
    (r: LeafRow) => Some(r.id)
  }

  function LeafWithID(): int -> (LeafRow -> bool) {
    (id: int) => LeafIDIn([id])
  }

  lemma {:induction false} LeafTargetAsRows(q: LeafQ, table: seq<LeafRow>, ids: seq<int>, k: int)
    requires UniqueBy(LeafKey(), table)
    ensures var found := LeafNodes(q, LeafIDIn(ids), table);
            LastWith(found, LeafIDs(found), k) == LastOf(LeafNodes(q, LeafIDIn([k]), table))
            <==> Filter(q.sel.Where(LeafIDIn(ids)).Run(table), LeafWithID()(k))
                 == q.sel.Where(LeafWithID()(k)).Run(table)
  {
    hide Filter, StableSort, LastWith;
    var found := LeafNodes(q, LeafIDIn(ids), table);
    var raw, own := q.sel.Where(LeafIDIn(ids)).Run(table), q.sel.Where(LeafIDIn([k])).Run(table);
    var kept := Filter(raw, LeafIDIn([k]));
    LastWithIsLastPicked(found, LeafIDs(found), k);
    PickIsFilter(raw, found, LeafIDs(found), k, ScanGroup(q), LeafIDIn([k]));
    OneTarget(q.sel.Where(LeafIDIn(ids)), table, LeafKey(), LeafIDIn([k]), k);
    OneTarget(q.sel, table, LeafKey(), LeafIDIn([k]), k);
    forall r | r in kept ensures r in table {
      FilterMember(raw, LeafIDIn([k]), r);
      RunMember(q.sel.Where(LeafIDIn(ids)), table, r);
    }
    forall r | r in own ensures r in table {
      RunMember(q.sel.Where(LeafIDIn([k])), table, r);
    }
    LastOfOne(ScanGroup(q), LeafKey(), LeafKey(), table, kept, own);
    assert LeafNodes(q, LeafIDIn([k]), table) == Map(ScanGroup(q), own);
  }

  /** A limit on the edge to a proxy, or to the group of a join row, leads every key where it would lead alone, if and
      only if the window is harmless. */
  lemma {:induction false} LeafTargetWindowExact(q: LeafQ, table: seq<LeafRow>, keys: seq<Option<int>>)
    requires UniqueBy(LeafKey(), table)
    ensures (forall key :: key in keys ==> LeafTarget(Some(q), table, keys, key) == NaiveTarget(Some(q), table, key))
       <==> Harmless(q.sel, q.sel.Where(LeafIDIn(PresentKeys(keys))).Matching(table), LeafIDOf())
  {
    hide Harmless, Filter, StableSort, LastWith, LeafNodes, PresentKeys;
    var ids := PresentKeys(keys);
    forall k ensures k in ids <==> Some(k) in keys {
      PresentKeysComplete(keys, k);
    }
    forall k | k in ids {
      LeafTargetAsRows(q, table, ids, k);
    }
    WindowExact(q.sel, table, LeafKey(), LeafIDOf(), LeafIDIn(ids), LeafWithID(), ids);
    if forall key :: key in keys ==> LeafTarget(Some(q), table, keys, key) == NaiveTarget(Some(q), table, key) {
      forall k | k in ids
        ensures Filter(q.sel.Where(LeafIDIn(ids)).Run(table), LeafWithID()(k))
                == q.sel.Where(LeafWithID()(k)).Run(table) {
        assert Some(k) in keys;
        assert LeafTarget(Some(q), table, keys, Some(k)) == NaiveTarget(Some(q), table, Some(k));
      }
    }
    if forall k :: k in ids ==>
         Filter(q.sel.Where(LeafIDIn(ids)).Run(table), LeafWithID()(k)) == q.sel.Where(LeafWithID()(k)).Run(table) {
      forall key | key in keys ensures LeafTarget(Some(q), table, keys, key) == NaiveTarget(Some(q), table, key) {
        if key.Some? {
          assert key.value in ids;
        }
      }
    }
  }

  function AccountIDOf(): AccountRow -> Option<int> {
    (r: AccountRow) => Some(r.id)
  }

  function WithID(): int -> (AccountRow -> bool) {
    (id: int) => AccountIDIn([id])
  }

  lemma {:induction false} TargetPickedRows(db: DB, q: AccountQ, ids: seq<int>, k: int)
    ensures var b := ParentQuery(q, ids);
            var found := NaiveAccounts(db, b);
            Pick(found, TreeIDs(found), k)
            == Map(NodeOf(db, AccountColumns(b.sel.fields, b.edges), b.edges),
                   Filter(b.sel.Run(db.accounts), AccountIDIn([k])))
  {
    hide Filter, StableSort, AccountColumns, ScanRow;
    var b := ParentQuery(q, ids);
    var found, raw := NaiveAccounts(db, b), b.sel.Run(db.accounts);
    NaiveAccountsAsMap(db, b);
    ColumnsHaveKeys(b.sel.fields, b.edges);
    forall j | 0 <= j < |raw| ensures TreeIDs(found)[j] == k <==> AccountIDIn([k])(raw[j]) {
      ScannedID(AccountColumns(b.sel.fields, b.edges), raw[j]);
    }
    PickIsFilter(raw, found, TreeIDs(found), k, NodeOf(db, AccountColumns(b.sel.fields, b.edges), b.edges),
                 AccountIDIn([k]));
  }

  lemma {:induction false} TargetAsRows(db: DB, q: AccountQ, ids: seq<int>, k: int)
    requires WellFormed(db) && EdgesUnlimited(q.edges)
    ensures var found := LoadAccounts(db, ParentQuery(q, ids));
            LastWith(found, TreeIDs(found), k) == LastOf(NaiveAccounts(db, ParentQuery(q, [k])))
            <==> Filter(q.sel.Where(AccountIDIn(ids)).Run(db.accounts), WithID()(k))
                 == q.sel.Where(WithID()(k)).Run(db.accounts)
  {
    hide Filter, StableSort, LastWith, NaiveAccount, AccountColumns, ScanRow, LoadAccounts;
    var b, o := ParentQuery(q, ids), ParentQuery(q, [k]);
    var node := NodeOf(db, AccountColumns(b.sel.fields, b.edges), q.edges);
    var found := NaiveAccounts(db, b);
    var raw, own := b.sel.Run(db.accounts), o.sel.Run(db.accounts);
    var kept := Filter(raw, AccountIDIn([k]));
    LoadIsNaive(db, b);
    LastWithIsLastPicked(found, TreeIDs(found), k);
    TargetPickedRows(db, q, ids, k);
    NaiveAccountsAsMap(db, o);
    OneTarget(b.sel, db.accounts, AccountID(), AccountIDIn([k]), k);
    OneTarget(q.sel, db.accounts, AccountID(), AccountIDIn([k]), k);
    forall r | r in kept ensures r in db.accounts {
      FilterMember(raw, AccountIDIn([k]), r);
      RunMember(b.sel, db.accounts, r);
    }
    forall r | r in own ensures r in db.accounts {
      RunMember(o.sel, db.accounts, r);
    }
    forall r | r in db.accounts ensures TreeID()(node(r)) == AccountID()(r) {
      NodeKeepsID(db, b.sel.fields, q.edges, r);
    }
    LastOfOne(node, TreeID(), AccountID(), db.accounts, kept, own);
  }

  /** The same for the parent of an account and the owner of a join row, with everything loaded below them. */
  lemma {:induction false} TargetWindowExact(db: DB, q: AccountQ, keys: seq<Option<int>>)
    requires WellFormed(db) && EdgesUnlimited(q.edges)
    ensures (forall key :: key in keys ==>
               AccountTarget(db, Some(q), keys, key) == NaiveAccountTarget(db, Some(q), key))
       <==> Harmless(q.sel, q.sel.Where(AccountIDIn(PresentKeys(keys))).Matching(db.accounts), AccountIDOf())
  {
    hide Harmless, Filter, StableSort, LastWith, LoadAccounts, NaiveAccounts, PresentKeys;
    var ids, table := PresentKeys(keys), db.accounts;
    forall k ensures k in ids <==> Some(k) in keys {
      PresentKeysComplete(keys, k);
    }
    forall k | k in ids {
      TargetAsRows(db, q, ids, k);
    }
    WindowExact(q.sel, table, AccountID(), AccountIDOf(), AccountIDIn(ids), WithID(), ids);
    if forall key :: key in keys ==> AccountTarget(db, Some(q), keys, key) == NaiveAccountTarget(db, Some(q), key) {
      forall k | k in ids
        ensures Filter(q.sel.Where(AccountIDIn(ids)).Run(table), WithID()(k)) == q.sel.Where(WithID()(k)).Run(table) {
        assert Some(k) in keys;
        assert AccountTarget(db, Some(q), keys, Some(k)) == NaiveAccountTarget(db, Some(q), Some(k));
      }
    }
    if forall k :: k in ids ==>
         Filter(q.sel.Where(AccountIDIn(ids)).Run(table), WithID()(k)) == q.sel.Where(WithID()(k)).Run(table) {
      forall key | key in keys
        ensures AccountTarget(db, Some(q), keys, key) == NaiveAccountTarget(db, Some(q), key) {
        if key.Some? {
          assert key.value in ids;
        }
      }
    }
  }
}
