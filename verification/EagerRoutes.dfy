/** From an account to its groups there are two routes: the many-to-many edge, and the join rows followed by the
    group of each. They lead to the same groups. */
module EagerRoutes {
  import opened Basics
  import opened Selections
  import opened EagerModel
  import opened EagerSpec
  import opened EagerNaive
  import opened EagerGroups
  import opened EagerRefinement

  /** The groups reached through join rows, in the order of the rows; rows without a group are skipped. */
  function Reached(joins: seq<AccountGroupTree>): seq<LeafRow> {
    if joins == [] then []
    else
      var n := |joins| - 1;
      if joins[n].group.Some? then Reached(joins[..n]) + [joins[n].group.value] else Reached(joins[..n])
  }

  /** The join rows of an account name no group twice: (account_id, group_id) is a key. */
  ghost predicate UniquePairs(joins: seq<AccountGroupRow>) {
    forall i, j :: 0 <= i < j < |joins| ==>
      joins[i].accountID != joins[j].accountID || joins[i].groupID != joins[j].groupID
  }

  // ---- the rows behind both routes ----

  function RawTarget(db: DB, q: LeafQ, group: int): Option<LeafRow> {
    LastOf(q.sel.Where(LeafIDIn([group])).Run(db.groups))
  }

  function RawReached(db: DB, q: LeafQ, joins: seq<AccountGroupRow>): seq<LeafRow> {
    if joins == [] then []
    else
      var n := |joins| - 1;
      var g := RawTarget(db, q, joins[n].groupID);
      if g.Some? then RawReached(db, q, joins[..n]) + [g.value] else RawReached(db, q, joins[..n])
  }

  function RawDirect(db: DB, q: LeafQ, account: int): seq<LeafRow> {
    q.sel.Where(GroupOf(db.accountGroups, account)).Run(db.groups)
  }

  function RawJoins(db: DB, j: AccountGroupQ, account: int): seq<AccountGroupRow> {
    AccountGroupsQuery(j, [account]).sel.Run(db.accountGroups)
  }

  function Scan(q: LeafQ): LeafRow -> LeafRow {
    (r: LeafRow) => ScanLeaf(q.sel.fields, r)
  }

  lemma {:induction false} RawTargetIs(db: DB, q: LeafQ, group: int, g: LeafRow)
    requires WellFormed(db) && q.sel.Unlimited()
    ensures RawTarget(db, q, group) == Some(g) <==> g in db.groups && q.sel.Holds(g) && g.id == group
  {
    var w := q.sel.Where(LeafIDIn([group]));
    MatchingMember(w, db.groups, g);
    WhereHolds(q.sel, LeafIDIn([group]), g);
    var found := w.Run(db.groups);
    if found != [] {
      var last := found[|found| - 1];
      MatchingMember(w, db.groups, last);
      WhereHolds(q.sel, LeafIDIn([group]), last);
      SameKeySameRow(db, last, g);
    }
  }

  lemma {:induction false} SameKeySameRow(db: DB, a: LeafRow, b: LeafRow)
    requires WellFormed(db) && a in db.groups
    ensures b in db.groups && a.id == b.id ==> a == b
  {
    if b in db.groups && a.id == b.id {
      var i :| 0 <= i < |db.groups| && db.groups[i] == a;
      var j :| 0 <= j < |db.groups| && db.groups[j] == b;
    }
  }

  lemma {:induction false} RawReachedMember(db: DB, q: LeafQ, joins: seq<AccountGroupRow>, g: LeafRow)
    requires WellFormed(db) && q.sel.Unlimited()
    ensures g in RawReached(db, q, joins)
       <==> g in db.groups && q.sel.Holds(g) && exists i :: 0 <= i < |joins| && joins[i].groupID == g.id
  {
    hide RawTarget;
    if joins != [] {
      var n := |joins| - 1;
      RawReachedMember(db, q, joins[..n], g);
      RawTargetIs(db, q, joins[n].groupID, g);
      assert forall i :: 0 <= i < n ==> joins[..n][i] == joins[i];
    }
  }

  lemma {:induction false} RawDirectMember(db: DB, q: LeafQ, account: int, g: LeafRow)
    requires q.sel.Unlimited()
    ensures g in RawDirect(db, q, account)
            <==> g in db.groups && q.sel.Holds(g) && IsMember(db.accountGroups, account, g.id)
  {
    MatchingMember(q.sel.Where(GroupOf(db.accountGroups, account)), db.groups, g);
    WhereHolds(q.sel, GroupOf(db.accountGroups, account), g);
  }

  lemma {:induction false} RawJoinsMember(db: DB, j: AccountGroupQ, account: int, r: AccountGroupRow)
    requires j.sel.Unlimited()
    ensures r in RawJoins(db, j, account) <==> r in db.accountGroups && r.accountID == account && j.sel.Holds(r)
  {
    var sel := j.sel.NeedField(AccountIDField);
    MatchingMember(sel.Where(JoinOwnerIn([account])), db.accountGroups, r);
    WhereHolds(sel, JoinOwnerIn([account]), r);
    assert sel.Holds(r) <==> j.sel.Holds(r);
  }

  /** Some join row of the account and the group meets the predicates of the join query. */
  predicate Followed(db: DB, j: AccountGroupQ, account: int, group: int) {
    exists i :: 0 <= i < |db.accountGroups| && db.accountGroups[i].accountID == account
                && db.accountGroups[i].groupID == group && j.sel.Holds(db.accountGroups[i])
  }

  /** The join query hides none of the account's groups that meet the group query. */
  predicate NoneHidden(db: DB, q: LeafQ, j: AccountGroupQ, account: int) {
    forall g :: g in db.groups && q.sel.Holds(g) && IsMember(db.accountGroups, account, g.id) ==>
      Followed(db, j, account, g.id)
  }

  lemma {:induction false} ReachedThroughJoins(db: DB, q: LeafQ, j: AccountGroupQ, account: int, g: LeafRow)
    requires WellFormed(db) && q.sel.Unlimited() && j.sel.Unlimited()
    ensures g in RawReached(db, q, RawJoins(db, j, account))
       <==> g in db.groups && q.sel.Holds(g) && Followed(db, j, account, g.id)
  {
    hide RawJoins, RawReached;
    var joins := RawJoins(db, j, account);
    RawReachedMember(db, q, joins, g);
    if Followed(db, j, account, g.id) {
      var i :| 0 <= i < |db.accountGroups| && db.accountGroups[i].accountID == account
               && db.accountGroups[i].groupID == g.id && j.sel.Holds(db.accountGroups[i]);
      RawJoinsMember(db, j, account, db.accountGroups[i]);
      var k :| 0 <= k < |joins| && joins[k] == db.accountGroups[i];
    }
    if k :| 0 <= k < |joins| && joins[k].groupID == g.id {
      RawJoinsMember(db, j, account, joins[k]);
      var i :| 0 <= i < |db.accountGroups| && db.accountGroups[i] == joins[k];
    }
  }

  /** The join rows never lead to a row the direct route does not have, and lead to all of them exactly if none
      is hidden. */
  lemma {:induction false} SameMembersExactly(db: DB, q: LeafQ, j: AccountGroupQ, account: int)
    requires WellFormed(db) && q.sel.Unlimited() && j.sel.Unlimited()
    ensures forall g :: g in RawReached(db, q, RawJoins(db, j, account)) ==> g in RawDirect(db, q, account)
    ensures (forall g :: g in RawDirect(db, q, account) ==> g in RawReached(db, q, RawJoins(db, j, account)))
       <==> NoneHidden(db, q, j, account)
  {
    hide RawJoins, RawReached, RawDirect, Followed;
    forall g
      ensures g in RawDirect(db, q, account)
              <==> g in db.groups && q.sel.Holds(g) && IsMember(db.accountGroups, account, g.id)
      ensures g in RawReached(db, q, RawJoins(db, j, account))
              <==> g in db.groups && q.sel.Holds(g) && Followed(db, j, account, g.id)
      ensures Followed(db, j, account, g.id) ==> IsMember(db.accountGroups, account, g.id) {
      RawDirectMember(db, q, account, g);
      ReachedThroughJoins(db, q, j, account, g);
      FollowedIsMember(db, j, account, g.id);
    }
  }

  lemma {:induction false} FollowedIsMember(db: DB, j: AccountGroupQ, account: int, group: int)
    ensures Followed(db, j, account, group) ==> IsMember(db.accountGroups, account, group)
  {
  }

  // ---- repetitions ----

  lemma {:induction false} RawReachedDistinct(db: DB, q: LeafQ, joins: seq<AccountGroupRow>)
    requires WellFormed(db) && q.sel.Unlimited()
    requires forall i, j :: 0 <= i < j < |joins| ==> joins[i].groupID != joins[j].groupID
    ensures Distinct(RawReached(db, q, joins))
  {
    hide RawTarget;
    if joins != [] {
      var n := |joins| - 1;
      RawReachedDistinct(db, q, joins[..n]);
      var g := RawTarget(db, q, joins[n].groupID);
      if g.Some? {
        RawTargetIs(db, q, joins[n].groupID, g.value);
        RawReachedMember(db, q, joins[..n], g.value);
      }
    }
  }

  lemma {:induction false} RawJoinsDistinct(db: DB, j: AccountGroupQ, account: int)
    requires UniquePairs(db.accountGroups)
    ensures forall a, b :: 0 <= a < b < |RawJoins(db, j, account)|
              ==> RawJoins(db, j, account)[a].groupID != RawJoins(db, j, account)[b].groupID
  {
    var own, group := JoinOwnerIn([account]), (r: AccountGroupRow) => r.groupID;
    var w := AccountGroupsQuery(j, [account]).sel;
    var mine := Filter(db.accountGroups, own);
    FilteredPairs(db.accountGroups, account);
    forall r | r in db.accountGroups ensures w.Test()(r) == (own(r) && w.Test()(r)) {
      WhereHolds(j.sel.NeedField(AccountIDField), own, r);
    }
    FilterFilter(db.accountGroups, own, w.Test(), w.Test());
    RunUnique(w, mine, group);
    var joins := RawJoins(db, j, account);
    assert forall a, b :: 0 <= a < b < |joins| ==> group(joins[a]) != group(joins[b]);
  }

  lemma {:induction false} FilteredPairs(joins: seq<AccountGroupRow>, account: int)
    requires UniquePairs(joins)
    ensures UniqueBy((r: AccountGroupRow) => r.groupID, Filter(joins, JoinOwnerIn([account])))
  {
    if joins != [] {
      var n := |joins| - 1;
      FilteredPairs(joins[..n], account);
      if joins[n].accountID == account {
        forall r | r in Filter(joins[..n], JoinOwnerIn([account])) ensures r.groupID != joins[n].groupID {
          FilterMember(joins[..n], JoinOwnerIn([account]), r);
          var i :| 0 <= i < n && joins[i] == r;
        }
      }
    }
  }

  lemma {:induction false} RawDirectDistinct(db: DB, q: LeafQ, account: int)
    requires WellFormed(db)
    ensures Distinct(RawDirect(db, q, account))
  {
    var rows := RawDirect(db, q, account);
    assert UniqueBy(LeafKey(), db.groups);
    RunUnique(q.sel.Where(GroupOf(db.accountGroups, account)), db.groups, LeafKey());
    assert forall i, j :: 0 <= i < j < |rows| ==> LeafKey()(rows[i]) != LeafKey()(rows[j]);
  }

  lemma {:induction false} DistinctCounts<T(!new)>(xs: seq<T>, x: T)
    requires Distinct(xs)
    ensures multiset(xs)[x] == if x in xs then 1 else 0
  {
    if xs != [] {
      var n := |xs| - 1;
      DistinctCounts(xs[..n], x);
      assert xs == xs[..n] + [xs[n]];
    }
  }

  lemma {:induction false} SameDistinct<T(!new)>(xs: seq<T>, ys: seq<T>)
    requires Distinct(xs) && Distinct(ys) && forall x :: x in xs <==> x in ys
    ensures multiset(xs) == multiset(ys)
  {
    forall x ensures multiset(xs)[x] == multiset(ys)[x] {
      DistinctCounts(xs, x);
      DistinctCounts(ys, x);
    }
  }

  lemma {:induction false} Without<T>(xs: seq<T>, k: nat)
    requires k < |xs|
    ensures multiset(xs) == multiset(xs[..k] + xs[k + 1..]) + multiset{xs[k]}
    ensures multiset(xs[..k] + xs[k + 1..]) == multiset(xs) - multiset{xs[k]}
  {
    assert xs == xs[..k] + [xs[k]] + xs[k + 1..];
    assert multiset(xs[..k] + [xs[k]] + xs[k + 1..]) == multiset(xs[..k]) + multiset{xs[k]} + multiset(xs[k + 1..]);
    assert multiset(xs[..k] + xs[k + 1..]) == multiset(xs[..k]) + multiset(xs[k + 1..]);
  }

  /** A permutation can be undone one element at a time. */
  lemma {:induction false} HeadIn<T>(xs: seq<T>, ys: seq<T>) returns (k: nat)
    requires multiset(xs) == multiset(ys) && xs != []
    ensures k < |ys| && ys[k] == xs[0]
    ensures multiset(xs[..0] + xs[1..]) == multiset(ys[..k] + ys[k + 1..])
  {
    assert xs[0] in multiset(ys);
    k :| 0 <= k < |ys| && ys[k] == xs[0];
    Without(xs, 0);
    Without(ys, k);
  }

  lemma {:induction false} MapPermutes<T, U>(f: T -> U, xs: seq<T>, ys: seq<T>)
    requires multiset(xs) == multiset(ys)
    ensures multiset(Map(f, xs)) == multiset(Map(f, ys))
    decreases |xs|
  {
    if xs == [] {
      assert |multiset(ys)| == 0;
    } else {
      var k := HeadIn(xs, ys);
      var xs', ys' := xs[..0] + xs[1..], ys[..k] + ys[k + 1..];
      MapPermutes(f, xs', ys');
      MapWithout(f, xs, 0);
      MapWithout(f, ys, k);
    }
  }

  lemma {:induction false} MapWithout<T, U>(f: T -> U, xs: seq<T>, k: nat)
    requires k < |xs|
    ensures multiset(Map(f, xs)) == multiset(Map(f, xs[..k] + xs[k + 1..])) + multiset{f(xs[k])}
  {
    Without(Map(f, xs), k);
    assert Map(f, xs)[..k] + Map(f, xs)[k + 1..] == Map(f, xs[..k] + xs[k + 1..]);
  }

  // ---- from rows to loaded nodes ----

  lemma {:induction false} ReachedAsMap(db: DB, q: LeafQ, edges: AccountGroupEdgesQ, columns: seq<AccountGroupColumn>,
                                        joins: seq<AccountGroupRow>)
    requires edges.group == Some(q) && GroupIDField in columns
    ensures Reached(Map(JoinNodeOf(db, columns, edges), joins)) == Map(Scan(q), RawReached(db, q, joins))
  {
    hide RawTarget, NaiveAccountTarget;
    if joins != [] {
      var n := |joins| - 1;
      var node := JoinNodeOf(db, columns, edges);
      ReachedAsMap(db, q, edges, columns, joins[..n]);
      assert Map(node, joins)[..n] == Map(node, joins[..n]);
      TargetAsScan(db, q, joins[n].groupID);
      var before, g := RawReached(db, q, joins[..n]), RawTarget(db, q, joins[n].groupID);
      if g.Some? {
        assert Map(Scan(q), before + [g.value]) == Map(Scan(q), before) + [Scan(q)(g.value)];
      }
    }
  }

  lemma {:induction false} TargetAsScan(db: DB, q: LeafQ, group: int)
    ensures NaiveTarget(Some(q), db.groups, Some(group))
         == match RawTarget(db, q, group) case Some(g) => Some(Scan(q)(g)) case None => None
  {
  }

  lemma {:induction false} NaiveRoutesAgree(db: DB, q: LeafQ, j: AccountGroupQ, account: int)
    requires WellFormed(db) && q.sel.Unlimited() && j.sel.Unlimited() && j.edges.group == Some(q)
    ensures var direct, reached := NaiveGroups(db, Some(q), account), Reached(NaiveJoins(db, Some(j), account));
            && (forall g :: g in reached ==> g in direct)
            && ((forall g :: g in direct ==> g in reached) <==> NoneHidden(db, q, j, account))
            && (UniquePairs(db.accountGroups) ==>
                  (multiset(direct) == multiset(reached) <==> NoneHidden(db, q, j, account)))
  {
    hide RawReached, RawDirect, RawJoins, NoneHidden, Reached, NaiveJoins, NaiveGroups;
    var direct, joins := RawDirect(db, q, account), RawJoins(db, j, account);
    var reached := RawReached(db, q, joins);
    RoutesAsMaps(db, q, j, account);
    SameMembersExactly(db, q, j, account);
    DirectAreGroups(db, q, account);
    MapIncluded(Scan(q), reached, direct);
    ScannedIncluded(db, q, direct, reached);
    SameMultisets(Map(Scan(q), direct), Map(Scan(q), reached));
    if UniquePairs(db.accountGroups) && NoneHidden(db, q, j, account) {
      RawJoinsDistinct(db, j, account);
      RawReachedDistinct(db, q, joins);
      RawDirectDistinct(db, q, account);
      SameDistinct(direct, reached);
      MapPermutes(Scan(q), direct, reached);
    }
  }

  lemma {:induction false} DirectAreGroups(db: DB, q: LeafQ, account: int)
    requires q.sel.Unlimited()
    ensures forall g :: g in RawDirect(db, q, account) ==> g in db.groups
  {
    forall g | g in RawDirect(db, q, account) ensures g in db.groups {
      RawDirectMember(db, q, account, g);
    }
  }

  lemma {:induction false} SameMultisets<T>(xs: seq<T>, ys: seq<T>)
    ensures multiset(xs) == multiset(ys) ==> forall x :: x in xs ==> x in ys
  {
    if multiset(xs) == multiset(ys) {
      forall x | x in xs ensures x in ys {
        assert x in multiset(xs);
      }
    }
  }

  /** Scanning keeps the id, so among groups of the table it keeps apart what was apart. */
  lemma {:induction false} ScannedIncluded(db: DB, q: LeafQ, xs: seq<LeafRow>, ys: seq<LeafRow>)
    requires WellFormed(db) && (forall x :: x in xs ==> x in db.groups) && forall y :: y in ys ==> y in xs
    ensures (forall u :: u in Map(Scan(q), xs) ==> u in Map(Scan(q), ys)) <==> forall x :: x in xs ==> x in ys
  {
    if forall x :: x in xs ==> x in ys {
      MapIncluded(Scan(q), xs, ys);
    }
    if forall u :: u in Map(Scan(q), xs) ==> u in Map(Scan(q), ys) {
      forall x | x in xs ensures x in ys {
        var i :| 0 <= i < |xs| && xs[i] == x;
        assert Map(Scan(q), xs)[i] == Scan(q)(x) && Scan(q)(x) in Map(Scan(q), xs) && Scan(q)(x).id == x.id;
        var k :| 0 <= k < |ys| && Map(Scan(q), ys)[k] == Scan(q)(x);
        assert ys[k] in ys && Scan(q)(ys[k]).id == ys[k].id;
        SameKeySameRow(db, x, ys[k]);
      }
    }
  }

  lemma {:induction false} MapIncluded<T(!new), U(!new)>(f: T -> U, xs: seq<T>, ys: seq<T>)
    requires forall x :: x in xs ==> x in ys
    ensures forall u :: u in Map(f, xs) ==> u in Map(f, ys)
  {
    forall u | u in Map(f, xs) ensures u in Map(f, ys) {
      var i :| 0 <= i < |xs| && Map(f, xs)[i] == u;
      assert xs[i] in ys;
      var k :| 0 <= k < |ys| && ys[k] == xs[i];
      assert Map(f, ys)[k] == u;
    }
  }

  lemma {:induction false} RoutesAsMaps(db: DB, q: LeafQ, j: AccountGroupQ, account: int)
    requires j.edges.group == Some(q)
    ensures NaiveGroups(db, Some(q), account) == Map(Scan(q), RawDirect(db, q, account))
    ensures Reached(NaiveJoins(db, Some(j), account)) == Map(Scan(q), RawReached(db, q, RawJoins(db, j, account)))
  {
    hide RawReached, Reached;
    var one := AccountGroupsQuery(j, [account]);
    NaiveAccountGroupsAsMap(db, one);
    ReachedAsMap(db, q, one.edges, JoinColumns(one.sel.fields, one.edges), RawJoins(db, j, account));
  }

  /** On every loaded account: the groups reached through the join rows are among those of the many-to-many edge.
      They are the same exactly if the predicates of the join query hide none of them, and if no pair of account
      and group is joined twice, they then also come equally often. */
  lemma {:induction false} RoutesAgree(db: DB, q: AccountQ, i: nat)
    requires WellFormed(db) && EdgesUnlimited(q.edges) && i < |LoadAccounts(db, q)|
    requires q.edges.groups.Some? && q.edges.accountGroups.Some?
             && q.edges.accountGroups.value.edges.group == q.edges.groups
    ensures var t := LoadAccounts(db, q)[i];
            var direct, reached := t.groups, Reached(t.accountGroups);
            var agree := NoneHidden(db, q.edges.groups.value, q.edges.accountGroups.value, t.row.id);
            && (forall g :: g in reached ==> g in direct)
            && ((forall g :: g in direct ==> g in reached) <==> agree)
            && (UniquePairs(db.accountGroups) ==> (multiset(direct) == multiset(reached) <==> agree))
  {
    hide NaiveGroups, NaiveJoins, Reached, NoneHidden;
    LoadIsNaive(db, q);
    NaiveRoutesAgree(db, q.edges.groups.value, q.edges.accountGroups.value, LoadAccounts(db, q)[i].row.id);
  }

  /** A join query without predicates hides nothing. */
  lemma {:induction false} PlainJoinsHideNothing(db: DB, q: LeafQ, j: AccountGroupQ, account: int)
    requires j.sel.preds == []
    ensures NoneHidden(db, q, j, account)
  {
    forall g | g in db.groups && IsMember(db.accountGroups, account, g.id) ensures Followed(db, j, account, g.id) {
      var i :| 0 <= i < |db.accountGroups| && db.accountGroups[i].accountID == account
               && db.accountGroups[i].groupID == g.id;
    }
  }

  // ---- a database on which the routes differ ----

  const ALL_GROUPS := LeafQ(Selection([], [], [], None, None), [])
  const GROUP := LeafRow(7, 0, map[])
  const MEMBERSHIP := AccountGroupRow(1, 7, 1, 0)

  function OfPriority(n: int): AccountGroupRow -> bool {
    (r: AccountGroupRow) => r.priority == n
  }

  /** Join rows of priority two only, and their groups. */
  function SecondChoices(): AccountGroupQ {
    AccountGroupQ(Selection([], [OfPriority(2)], [], None, None), [], AccountGroupEdgesQ(None, Some(ALL_GROUPS)))
  }

  function BothRoutes(): AccountQ {
    AccountQ(Selection([], [], [], None, None), [],
             AccountEdgesQ(Some(ALL_GROUPS), None, None, None, None, Some(SecondChoices())))
  }

  /** An account with one group, of priority one: the many-to-many edge has it and the join rows do not lead to it. */
  lemma {:induction false} RoutesDiffer(db: DB, i: nat)
    requires WellFormed(db) && db.groups == [GROUP] && db.accountGroups == [MEMBERSHIP]
    requires i < |LoadAccounts(db, BothRoutes())| && LoadAccounts(db, BothRoutes())[i].row.id == 1
    ensures var t := LoadAccounts(db, BothRoutes())[i];
            exists g :: g in t.groups && g !in Reached(t.accountGroups)
  {
    hide LoadAccounts, Reached;
    assert GROUP in db.groups && ALL_GROUPS.sel.Holds(GROUP);
    assert IsMember(db.accountGroups, 1, 7) by {
      assert db.accountGroups[0] == MEMBERSHIP;
    }
    assert !SecondChoices().sel.Holds(MEMBERSHIP) by {
      assert !SecondChoices().sel.preds[0](MEMBERSHIP);
    }
    assert !Followed(db, SecondChoices(), 1, 7);
    assert !NoneHidden(db, ALL_GROUPS, SecondChoices(), 1);
    RoutesAgree(db, BothRoutes(), i);
  }

  /** There is such an account to load, whatever else is stored. */
  lemma {:induction false} LoadsAccount(db: DB, k: nat) returns (i: nat)
    requires k < |db.accounts|
    ensures i < |LoadAccounts(db, BothRoutes())| && LoadAccounts(db, BothRoutes())[i].row.id == db.accounts[k].id
  {
    hide StableSort, Filter, AccountColumns;
    var q := BothRoutes();
    var columns := AccountColumns(q.sel.fields, q.edges);
    MatchingMember(q.sel, db.accounts, db.accounts[k]);
    i :| 0 <= i < |q.sel.Run(db.accounts)| && q.sel.Run(db.accounts)[i] == db.accounts[k];
    ColumnsHaveKeys(q.sel.fields, q.edges);
    ScannedID(columns, db.accounts[k]);
  }
}
