/** Running a builder twice. A load leaves the predicate of its batch, and the key column it needs, in the edge
    builders it ran: exactly when a second load still finds everything. */
module EagerReruns {
  import opened Basics
  import opened AccountEntity
  import opened Selections
  import opened EagerModel
  import opened EagerSpec
  import opened EagerNaive
  import opened EagerFailures
  import opened EagerRefinement
  import opened EagerLimits

  // ======== one builder, over any table ========

  /** A load adds the predicate of its batch to the edge builder for good. A later run of that builder over a table
      returns what the untouched builder would, if and only if no row that the later batch asks for was missing
      from the first one's keys. */
  lemma {:induction false} SecondRunExactly<C, R(!new)>(sel: Selection<C, R>, first: R -> bool, second: R -> bool,
                                                        table: seq<R>)
    requires sel.Unlimited()
    ensures sel.Where(first).Where(second).Run(table) == sel.Where(second).Run(table)
       <==> forall r :: r in table && sel.Holds(r) && second(r) ==> first(r)
  {
    hide Filter, StableSort;
    var narrowed, untouched := sel.Where(first).Where(second), sel.Where(second);
    forall r ensures narrowed.Test()(r) <==> sel.Holds(r) && first(r) && second(r)
             ensures untouched.Test()(r) <==> sel.Holds(r) && second(r) {
      WhereHolds(sel.Where(first), second, r);
      WhereHolds(sel, first, r);
      WhereHolds(sel, second, r);
    }
    if forall r :: r in table && sel.Holds(r) && second(r) ==> first(r) {
      FilterSame(table, narrowed.Test(), untouched.Test());
    } else {
      var r :| r in table && sel.Holds(r) && second(r) && !first(r);
      MatchingMember(narrowed, table, r);
      MatchingMember(untouched, table, r);
    }
  }

  /** Asked for one key, the builder finds what it always would, if the key was in the first batch, or else nothing. */
  lemma {:induction false} RunAgain<C, R(!new)>(sel: Selection<C, R>, first: R -> bool, one: R -> bool, table: seq<R>)
    requires sel.Unlimited()
    ensures (forall r :: one(r) ==> first(r)) ==>
              sel.Where(first).Where(one).Run(table) == sel.Where(one).Run(table)
    ensures (forall r :: one(r) ==> !first(r)) ==> sel.Where(first).Where(one).Run(table) == []
  {
    hide Filter, StableSort;
    SecondRunExactly(sel, first, one, table);
    if forall r :: one(r) ==> !first(r) {
      var found := sel.Where(first).Where(one).Run(table);
      if found != [] {
        RunMember(sel.Where(first).Where(one), table, found[0]);
        WhereHolds(sel.Where(first), one, found[0]);
        WhereHolds(sel, first, found[0]);
        assert false;
      }
    }
  }

  // ======== every edge that leads along a key, over a changed database ========

  // What an edge builder stands for once it was run for a batch is ParentQuery, ChildrenQuery or AccountGroupsQuery of
  // that batch; for leaf builders:

  function LogsRanFor(q: LeafQ, ids: seq<int>): LeafQ {
    q.(sel := UsageLogsQuery(q).sel.Where(OwnerIn(ids)))
  }

  function TargetsRanFor(q: LeafQ, ids: seq<int>): LeafQ {
    q.(sel := q.sel.Where(LeafIDIn(ids)))
  }

  lemma {:induction false} LogsAgain(db: DB, q: LeafQ, before: seq<int>, id: int)
    requires q.sel.Unlimited()
    ensures NaiveUsageLogs(db, Some(LogsRanFor(q, before)), id)
            == if id in before then NaiveUsageLogs(db, Some(q), id) else []
  {
    var sel := UsageLogsQuery(q).sel;
    assert UsageLogsQuery(LogsRanFor(q, before)).sel == sel.Where(OwnerIn(before));
    RunAgain(sel, OwnerIn(before), OwnerIn([id]), db.usageLogs);
  }

  /** A second load with the same usage log builder, over any database and for any accounts, is naive for the builder
      as it was written exactly if every account that now has matching logs was in the first batch. */
  lemma {:induction false} SecondLogsExactly(db: DB, q: LeafQ, before: seq<int>, ids: seq<int>)
    requires q.sel.Unlimited()
    ensures (forall id :: id in ids ==>
               UsageLogsShare(db, Some(LogsRanFor(q, before)), ids, id) == NaiveUsageLogs(db, Some(q), id))
       <==> forall id :: id in ids ==> id in before || NaiveUsageLogs(db, Some(q), id) == []
  {
    hide UsageLogsShare, NaiveUsageLogs;
    forall id | id in ids
      ensures UsageLogsShare(db, Some(LogsRanFor(q, before)), ids, id) == NaiveUsageLogs(db, Some(q), id)
         <==> id in before || NaiveUsageLogs(db, Some(q), id) == [] {
      UsageLogsAreNaive(db, Some(LogsRanFor(q, before)), ids, id);
      LogsAgain(db, q, before, id);
    }
  }

  lemma {:induction false} SameAccounts(db: DB, a: AccountQ, b: AccountQ)
    requires a.sel.fields == b.sel.fields && a.edges == b.edges
    ensures a.sel.Run(db.accounts) == b.sel.Run(db.accounts) ==> NaiveAccounts(db, a) == NaiveAccounts(db, b)
    ensures a.sel.Run(db.accounts) == [] ==> NaiveAccounts(db, a) == []
  {
    hide NaiveAccount;
    assert a.sel.Run(db.accounts) == b.sel.Run(db.accounts) ==> ScanAccounts(db, a) == ScanAccounts(db, b);
  }

  lemma {:induction false} ChildrenAgain(db: DB, q: AccountQ, before: seq<int>, id: int)
    requires q.sel.Unlimited()
    ensures NaiveChildren(db, Some(ChildrenQuery(q, before)), id)
            == if id in before then NaiveChildren(db, Some(q), id) else []
  {
    hide NaiveAccounts;
    var sel := q.sel.NeedField(Int64Column(ParentAccountID));
    var again, alone := ChildrenQuery(ChildrenQuery(q, before), [id]), ChildrenQuery(q, [id]);
    assert again.sel == sel.Where(ParentIn(before)).Where(ParentIn([id]));
    RunAgain(sel, ParentIn(before), ParentIn([id]), db.accounts);
    SameAccounts(db, again, alone);
  }

  /** The same for children and everything loaded below them. */
  lemma {:induction false} SecondChildrenExactly(db: DB, q: AccountQ, before: seq<int>, ids: seq<int>)
    requires WellFormed(db) && q.sel.Unlimited() && EdgesUnlimited(q.edges)
    ensures (forall id :: id in ids ==>
               ChildrenShare(db, Some(ChildrenQuery(q, before)), ids, id) == NaiveChildren(db, Some(q), id))
       <==> forall id :: id in ids ==> id in before || NaiveChildren(db, Some(q), id) == []
  {
    hide ChildrenShare, NaiveChildren;
    forall id | id in ids
      ensures ChildrenShare(db, Some(ChildrenQuery(q, before)), ids, id) == NaiveChildren(db, Some(q), id)
         <==> id in before || NaiveChildren(db, Some(q), id) == [] {
      ChildrenAreNaive(db, Some(ChildrenQuery(q, before)), ids, id);
      ChildrenAgain(db, q, before, id);
    }
  }

  lemma {:induction false} SameJoins(db: DB, a: AccountGroupQ, b: AccountGroupQ)
    requires a.sel.fields == b.sel.fields && a.edges == b.edges
    ensures a.sel.Run(db.accountGroups) == b.sel.Run(db.accountGroups) ==>
              NaiveAccountGroups(db, a) == NaiveAccountGroups(db, b)
    ensures a.sel.Run(db.accountGroups) == [] ==> NaiveAccountGroups(db, a) == []
  {
    hide NaiveAccountGroup;
    assert a.sel.Run(db.accountGroups) == b.sel.Run(db.accountGroups) ==>
             ScanAccountGroups(db, a) == ScanAccountGroups(db, b);
  }

  lemma {:induction false} JoinsAgain(db: DB, q: AccountGroupQ, before: seq<int>, id: int)
    requires q.sel.Unlimited()
    ensures NaiveJoins(db, Some(AccountGroupsQuery(q, before)), id)
            == if id in before then NaiveJoins(db, Some(q), id) else []
  {
    hide NaiveAccountGroups;
    var sel := q.sel.NeedField(AccountIDField);
    var again, alone := AccountGroupsQuery(AccountGroupsQuery(q, before), [id]), AccountGroupsQuery(q, [id]);
    assert again.sel == sel.Where(JoinOwnerIn(before)).Where(JoinOwnerIn([id]));
    RunAgain(sel, JoinOwnerIn(before), JoinOwnerIn([id]), db.accountGroups);
    SameJoins(db, again, alone);
  }

  /** And for join rows. */
  lemma {:induction false} SecondJoinsExactly(db: DB, q: AccountGroupQ, before: seq<int>, ids: seq<int>)
    requires WellFormed(db) && q.sel.Unlimited() && JoinEdgesUnlimited(q.edges)
    ensures (forall id :: id in ids ==>
               AccountGroupsShare(db, Some(AccountGroupsQuery(q, before)), ids, id) == NaiveJoins(db, Some(q), id))
       <==> forall id :: id in ids ==> id in before || NaiveJoins(db, Some(q), id) == []
  {
    hide AccountGroupsShare, NaiveJoins;
    forall id | id in ids
      ensures AccountGroupsShare(db, Some(AccountGroupsQuery(q, before)), ids, id) == NaiveJoins(db, Some(q), id)
         <==> id in before || NaiveJoins(db, Some(q), id) == [] {
      AccountGroupsAreNaive(db, Some(AccountGroupsQuery(q, before)), ids, id);
      JoinsAgain(db, q, before, id);
    }
  }

  lemma {:induction false} TargetAgain(db: DB, q: AccountQ, before: seq<int>, id: int)
    requires q.sel.Unlimited()
    ensures NaiveAccountTarget(db, Some(ParentQuery(q, before)), Some(id))
            == if id in before then NaiveAccountTarget(db, Some(q), Some(id)) else None
  {
    hide NaiveAccounts;
    var again, alone := ParentQuery(ParentQuery(q, before), [id]), ParentQuery(q, [id]);
    RunAgain(q.sel, AccountIDIn(before), AccountIDIn([id]), db.accounts);
    SameAccounts(db, again, alone);
  }

  /** For the account a key leads to: the parent of an account, the owner of a join row. */
  lemma {:induction false} SecondTargetExactly(db: DB, q: AccountQ, before: seq<int>, keys: seq<Option<int>>)
    requires WellFormed(db) && q.sel.Unlimited() && EdgesUnlimited(q.edges)
    ensures (forall i :: 0 <= i < |keys| ==>
               AccountTarget(db, Some(ParentQuery(q, before)), keys, keys[i])
               == NaiveAccountTarget(db, Some(q), keys[i]))
       <==> forall i :: 0 <= i < |keys| && keys[i].Some? ==>
              keys[i].value in before || NaiveAccountTarget(db, Some(q), keys[i]) == None
  {
    hide NaiveAccounts, LoadAccounts;
    forall i | 0 <= i < |keys|
      ensures AccountTarget(db, Some(ParentQuery(q, before)), keys, keys[i])
              == NaiveAccountTarget(db, Some(q), keys[i])
         <==> (keys[i].Some? ==> keys[i].value in before || NaiveAccountTarget(db, Some(q), keys[i]) == None) {
      AccountTargetIsNaive(db, Some(ParentQuery(q, before)), keys, i);
      if keys[i].Some? {
        TargetAgain(db, q, before, keys[i].value);
      }
    }
  }

  lemma {:induction false} LeafAgain(q: LeafQ, table: seq<LeafRow>, before: seq<int>, id: int)
    requires q.sel.Unlimited()
    ensures NaiveTarget(Some(TargetsRanFor(q, before)), table, Some(id))
            == if id in before then NaiveTarget(Some(q), table, Some(id)) else None
  {
    RunAgain(q.sel, LeafIDIn(before), LeafIDIn([id]), table);
  }

  /** And for proxies and the groups of join rows. */
  lemma {:induction false} SecondLeafTargetExactly(q: LeafQ, table: seq<LeafRow>, before: seq<int>,
                                                   keys: seq<Option<int>>)
    requires q.sel.Unlimited()
    ensures (forall i :: 0 <= i < |keys| ==>
               LeafTarget(Some(TargetsRanFor(q, before)), table, keys, keys[i]) == NaiveTarget(Some(q), table, keys[i]))
       <==> forall i :: 0 <= i < |keys| && keys[i].Some? ==>
              keys[i].value in before || NaiveTarget(Some(q), table, keys[i]) == None
  {
    hide LeafNodes;
    forall i | 0 <= i < |keys|
      ensures LeafTarget(Some(TargetsRanFor(q, before)), table, keys, keys[i]) == NaiveTarget(Some(q), table, keys[i])
         <==> (keys[i].Some? ==> keys[i].value in before || NaiveTarget(Some(q), table, keys[i]) == None) {
      LeafTargetIsNaive(Some(TargetsRanFor(q, before)), table, keys, keys[i]);
      if keys[i].Some? {
        LeafAgain(q, table, before, keys[i].value);
      }
    }
  }

  // ---- a database on which a second load loses a log ----

  const ANY_LOG: LeafQ := LeafQ(Selection([], [], [], None, None), [])

  /** After a load for account 1 alone the builder finds no log of account 2, though there is one. */
  lemma {:induction false} SecondLoadLoses(db: DB)
    requires db.usageLogs == TWO_LOGS
    ensures UsageLogsShare(db, Some(LogsRanFor(ANY_LOG, [1])), [2], 2) == []
    ensures NaiveUsageLogs(db, Some(ANY_LOG), 2) != []
  {
    hide UsageLogsShare, Filter, StableSort;
    UsageLogsAreNaive(db, Some(LogsRanFor(ANY_LOG, [1])), [2], 2);
    LogsAgain(db, ANY_LOG, [1], 2);
    var sel := UsageLogsQuery(ANY_LOG).sel;
    MatchingMember(sel.Where(OwnerIn([2])), db.usageLogs, TWO_LOGS[1]);
    WhereHolds(sel, OwnerIn([2]), TWO_LOGS[1]);
  }

  // ======== a whole tree of builders, over the same database ========

  /** What a query tree stands for after a load of its own: every edge builder that was run keeps the predicate and
      the column of its batch, at every depth. */
  function Left(db: DB, q: AccountQ): AccountQ
    decreases q.edges, 2
  {
    q.(edges := LeftEdges(db, ScanAccounts(db, q), q.edges))
  }

  function LeftEdges(db: DB, rows: seq<AccountRow>, edges: AccountEdgesQ): AccountEdgesQ
    decreases edges, 1
  {
    if rows == [] then edges
    else
      AccountEdgesQ(
        edges.groups, LeftLeaf(edges.proxy, ProxyKeys(rows)), LeftTarget(db, edges.parent, ParentKeys(rows)),
        LeftChildren(db, edges.children, IDs(rows)), LeftLogs(edges.usageLogs, IDs(rows)),
        LeftAccountGroups(db, edges.accountGroups, IDs(rows)))
  }

  function LeftLeaf(q: Option<LeafQ>, keys: seq<Option<int>>): Option<LeafQ> {
    if q.None? || PresentKeys(keys) == [] then q else Some(TargetsRanFor(q.value, PresentKeys(keys)))
  }

  function LeftLogs(q: Option<LeafQ>, ids: seq<int>): Option<LeafQ> {
    if q.None? then q else Some(LogsRanFor(q.value, ids))
  }

  function LeftTarget(db: DB, q: Option<AccountQ>, keys: seq<Option<int>>): Option<AccountQ>
    decreases q, 3
  {
    if q.None? || PresentKeys(keys) == [] then q else Some(Left(db, ParentQuery(q.value, PresentKeys(keys))))
  }

  function LeftChildren(db: DB, q: Option<AccountQ>, ids: seq<int>): Option<AccountQ>
    decreases q, 3
  {
    if q.None? then q else Some(Left(db, ChildrenQuery(q.value, ids)))
  }

  function LeftAccountGroups(db: DB, q: Option<AccountGroupQ>, ids: seq<int>): Option<AccountGroupQ>
    decreases q, 3
  {
    if q.None? then q else Some(LeftJoins(db, AccountGroupsQuery(q.value, ids)))
  }

  function LeftJoins(db: DB, q: AccountGroupQ): AccountGroupQ
    decreases q.edges, 2
  {
    q.(edges := LeftJoinEdges(db, ScanAccountGroups(db, q), q.edges))
  }

  function LeftJoinEdges(db: DB, rows: seq<AccountGroupRow>, edges: AccountGroupEdgesQ): AccountGroupEdgesQ
    decreases edges, 1
  {
    if rows == [] then edges
    else AccountGroupEdgesQ(LeftTarget(db, edges.account, AccountKeys(rows)), LeftLeaf(edges.group, GroupKeys(rows)))
  }

  /** No builder asks for the many-to-many edge. */
  predicate GroupFree(edges: AccountEdgesQ) {
    && edges.groups.None?
    && (edges.parent.Some? ==> GroupFree(edges.parent.value.edges))
    && (edges.children.Some? ==> GroupFree(edges.children.value.edges))
    && (edges.accountGroups.Some? && edges.accountGroups.value.edges.account.Some? ==>
          GroupFree(edges.accountGroups.value.edges.account.value.edges))
  }

  /** Asking twice for the same rows is asking once, whatever the limit and the offset. */
  lemma {:induction false} RunTwice<C, R(!new)>(sel: Selection<C, R>, p: R -> bool, table: seq<R>)
    ensures sel.Where(p).Where(p).Run(table) == sel.Where(p).Run(table)
  {
    hide Filter, StableSort;
    forall r | r in table ensures sel.Where(p).Where(p).Test()(r) == sel.Where(p).Test()(r) {
      WhereHolds(sel.Where(p), p, r);
      WhereHolds(sel, p, r);
    }
    FilterSame(table, sel.Where(p).Where(p).Test(), sel.Where(p).Test());
  }

  /** A tree of builders that was loaded can be loaded again: over the same database it returns the same nodes and
      edges, at every depth, with all its limits and offsets. */
  lemma {:induction false} LoadAgain(db: DB, q: AccountQ)
    requires GroupFree(q.edges)
    ensures LoadAccounts(db, Left(db, q)) == LoadAccounts(db, q)
  {
    LoadTwice(db, q, Left(db, q));
  }

  lemma {:induction false} LoadTwice(db: DB, q: AccountQ, again: AccountQ)
    requires GroupFree(q.edges) && again.sel.fields == q.sel.fields && again.edges == Left(db, q).edges
    requires again.sel.Run(db.accounts) == q.sel.Run(db.accounts)
    ensures LoadAccounts(db, again) == LoadAccounts(db, q)
    decreases q.edges, 2
  {
    hide AttachAccounts, LeftEdges, AccountColumns;
    SameColumns(db, q, ScanAccounts(db, q));
    AttachTwice(db, ScanAccounts(db, q), q.edges);
  }

  lemma {:induction false} SameColumns(db: DB, q: AccountQ, rows: seq<AccountRow>)
    ensures AccountColumns(q.sel.fields, LeftEdges(db, rows, q.edges)) == AccountColumns(q.sel.fields, q.edges)
    ensures LeftEdges(db, rows, q.edges).Loaded() == q.edges.Loaded()
  {
    hide Filter;
  }

  lemma {:induction false} AttachTwice(db: DB, rows: seq<AccountRow>, edges: AccountEdgesQ)
    requires GroupFree(edges)
    ensures AttachAccounts(db, rows, LeftEdges(db, rows, edges)) == AttachAccounts(db, rows, edges)
    decreases edges, 1
  {
    hide AttachAccounts;
    var left := LeftEdges(db, rows, edges);
    assert |rows| == |AttachAccounts(db, rows, left)| == |AttachAccounts(db, rows, edges)|;
    forall i | 0 <= i < |rows| ensures AttachAccounts(db, rows, left)[i] == AttachAccounts(db, rows, edges)[i] {
      NodeTwice(db, rows, edges, i);
    }
  }

  lemma {:induction false} NodeTwice(db: DB, rows: seq<AccountRow>, edges: AccountEdgesQ, i: nat)
    requires GroupFree(edges) && i < |rows|
    ensures AttachAccounts(db, rows, LeftEdges(db, rows, edges))[i] == AttachAccounts(db, rows, edges)[i]
    decreases edges, 0
  {
    hide AttachAccounts, GroupsShare, LeafTarget, AccountTarget, ChildrenShare, UsageLogsShare, AccountGroupsShare;
    hide LeftLeaf, LeftTarget, LeftChildren, LeftLogs, LeftAccountGroups;
    AttachedNode(db, rows, edges, i);
    AttachedNode(db, rows, LeftEdges(db, rows, edges), i);
    SomeLeft(db, rows, edges);
    LeafTwice(edges.proxy, db.proxies, ProxyKeys(rows), rows[i].proxyID);
    TargetTwice(db, edges.parent, ParentKeys(rows), rows[i].parentAccountID);
    ChildrenTwice(db, edges.children, IDs(rows), rows[i].id);
    LogsTwice(db, edges.usageLogs, IDs(rows), rows[i].id);
    AccountGroupsTwice(db, edges.accountGroups, IDs(rows), rows[i].id);
  }

  lemma {:induction false} SomeLeft(db: DB, rows: seq<AccountRow>, edges: AccountEdgesQ)
    ensures LeftEdges(db, rows, edges).Loaded() == edges.Loaded()
  {
  }

  lemma {:induction false} LeafTwice(q: Option<LeafQ>, table: seq<LeafRow>, keys: seq<Option<int>>, key: Option<int>)
    ensures LeafTarget(LeftLeaf(q, keys), table, keys, key) == LeafTarget(q, table, keys, key)
  {
    if q.Some? {
      RunTwice(q.value.sel, LeafIDIn(PresentKeys(keys)), table);
    }
  }

  lemma {:induction false} LogsTwice(db: DB, q: Option<LeafQ>, ids: seq<int>, id: int)
    ensures UsageLogsShare(db, LeftLogs(q, ids), ids, id) == UsageLogsShare(db, q, ids, id)
  {
    hide Pick;
    if q.Some? {
      var sel := UsageLogsQuery(q.value).sel;
      assert UsageLogsQuery(LogsRanFor(q.value, ids)).sel == sel.Where(OwnerIn(ids));
      RunTwice(sel, OwnerIn(ids), db.usageLogs);
    }
  }

  lemma {:induction false} TargetTwice(db: DB, q: Option<AccountQ>, keys: seq<Option<int>>, key: Option<int>)
    requires q.Some? ==> GroupFree(q.value.edges)
    ensures AccountTarget(db, LeftTarget(db, q, keys), keys, key) == AccountTarget(db, q, keys, key)
    decreases q, 3
  {
    hide LoadAccounts, LastWith;
    if q.Some? && PresentKeys(keys) != [] {
      var first := ParentQuery(q.value, PresentKeys(keys));
      RunTwice(q.value.sel, AccountIDIn(PresentKeys(keys)), db.accounts);
      LoadTwice(db, first, ParentQuery(Left(db, first), PresentKeys(keys)));
    }
  }

  lemma {:induction false} ChildrenTwice(db: DB, q: Option<AccountQ>, ids: seq<int>, id: int)
    requires q.Some? ==> GroupFree(q.value.edges)
    ensures ChildrenShare(db, LeftChildren(db, q, ids), ids, id) == ChildrenShare(db, q, ids, id)
    decreases q, 3
  {
    hide LoadAccounts, Pick;
    if q.Some? {
      var sel := q.value.sel.NeedField(Int64Column(ParentAccountID));
      var first := ChildrenQuery(q.value, ids);
      RunTwice(sel, ParentIn(ids), db.accounts);
      assert ChildrenQuery(Left(db, first), ids).sel == sel.Where(ParentIn(ids)).Where(ParentIn(ids));
      LoadTwice(db, first, ChildrenQuery(Left(db, first), ids));
    }
  }

  lemma {:induction false} AccountGroupsTwice(db: DB, q: Option<AccountGroupQ>, ids: seq<int>, id: int)
    requires q.Some? && q.value.edges.account.Some? ==> GroupFree(q.value.edges.account.value.edges)
    ensures AccountGroupsShare(db, LeftAccountGroups(db, q, ids), ids, id) == AccountGroupsShare(db, q, ids, id)
    decreases q, 3
  {
    hide LoadAccountGroups, Pick;
    if q.Some? {
      var sel := q.value.sel.NeedField(AccountIDField);
      var first := AccountGroupsQuery(q.value, ids);
      RunTwice(sel, JoinOwnerIn(ids), db.accountGroups);
      var again := AccountGroupsQuery(LeftJoins(db, first), ids);
      assert again.sel == sel.Where(JoinOwnerIn(ids)).Where(JoinOwnerIn(ids));
      LoadJoinsTwice(db, first, again);
    }
  }

  /** The other half of the mutual recursion. */
  lemma {:induction false} LoadJoinsTwice(db: DB, q: AccountGroupQ, again: AccountGroupQ)
    requires q.edges.account.Some? ==> GroupFree(q.edges.account.value.edges)
    requires again.sel.fields == q.sel.fields && again.edges == LeftJoins(db, q).edges
    requires again.sel.Run(db.accountGroups) == q.sel.Run(db.accountGroups)
    ensures LoadAccountGroups(db, again) == LoadAccountGroups(db, q)
    decreases q.edges, 2
  {
    hide AttachAccountGroups, LeftJoinEdges, JoinColumns, ScanAccountGroup;
    SameJoinColumns(db, q, ScanAccountGroups(db, q));
    AttachJoinsTwice(db, ScanAccountGroups(db, q), q.edges);
  }

  lemma {:induction false} SameJoinColumns(db: DB, q: AccountGroupQ, rows: seq<AccountGroupRow>)
    ensures JoinColumns(q.sel.fields, LeftJoinEdges(db, rows, q.edges)) == JoinColumns(q.sel.fields, q.edges)
  {
  }

  lemma {:induction false} AttachJoinsTwice(db: DB, rows: seq<AccountGroupRow>, edges: AccountGroupEdgesQ)
    requires edges.account.Some? ==> GroupFree(edges.account.value.edges)
    ensures AttachAccountGroups(db, rows, LeftJoinEdges(db, rows, edges)) == AttachAccountGroups(db, rows, edges)
    decreases edges, 1
  {
    hide LeafTarget, AccountTarget, LeftLeaf, LeftTarget;
    var left := LeftJoinEdges(db, rows, edges);
    LeftJoinsLoaded(db, rows, edges);
    forall i | 0 <= i < |rows|
      ensures AttachAccountGroups(db, rows, left)[i] == AttachAccountGroups(db, rows, edges)[i] {
      TargetTwice(db, edges.account, AccountKeys(rows), Some(rows[i].accountID));
      LeafTwice(edges.group, db.groups, GroupKeys(rows), Some(rows[i].groupID));
    }
  }

  lemma {:induction false} LeftJoinsLoaded(db: DB, rows: seq<AccountGroupRow>, edges: AccountGroupEdgesQ)
    ensures LeftJoinEdges(db, rows, edges).Loaded() == edges.Loaded()
  {
  }

  // ---- and fails no more than the first load did ----

  /** The second load fails as the first did, at the same field, or not at all. */
  lemma {:induction false} FailureAgain(db: DB, q: AccountQ)
    requires GroupFree(q.edges)
    ensures AccountsFailure(db, Left(db, q)) == AccountsFailure(db, q)
  {
    FailsTwice(db, q, Left(db, q));
  }

  lemma {:induction false} FailsTwice(db: DB, q: AccountQ, again: AccountQ)
    requires GroupFree(q.edges) && again.sel.fields == q.sel.fields && again.edges == Left(db, q).edges
    requires again.sel.Run(db.accounts) == q.sel.Run(db.accounts)
    ensures AccountsFailure(db, again) == AccountsFailure(db, q)
    decreases q.edges, 2
  {
    hide LeftEdges, AccountColumns, Rejection, EdgesFailure;
    SameColumns(db, q, ScanAccounts(db, q));
    assert ScanAccounts(db, again) == ScanAccounts(db, q);
    EdgesFailTwice(db, ScanAccounts(db, q), q.edges);
  }

  lemma {:induction false} EdgesFailTwice(db: DB, rows: seq<AccountRow>, edges: AccountEdgesQ)
    requires GroupFree(edges)
    ensures EdgesFailure(db, rows, LeftEdges(db, rows, edges)) == EdgesFailure(db, rows, edges)
    decreases edges, 1
  {
    hide LeafFailure, TargetFailure, ChildrenFailure, AccountGroupsFailure, PresentKeys;
    hide LeftLeaf, LeftTarget, LeftChildren, LeftLogs, LeftAccountGroups;
    LeafFailsTwice(edges.proxy, ProxyKeys(rows));
    TargetFailsTwice(db, edges.parent, ParentKeys(rows));
    ChildrenFailTwice(db, edges.children, IDs(rows));
    LogsFailTwice(edges.usageLogs, IDs(rows));
    AccountGroupsFailTwice(db, edges.accountGroups, IDs(rows));
    var left := LeftEdges(db, rows, edges);
    assert FirstEdgesFailure(db, rows, left) == FirstEdgesFailure(db, rows, edges);
    assert LastEdgesFailure(db, rows, left) == LastEdgesFailure(db, rows, edges);
  }

  lemma {:induction false} LeafFailsTwice(q: Option<LeafQ>, keys: seq<Option<int>>)
    ensures LeafFailure(LeftLeaf(q, keys)) == LeafFailure(q)
  {
  }

  lemma {:induction false} LogsFailTwice(q: Option<LeafQ>, ids: seq<int>)
    ensures LeafFailure(LeftLogs(q, ids)) == LeafFailure(q)
  {
    hide Rejection;
    if q.Some? {
      RejectionSnoc(ValidLeaf(), OfLeaf(), q.value.sel.fields, OwnerID);
    }
  }

  lemma {:induction false} TargetFailsTwice(db: DB, q: Option<AccountQ>, keys: seq<Option<int>>)
    requires q.Some? ==> GroupFree(q.value.edges)
    ensures TargetFailure(db, LeftTarget(db, q, keys), keys) == TargetFailure(db, q, keys)
    decreases q, 3
  {
    hide AccountsFailure;
    if q.Some? && PresentKeys(keys) != [] {
      var first := ParentQuery(q.value, PresentKeys(keys));
      RunTwice(q.value.sel, AccountIDIn(PresentKeys(keys)), db.accounts);
      FailsTwice(db, first, ParentQuery(Left(db, first), PresentKeys(keys)));
    }
  }

  lemma {:induction false} ChildrenFailTwice(db: DB, q: Option<AccountQ>, ids: seq<int>)
    requires q.Some? ==> GroupFree(q.value.edges)
    ensures ChildrenFailure(db, LeftChildren(db, q, ids), ids) == ChildrenFailure(db, q, ids)
    decreases q, 3
  {
    hide AccountsFailure;
    if q.Some? {
      var sel := q.value.sel.NeedField(Int64Column(ParentAccountID));
      var first := ChildrenQuery(q.value, ids);
      RunTwice(sel, ParentIn(ids), db.accounts);
      assert ChildrenQuery(Left(db, first), ids).sel == sel.Where(ParentIn(ids)).Where(ParentIn(ids));
      FailsTwice(db, first, ChildrenQuery(Left(db, first), ids));
    }
  }

  lemma {:induction false} AccountGroupsFailTwice(db: DB, q: Option<AccountGroupQ>, ids: seq<int>)
    requires q.Some? && q.value.edges.account.Some? ==> GroupFree(q.value.edges.account.value.edges)
    ensures AccountGroupsFailure(db, LeftAccountGroups(db, q, ids), ids) == AccountGroupsFailure(db, q, ids)
    decreases q, 3
  {
    hide JoinsFailure;
    if q.Some? {
      var sel := q.value.sel.NeedField(AccountIDField);
      var first := AccountGroupsQuery(q.value, ids);
      RunTwice(sel, JoinOwnerIn(ids), db.accountGroups);
      var again := AccountGroupsQuery(LeftJoins(db, first), ids);
      assert again.sel == sel.Where(JoinOwnerIn(ids)).Where(JoinOwnerIn(ids));
      JoinsFailTwice(db, first, again);
    }
  }

  lemma {:induction false} JoinsFailTwice(db: DB, q: AccountGroupQ, again: AccountGroupQ)
    requires q.edges.account.Some? ==> GroupFree(q.edges.account.value.edges)
    requires again.sel.fields == q.sel.fields && again.edges == LeftJoins(db, q).edges
    requires again.sel.Run(db.accountGroups) == q.sel.Run(db.accountGroups)
    ensures JoinsFailure(db, again) == JoinsFailure(db, q)
    decreases q.edges, 2
  {
    hide LeftTarget, LeftLeaf, JoinColumns, Rejection, TargetFailure, LeafFailure;
    var rows := ScanAccountGroups(db, q);
    SameJoinColumns(db, q, rows);
    assert ScanAccountGroups(db, again) == rows;
    TargetFailsTwice(db, q.edges.account, AccountKeys(rows));
    LeafFailsTwice(q.edges.group, GroupKeys(rows));
  }
}
