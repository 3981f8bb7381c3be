/** The main theorem on eager loading: for every query tree whose edges are unlimited, one query per edge and a
    join in memory returns what one query per node and edge returns. */
module EagerRefinement {
  import opened Basics
  import opened AccountEntity
  import opened EagerModel
  import opened EagerSpec
  import opened EagerNaive
  import opened EagerGroups

  /** Batched and naive loads agree: same nodes, same edges, same order at every node, at every depth. */
  lemma {:induction false} LoadIsNaive(db: DB, q: AccountQ)
    requires WellFormed(db) && EdgesUnlimited(q.edges)
    ensures LoadAccounts(db, q) == NaiveAccounts(db, q)
    decreases q.edges, 2
  {
    var rows := ScanAccounts(db, q);
    forall i | 0 <= i < |rows| ensures LoadAccounts(db, q)[i] == NaiveAccount(db, q.edges, rows[i]) {
      AttachIsNaive(db, rows, q.edges, i);
    }
  }

  lemma {:induction false} AttachIsNaive(db: DB, rows: seq<AccountRow>, edges: AccountEdgesQ, i: nat)
    requires WellFormed(db) && EdgesUnlimited(edges) && i < |rows|
    ensures AttachAccounts(db, rows, edges)[i] == NaiveAccount(db, edges, rows[i])
    decreases edges, 1
  {
    var ids, row := IDs(rows), rows[i];
    assert ids[i] == row.id && ProxyKeys(rows)[i] == row.proxyID && ParentKeys(rows)[i] == row.parentAccountID;
    hide AttachAccounts, GroupsShare, LeafTarget, AccountTarget, ChildrenShare, UsageLogsShare, AccountGroupsShare;
    hide NaiveGroups, NaiveTarget, NaiveAccountTarget, NaiveChildren, NaiveUsageLogs, NaiveJoins;
    GroupsAreNaive(db, edges.groups, ids, row.id);
    LeafTargetIsNaive(edges.proxy, db.proxies, ProxyKeys(rows), row.proxyID);
    AccountTargetIsNaive(db, edges.parent, ParentKeys(rows), i);
    ChildrenAreNaive(db, edges.children, ids, row.id);
    UsageLogsAreNaive(db, edges.usageLogs, ids, row.id);
    AccountGroupsAreNaive(db, edges.accountGroups, ids, row.id);
    AttachedNode(db, rows, edges, i);
  }

  lemma {:induction false} AttachedNode(db: DB, rows: seq<AccountRow>, edges: AccountEdgesQ, i: nat)
    requires i < |rows|
    ensures AttachAccounts(db, rows, edges)[i]
         == AccountTree(
              rows[i], edges.Loaded(),
              GroupsShare(db, edges.groups, IDs(rows), IDs(rows)[i]),
              LeafTarget(edges.proxy, db.proxies, ProxyKeys(rows), rows[i].proxyID),
              AccountTarget(db, edges.parent, ParentKeys(rows), rows[i].parentAccountID),
              ChildrenShare(db, edges.children, IDs(rows), IDs(rows)[i]),
              UsageLogsShare(db, edges.usageLogs, IDs(rows), IDs(rows)[i]),
              AccountGroupsShare(db, edges.accountGroups, IDs(rows), IDs(rows)[i]))
  {
  }

  lemma {:induction false} AccountTargetIsNaive(db: DB, q: Option<AccountQ>, keys: seq<Option<int>>, i: nat)
    requires WellFormed(db) && (q.Some? ==> q.value.sel.Unlimited() && EdgesUnlimited(q.value.edges)) && i < |keys|
    ensures AccountTarget(db, q, keys, keys[i]) == NaiveAccountTarget(db, q, keys[i])
    decreases q, 3
  {
    if q.Some? && keys[i].Some? {
      PresentKeysComplete(keys, keys[i].value);
      LoadIsNaive(db, ParentQuery(q.value, PresentKeys(keys)));
      TargetPicked(db, q.value, PresentKeys(keys), keys[i].value);
    }
  }

  lemma {:induction false} ChildrenAreNaive(db: DB, q: Option<AccountQ>, ids: seq<int>, id: int)
    requires WellFormed(db) && (q.Some? ==> q.value.sel.Unlimited() && EdgesUnlimited(q.value.edges)) && id in ids
    ensures ChildrenShare(db, q, ids, id) == NaiveChildren(db, q, id)
    decreases q, 3
  {
    if q.Some? {
      LoadIsNaive(db, ChildrenQuery(q.value, ids));
      ChildrenPicked(db, q.value, ids, id);
    }
  }

  lemma {:induction false} UsageLogsAreNaive(db: DB, q: Option<LeafQ>, ids: seq<int>, id: int)
    requires q.Some? ==> q.value.sel.Unlimited()
    requires id in ids
    ensures UsageLogsShare(db, q, ids, id) == NaiveUsageLogs(db, q, id)
  {
    hide Pick;
    if q.Some? {
      LogsPicked(UsageLogsQuery(q.value), db.usageLogs, ids, id);
    }
  }

  lemma {:induction false} LogsPicked(q: LeafQ, table: seq<LeafRow>, ids: seq<int>, id: int)
    requires q.sel.Unlimited() && id in ids && (q.sel.fields == [] || OwnerID in q.sel.fields)
    ensures var found := LeafNodes(q, OwnerIn(ids), table);
            Pick(found, LeafOwners(found), id) == LeafNodes(q, OwnerIn([id]), table)
  {
    var ks := LeafOwners(LeafNodes(q, OwnerIn(ids), table));
    OwnersScanned(q, OwnerIn(ids), table);
    hide Pick, LeafNodes, LeafOwners;
    LeafPicked(q, table, OwnerIn(ids), OwnerIn([id]), ks, id);
  }

  /** Scanned usage logs keep their owners, because the foreign key is among the columns read. */
  lemma {:induction false} OwnersScanned(q: LeafQ, added: LeafRow -> bool, table: seq<LeafRow>)
    requires q.sel.fields == [] || OwnerID in q.sel.fields
    ensures var raw, owners := q.sel.Where(added).Run(table), LeafOwners(LeafNodes(q, added, table));
            |owners| == |raw| == |LeafNodes(q, added, table)|
            && forall j :: 0 <= j < |raw| ==> owners[j] == raw[j].accountID
  {
  }

  lemma {:induction false} AccountGroupsAreNaive(db: DB, q: Option<AccountGroupQ>, ids: seq<int>, id: int)
    requires WellFormed(db) && (q.Some? ==> q.value.sel.Unlimited() && JoinEdgesUnlimited(q.value.edges)) && id in ids
    ensures AccountGroupsShare(db, q, ids, id) == NaiveJoins(db, q, id)
    decreases q, 3
  {
    if q.Some? {
      LoadJoinsIsNaive(db, AccountGroupsQuery(q.value, ids));
      AccountGroupsPicked(db, q.value, ids, id);
    }
  }

  /** The same for the join rows, the other half of the mutual recursion. */
  lemma {:induction false} LoadJoinsIsNaive(db: DB, q: AccountGroupQ)
    requires WellFormed(db) && JoinEdgesUnlimited(q.edges)
    ensures LoadAccountGroups(db, q) == NaiveAccountGroups(db, q)
    decreases q.edges, 2
  {
    var rows := ScanAccountGroups(db, q);
    forall i | 0 <= i < |rows| ensures LoadAccountGroups(db, q)[i] == NaiveAccountGroup(db, q.edges, rows[i]) {
      AttachJoinIsNaive(db, rows, q.edges, i);
    }
  }

  lemma {:induction false} AttachJoinIsNaive(db: DB, rows: seq<AccountGroupRow>, edges: AccountGroupEdgesQ, i: nat)
    requires WellFormed(db) && JoinEdgesUnlimited(edges) && i < |rows|
    ensures AttachAccountGroups(db, rows, edges)[i] == NaiveAccountGroup(db, edges, rows[i])
    decreases edges, 1
  {
    assert AccountKeys(rows)[i] == Some(rows[i].accountID) && GroupKeys(rows)[i] == Some(rows[i].groupID);
    AccountTargetIsNaive(db, edges.account, AccountKeys(rows), i);
    LeafTargetIsNaive(edges.group, db.groups, GroupKeys(rows), Some(rows[i].groupID));
  }
}
