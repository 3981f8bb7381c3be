/** Eager loading on objects: sqlAll builds the nodes of a query and fills the requested edges, one query per
    edge, recursively. Proved against the values of EagerSpec and the failures of EagerFailures. */
module EagerLoad {
  import opened Basics
  import opened AccountEntity
  import opened AccountScan
  import opened Selections
  import opened EagerModel
  import opened EagerSpec
  import opened EagerNaive
  import opened EagerFailures
  import opened EagerRefinement
  import opened Nodes
  import opened EagerAttach

  function Outcome(failure: Option<Field>): Option<LoadError> {
    if failure.Some? then Some(InvalidField(failure.value)) else None
  }

  // ======== the error branches behind prepareQuery are dead over a faithful database ========

  lemma {:induction false} NoStray(keys: seq<Option<int>>, known: set<int>)
    requires forall j :: 0 <= j < |keys| ==> keys[j].Some? && keys[j].value in known
    ensures Stray(keys, known) == |keys|
  {
  }

  /** Every child found carries a foreign key, and the key is one that was asked for. */
  lemma {:induction false} ChildrenHaveKeys(db: DB, query: AccountQ, ids: seq<int>, keys: seq<Option<int>>)
    requires keys == TreeParents(LoadAccounts(db, ChildrenQuery(query, ids)))
    ensures forall j :: 0 <= j < |keys| ==> keys[j].Some? && keys[j].value in ids
  {
    var q := ChildrenQuery(query, ids);
    var found, columns := q.sel.Run(db.accounts), AccountColumns(q.sel.fields, q.edges);
    ColumnsHaveKeys(q.sel.fields, q.edges);
    forall j | 0 <= j < |found|
      ensures ScanRow(columns, found[j]).parentAccountID.Some?
              && ScanRow(columns, found[j]).parentAccountID.value in ids {
      RunMember(q.sel, db.accounts, found[j]);
      WhereHolds(query.sel.NeedField(Int64Column(ParentAccountID)), ParentIn(ids), found[j]);
      ScannedParent(columns, found[j]);
    }
  }

  lemma {:induction false} TargetsHaveIDs(db: DB, query: AccountQ, ids: seq<int>, targets: seq<int>)
    requires targets == TreeIDs(LoadAccounts(db, ParentQuery(query, ids)))
    ensures forall j :: 0 <= j < |targets| ==> targets[j] in ids
  {
    var q := ParentQuery(query, ids);
    var found, columns := q.sel.Run(db.accounts), AccountColumns(q.sel.fields, q.edges);
    ColumnsHaveKeys(q.sel.fields, q.edges);
    forall j | 0 <= j < |found| ensures ScanRow(columns, found[j]).id in ids {
      RunMember(q.sel, db.accounts, found[j]);
      WhereHolds(query.sel, AccountIDIn(ids), found[j]);
      ScannedID(columns, found[j]);
    }
  }

  lemma {:induction false} JoinsHaveOwners(db: DB, query: AccountGroupQ, ids: seq<int>, owners: seq<int>)
    requires owners == JoinOwners(LoadAccountGroups(db, AccountGroupsQuery(query, ids)))
    ensures forall j :: 0 <= j < |owners| ==> owners[j] in ids
  {
    var q := AccountGroupsQuery(query, ids);
    var found := q.sel.Run(db.accountGroups);
    forall j | 0 <= j < |found| ensures found[j].accountID in ids {
      RunMember(q.sel, db.accountGroups, found[j]);
      WhereHolds(query.sel.NeedField(AccountIDField), JoinOwnerIn(ids), found[j]);
    }
  }

  lemma {:induction false} LeavesAreAsked(q: LeafQ, added: LeafRow -> bool, table: seq<LeafRow>, j: nat)
    requires j < |q.sel.Where(added).Run(table)|
    ensures added(q.sel.Where(added).Run(table)[j])
  {
    var found := q.sel.Where(added).Run(table);
    RunMember(q.sel.Where(added), table, found[j]);
    WhereHolds(q.sel, added, found[j]);
  }

  lemma {:induction false} StreamIsAsked(db: DB, q: LeafQ, ids: seq<int>, j: nat)
    requires j < |GroupStream(db, q, ids)|
    ensures GroupStream(db, q, ids)[j].0 in ids
  {
    var stream := GroupStream(db, q, ids);
    RunMember(OnPairs(q.sel).Where(PairOwnerIn(ids)), JoinPairs(db.groups, db.accountGroups), stream[j]);
    WhereHolds(OnPairs(q.sel), PairOwnerIn(ids), stream[j]);
  }

  // ======== leaf queries ========

  /** prepareQuery looks at the projection column by column. */
  method PrepareQuery<C>(fields: seq<C>, valid: C -> bool, field: C -> Field) returns (err: Option<LoadError>)
    ensures err == Outcome(Rejection(valid, field, fields))
  {
    for i := 0 to |fields|
      invariant forall j :: 0 <= j < i ==> valid(fields[j])
    {
      if !valid(fields[i]) {
        RejectionIsFirst(valid, field, fields, i);
        return Some(InvalidField(field(fields[i])));
      }
    }
    return None;
  }

  method LeafAll(q: LeafQ, added: LeafRow -> bool, table: seq<LeafRow>)
    returns (nodes: seq<LeafNode>, err: Option<LoadError>, ghost S: set<object>)
    ensures fresh(S)
    ensures err == Outcome(LeafFailure(Some(q)))
    ensures err == None ==> LeavesShow(nodes, LeafNodes(q, added, table), S)
  {
    nodes, S := [], {};
    err := PrepareQuery(q.sel.fields, ValidLeaf(), OfLeaf());
    if err.Some? {
      return;
    }
    var rows := LeafNodes(q, added, table);
    for i := 0 to |rows|
      invariant fresh(S) && LeavesShow(nodes, rows[..i], S)
    {
      var node := new LeafNode(rows[i]);
      nodes, S := nodes + [node], S + {node};
    }
    err := None;
  }

  // ---- resetting a to-many edge, and reading the ids ----

  method InitGroups(nodes: seq<Account>, ghost rows: seq<AccountRow>) returns (ids: seq<int>)
    requires Hold(nodes, rows)
    modifies nodes`groups
    ensures ids == IDs(rows) && forall i :: 0 <= i < |nodes| ==> nodes[i].groups == []
  {
    ids := [];
    for i := 0 to |nodes|
      invariant ids == IDs(rows)[..i] && forall j :: 0 <= j < i ==> nodes[j].groups == []
    {
      ids := ids + [nodes[i].row.id];
      nodes[i].groups := [];
    }
  }

  method InitChildren(nodes: seq<Account>, ghost rows: seq<AccountRow>) returns (ids: seq<int>)
    requires Hold(nodes, rows)
    modifies nodes`children
    ensures ids == IDs(rows) && forall i :: 0 <= i < |nodes| ==> nodes[i].children == []
  {
    ids := [];
    for i := 0 to |nodes|
      invariant ids == IDs(rows)[..i] && forall j :: 0 <= j < i ==> nodes[j].children == []
    {
      ids := ids + [nodes[i].row.id];
      nodes[i].children := [];
    }
  }

  method InitUsageLogs(nodes: seq<Account>, ghost rows: seq<AccountRow>) returns (ids: seq<int>)
    requires Hold(nodes, rows)
    modifies nodes`usageLogs
    ensures ids == IDs(rows) && forall i :: 0 <= i < |nodes| ==> nodes[i].usageLogs == []
  {
    ids := [];
    for i := 0 to |nodes|
      invariant ids == IDs(rows)[..i] && forall j :: 0 <= j < i ==> nodes[j].usageLogs == []
    {
      ids := ids + [nodes[i].row.id];
      nodes[i].usageLogs := [];
    }
  }

  method InitAccountGroups(nodes: seq<Account>, ghost rows: seq<AccountRow>) returns (ids: seq<int>)
    requires Hold(nodes, rows)
    modifies nodes`accountGroups
    ensures ids == IDs(rows) && forall i :: 0 <= i < |nodes| ==> nodes[i].accountGroups == []
  {
    ids := [];
    for i := 0 to |nodes|
      invariant ids == IDs(rows)[..i] && forall j :: 0 <= j < i ==> nodes[j].accountGroups == []
    {
      ids := ids + [nodes[i].row.id];
      nodes[i].accountGroups := [];
    }
  }

  ghost function Empties<T>(n: nat): (s: seq<seq<T>>)
    ensures |s| == n && forall i :: 0 <= i < n ==> s[i] == []
  {
    seq(n, i => [])
  }

  ghost function Share<N, T>(nodes: seq<N>, ids: seq<int>, i: nat, share: seq<T>): seq<T>
    requires |nodes| == |ids| && i < |nodes|
  {
    if Owns(nodes, ids, i) then share else []
  }

  // ======== the loaders ========

  method LoadUsageLogs(db: DB, query: LeafQ, nodes: seq<Account>, ghost rows: seq<AccountRow>)
    returns (err: Option<LoadError>, ghost S: set<object>)
    requires Hold(nodes, rows)
    modifies nodes`usageLogs
    ensures fresh(S) && err == Outcome(LeafFailure(Some(query)))
    ensures err == None ==> forall i :: 0 <= i < |nodes| ==>
              LeavesShow(nodes[i].usageLogs,
                         Share(nodes, IDs(rows), i, UsageLogsShare(db, Some(query), IDs(rows), rows[i].id)), S)
  {
    hide Pick, Received, UsageLogsShare, LeafNodes, ById, Stray, LeafFailure, Owns, Share;
    var ids := InitUsageLogs(nodes, rows);
    var fks, nodeids := IndexById(nodes, ids);
    var q := UsageLogsQuery(query);
    var neighbors;
    neighbors, err, S := LeafAll(q, OwnerIn(fks), db.usageLogs);
    SameLeafFailure(query);
    if err.Some? {
      return;
    }
    ghost var found := LeafNodes(q, OwnerIn(ids), db.usageLogs);
    ghost var keys := Somes(LeafOwners(found));
    LogsHaveOwners(db, query, ids);
    KnownKeys(nodes, ids, nodeids, keys);
    err := AttachUsageLogs(nodes, rows, nodeids, Empties(|nodes|), neighbors, keys);
    assert neighbors[..|keys|] == neighbors && keys[..|keys|] == keys;
    forall i | 0 <= i < |nodes|
      ensures LeavesShow(nodes[i].usageLogs, Share(nodes, ids, i, Pick(found, LeafOwners(found), ids[i])), S) {
      ReceivedLeaves(nodes, ids, i, neighbors, found, LeafOwners(found), S);
    }
    UsageLogsShareIs(db, query, ids);
  }

  lemma {:induction false} UsageLogsShareIs(db: DB, query: LeafQ, ids: seq<int>)
    ensures var found := LeafNodes(UsageLogsQuery(query), OwnerIn(ids), db.usageLogs);
            forall id :: UsageLogsShare(db, Some(query), ids, id) == Pick(found, LeafOwners(found), id)
  {
  }

  lemma {:induction false} LogsHaveOwners(db: DB, query: LeafQ, ids: seq<int>)
    ensures var owners := LeafOwners(LeafNodes(UsageLogsQuery(query), OwnerIn(ids), db.usageLogs));
            forall j :: 0 <= j < |owners| ==> owners[j] in ids
  {
    var q := UsageLogsQuery(query);
    forall j | 0 <= j < |q.sel.Where(OwnerIn(ids)).Run(db.usageLogs)|
      ensures q.sel.Where(OwnerIn(ids)).Run(db.usageLogs)[j].accountID in ids {
      LeavesAreAsked(q, OwnerIn(ids), db.usageLogs, j);
    }
  }

  /** Keys among the ids of the nodes are never stray. */
  lemma {:induction false} KnownKeys<N>(nodes: seq<N>, ids: seq<int>, nodeids: map<int, N>, keys: seq<Option<int>>)
    requires |nodes| == |ids| && ById(nodes, ids, nodeids)
    requires forall j :: 0 <= j < |keys| ==> keys[j].Some? && keys[j].value in ids
    ensures Stray(keys, nodeids.Keys) == |keys|
  {
    forall j | 0 <= j < |keys| ensures keys[j].value in nodeids.Keys {
      assert LastWith(nodes, ids, keys[j].value).Some?;
    }
    NoStray(keys, nodeids.Keys);
  }

  lemma {:induction false} ReceivedLeaves<N>(nodes: seq<N>, ids: seq<int>, i: nat, neighbors: seq<LeafNode>,
                                             found: seq<LeafRow>, owners: seq<int>, S: set<object>)
    requires |nodes| == |ids| && i < |nodes| && |owners| == |found| && LeavesShow(neighbors, found, S)
    ensures LeavesShow(Received(nodes, ids, i, neighbors, Somes(owners)),
                       Share(nodes, ids, i, Pick(found, owners, ids[i])), S)
  {
    LeavesPicked(neighbors, found, owners, ids[i], S);
    PickSomes(neighbors, owners, ids[i]);
  }

  lemma {:induction false} SameLeafFailure(q: LeafQ)
    ensures LeafFailure(Some(UsageLogsQuery(q))) == LeafFailure(Some(q))
  {
    RejectionSnoc(ValidLeaf(), OfLeaf(), q.sel.fields, OwnerID);
  }

  lemma {:induction false} PickSomes<T>(xs: seq<T>, ks: seq<int>, k: int)
    requires |xs| == |ks|
    ensures Pick(xs, Somes(ks), Some(k)) == Pick(xs, ks, k)
  {
    if xs != [] {
      var n := |xs| - 1;
      assert Somes(ks)[..n] == Somes(ks[..n]);
      PickSomes(xs[..n], ks[..n], k);
    }
  }
  // ---- groups ----

  method LoadGroups(db: DB, query: LeafQ, nodes: seq<Account>, ghost rows: seq<AccountRow>)
    returns (err: Option<LoadError>, ghost S: set<object>)
    requires Hold(nodes, rows)
    modifies nodes`groups
    ensures fresh(S) && err == Outcome(LeafFailure(Some(query)))
    ensures err == None ==> forall i :: 0 <= i < |nodes| ==>
              LeavesShow(nodes[i].groups,
                         Share(nodes, IDs(rows), i, GroupsShare(db, Some(query), IDs(rows), rows[i].id)), S)
  {
    hide Pick, GroupsShare, GroupsFrom, Stray, Owns, Share, FirstOfEachGroup, Rejected, GroupStream;
    var ids := InitGroups(nodes, rows);
    var edgeIDs, byID := IndexById(nodes, ids);
    S := {};
    err := PrepareQuery(query.sel.fields, ValidLeaf(), OfLeaf());
    if err.Some? {
      return;
    }
    err, S := JoinGroups(db, query, nodes, rows, edgeIDs, byID);
  }

  method JoinGroups(db: DB, query: LeafQ, nodes: seq<Account>, ghost rows: seq<AccountRow>, edgeIDs: seq<int>,
                    byID: map<int, Account>)
    returns (err: Option<LoadError>, ghost S: set<object>)
    requires Hold(nodes, rows) && edgeIDs == IDs(rows) && ById(nodes, edgeIDs, byID)
    requires forall i :: 0 <= i < |nodes| ==> nodes[i].groups == []
    modifies nodes`groups
    ensures fresh(S) && err == None
    ensures forall i :: 0 <= i < |nodes| ==>
              LeavesShow(nodes[i].groups,
                         Share(nodes, edgeIDs, i, GroupsShare(db, Some(query), edgeIDs, rows[i].id)), S)
  {
    hide Pick, GroupsShare, GroupsFrom, Stray, Owns, Share, FirstOfEachGroup, GroupStream, ById, LastWith, Members,
         Collected;
    var stream := GroupStream(db, query, edgeIDs);
    StreamKnown(db, query, nodes, edgeIDs, byID);
    var neighbors, nids := CollectGroups(stream, byID, query.sel.fields);
    S := set n | n in neighbors;
    ghost var groups := LeafIDs(FirstOfEachGroup(stream));
    CollectedKnown(nodes, edgeIDs, byID, stream, nids);
    err := AttachGroups(nodes, Empties(|nodes|), neighbors, groups, nids);
    assert neighbors[..|groups|] == neighbors && groups[..|groups|] == groups;
    GroupsHanded(db, query, nodes, rows, byID, neighbors, nids, groups, S);
  }

  lemma {:induction false} GroupsHanded(db: DB, query: LeafQ, nodes: seq<Account>, rows: seq<AccountRow>,
                                        byID: map<int, Account>, neighbors: seq<LeafNode>,
                                        nids: map<int, set<Account>>, groups: seq<int>, S: set<object>)
    requires Hold(nodes, rows) && ById(nodes, IDs(rows), byID)
    requires var stream := GroupStream(db, query, IDs(rows));
             && (forall j :: 0 <= j < |stream| ==> stream[j].0 in byID)
             && Collected(stream, byID, nids) && ScannedAs(neighbors, FirstOfEachGroup(stream), query.sel.fields)
             && groups == LeafIDs(FirstOfEachGroup(stream))
    requires forall n :: n in neighbors ==> n in S
    requires |groups| == |neighbors| && GivenGroups(nodes, Empties(|nodes|), neighbors, groups, nids)
    ensures forall i :: 0 <= i < |nodes| ==>
              LeavesShow(nodes[i].groups,
                         Share(nodes, IDs(rows), i, GroupsShare(db, Some(query), IDs(rows), rows[i].id)), S)
  {
    hide Pick, GroupsShare, Owns, Share, FirstOfEachGroup, GroupStream, ById, Collected, ScannedAs, Flags;
    forall i | 0 <= i < |nodes|
      ensures LeavesShow(nodes[i].groups,
                         Share(nodes, IDs(rows), i, GroupsShare(db, Some(query), IDs(rows), rows[i].id)), S)
    {
      GroupsReceived(db, query, nodes, rows, byID, i, neighbors, nids, S);
      assert nodes[i].groups == Pick(neighbors, Flags(nodes[i], groups, nids), true);
    }
  }

  lemma {:induction false} CollectedKnown(nodes: seq<Account>, ids: seq<int>, byID: map<int, Account>,
                                          stream: seq<(int, LeafRow)>, nids: map<int, set<Account>>)
    requires |nodes| == |ids| && ById(nodes, ids, byID)
    requires forall i :: 0 <= i < |stream| ==> stream[i].0 in byID
    requires Collected(stream, byID, nids)
    ensures forall g, x :: g in nids && x in nids[g] ==> x in nodes
    ensures var groups := LeafIDs(FirstOfEachGroup(stream)); Stray(Somes(groups), nids.Keys) == |groups|
  {
    hide Members;
    var groups := LeafIDs(FirstOfEachGroup(stream));
    forall g, x | g in nids && x in nids[g] ensures x in nodes {
      MembersAreNodes(nodes, ids, byID, stream, g, x);
    }
    forall j | 0 <= j < |groups| ensures groups[j] in nids.Keys {
      assert groups[j] in groups;
    }
    NoStray(Somes(groups), nids.Keys);
  }

  lemma {:induction false} StreamKnown(db: DB, query: LeafQ, nodes: seq<Account>, ids: seq<int>,
                                       byID: map<int, Account>)
    requires |nodes| == |ids| && ById(nodes, ids, byID)
    ensures var stream := GroupStream(db, query, ids); forall i :: 0 <= i < |stream| ==> stream[i].0 in byID
  {
    var stream := GroupStream(db, query, ids);
    forall i | 0 <= i < |stream| ensures stream[i].0 in byID {
      StreamIsAsked(db, query, ids, i);
      assert LastWith(nodes, ids, stream[i].0).Some?;
    }
  }

  lemma {:induction false} MembersAreNodes(nodes: seq<Account>, ids: seq<int>, byID: map<int, Account>,
                                           stream: seq<(int, LeafRow)>, g: int, x: Account)
    requires |nodes| == |ids| && ById(nodes, ids, byID)
    requires forall i :: 0 <= i < |stream| ==> stream[i].0 in byID
    ensures x in Members(stream, byID, g)
       <==> exists i :: 0 <= i < |stream| && stream[i].1.id == g && byID[stream[i].0] == x
    ensures x in Members(stream, byID, g) ==> x in nodes
  {
    if stream != [] {
      var n := |stream| - 1;
      var init := stream[..n];
      MembersAreNodes(nodes, ids, byID, init, g, x);
      assert forall i :: 0 <= i < n ==> init[i] == stream[i];
      assert LastWith(nodes, ids, stream[n].0) == Some(byID[stream[n].0]);
    }
  }

  /** What a node received of the found groups is its share of the stream. */
  lemma {:induction false} GroupsReceived(db: DB, query: LeafQ, nodes: seq<Account>, rows: seq<AccountRow>,
                                          byID: map<int, Account>, i: nat, neighbors: seq<LeafNode>,
                                          nids: map<int, set<Account>>, S: set<object>)
    requires Hold(nodes, rows) && i < |nodes| && ById(nodes, IDs(rows), byID)
    requires forall j :: 0 <= j < |GroupStream(db, query, IDs(rows))| ==> GroupStream(db, query, IDs(rows))[j].0 in byID
    requires Collected(GroupStream(db, query, IDs(rows)), byID, nids)
    requires ScannedAs(neighbors, FirstOfEachGroup(GroupStream(db, query, IDs(rows))), query.sel.fields)
    requires forall n :: n in neighbors ==> n in S
    ensures var groups := LeafIDs(FirstOfEachGroup(GroupStream(db, query, IDs(rows))));
            LeavesShow(Pick(neighbors, Flags(nodes[i], groups, nids), true),
                       Share(nodes, IDs(rows), i, GroupsShare(db, Some(query), IDs(rows), rows[i].id)), S)
  {
    hide FirstOfEachGroup, GroupStream, Members;
    var ids := IDs(rows);
    var stream := GroupStream(db, query, ids);
    var first := FirstOfEachGroup(stream);
    var groups := LeafIDs(first);
    var flags := Flags(nodes[i], groups, nids);
    var scan := (g: LeafRow) => ScanLeaf(query.sel.fields, g);
    var scanned := Map(scan, first);
    LeavesPicked(neighbors, scanned, flags, true, S);
    forall j | 0 <= j < |first| ensures flags[j] <==> Owns(nodes, ids, i) && JoinedTo(stream, ids[i])(first[j]) {
      assert groups[j] in groups;
      FlagIsJoined(nodes, rows, byID, stream, i, groups[j]);
    }
    if Owns(nodes, ids, i) {
      PickIsFilter(first, scanned, flags, true, scan, JoinedTo(stream, ids[i]));
    } else {
      PickAbsent(scanned, flags, true);
    }
  }

  lemma {:induction false} FlagIsJoined(nodes: seq<Account>, rows: seq<AccountRow>, byID: map<int, Account>,
                                        stream: seq<(int, LeafRow)>, i: nat, g: int)
    requires Hold(nodes, rows) && i < |nodes| && ById(nodes, IDs(rows), byID)
    requires forall i :: 0 <= i < |stream| ==> stream[i].0 in byID
    ensures nodes[i] in Members(stream, byID, g) <==> Owns(nodes, IDs(rows), i) && Joined(stream, rows[i].id, g)
  {
    hide Members;
    var ids := IDs(rows);
    MembersAreNodes(nodes, ids, byID, stream, g, nodes[i]);
    if nodes[i] in Members(stream, byID, g) {
      var j :| 0 <= j < |stream| && stream[j].1.id == g && byID[stream[j].0] == nodes[i];
      assert LastWith(nodes, ids, stream[j].0) == Some(nodes[i]);
    }
    if Owns(nodes, ids, i) && Joined(stream, ids[i], g) {
      var j :| 0 <= j < |stream| && stream[j].0 == ids[i] && stream[j].1.id == g;
      assert byID[stream[j].0] == nodes[i];
    }
  }

  // ---- to-one edges of accounts ----

  method ReadProxyKeys(nodes: seq<Account>, ghost rows: seq<AccountRow>) returns (keys: seq<Option<int>>)
    requires Hold(nodes, rows)
    ensures keys == ProxyKeys(rows)
  {
    keys := [];
    for i := 0 to |nodes|
      invariant keys == ProxyKeys(rows)[..i]
    {
      keys := keys + [nodes[i].row.proxyID];
    }
  }

  method ReadParentKeys(nodes: seq<Account>, ghost rows: seq<AccountRow>) returns (keys: seq<Option<int>>)
    requires Hold(nodes, rows)
    ensures keys == ParentKeys(rows)
  {
    keys := [];
    for i := 0 to |nodes|
      invariant keys == ParentKeys(rows)[..i]
    {
      keys := keys + [nodes[i].row.parentAccountID];
    }
  }

  method ReadAccountKeys(nodes: seq<AccountGroup>, ghost rows: seq<AccountGroupRow>) returns (keys: seq<Option<int>>)
    requires HoldJoins(nodes, rows)
    ensures keys == AccountKeys(rows)
  {
    keys := [];
    for i := 0 to |nodes|
      invariant keys == AccountKeys(rows)[..i]
    {
      keys := keys + [Some(nodes[i].row.accountID)];
    }
  }

  method ReadGroupKeys(nodes: seq<AccountGroup>, ghost rows: seq<AccountGroupRow>) returns (keys: seq<Option<int>>)
    requires HoldJoins(nodes, rows)
    ensures keys == GroupKeys(rows)
  {
    keys := [];
    for i := 0 to |nodes|
      invariant keys == GroupKeys(rows)[..i]
    {
      keys := keys + [Some(nodes[i].row.groupID)];
    }
  }

  method LoadProxy(db: DB, query: LeafQ, nodes: seq<Account>, ghost rows: seq<AccountRow>)
    returns (err: Option<LoadError>, ghost S: set<object>)
    requires Hold(nodes, rows) && forall i :: 0 <= i < |nodes| ==> nodes[i].proxy == null
    modifies nodes`proxy
    ensures fresh(S) && err == Outcome(if PresentKeys(ProxyKeys(rows)) == [] then None else LeafFailure(Some(query)))
    ensures err == None ==> forall i :: 0 <= i < |nodes| ==>
              LeafShows(nodes[i].proxy, LeafTarget(Some(query), db.proxies, ProxyKeys(rows), rows[i].proxyID), S)
  {
    hide Pick, Stray, LastWith, LeafNodes, PresentKeys, LeafFailure, ByKey, LeafTarget, Target;
    var keys := ReadProxyKeys(nodes, rows);
    var ids, nodeids := IndexByForeignKey(nodes, keys);
    S := {};
    if |ids| == 0 {
      forall i | 0 <= i < |nodes| ensures LeafTarget(Some(query), db.proxies, keys, rows[i].proxyID) == None {
        assert keys[i] == rows[i].proxyID;
        NoKeyNoTarget(Some(query), db.proxies, keys, i);
      }
      return None, {};
    }
    var neighbors;
    neighbors, err, S := LeafAll(query, LeafIDIn(ids), db.proxies);
    if err.Some? {
      return;
    }
    ghost var found := LeafNodes(query, LeafIDIn(ids), db.proxies);
    LeafTargetsKnown(query, db.proxies, nodes, keys, nodeids);
    err := AttachProxies(nodes, keys, nodeids, seq(|nodes|, i => null), neighbors, LeafIDs(found));
    assert neighbors[..|found|] == neighbors && LeafIDs(found)[..|found|] == LeafIDs(found);
    forall i | 0 <= i < |nodes|
      ensures LeafShows(nodes[i].proxy, LeafTarget(Some(query), db.proxies, keys, keys[i]), S) {
      LeafTargetShows(query, db.proxies, keys, keys[i], neighbors, S);
    }
  }

  method LoadJoinedGroup(db: DB, query: LeafQ, nodes: seq<AccountGroup>, ghost rows: seq<AccountGroupRow>)
    returns (err: Option<LoadError>, ghost S: set<object>)
    requires HoldJoins(nodes, rows) && forall i :: 0 <= i < |nodes| ==> nodes[i].group == null
    modifies nodes`group
    ensures fresh(S) && err == Outcome(if PresentKeys(GroupKeys(rows)) == [] then None else LeafFailure(Some(query)))
    ensures err == None ==> forall i :: 0 <= i < |nodes| ==>
              LeafShows(nodes[i].group, LeafTarget(Some(query), db.groups, GroupKeys(rows), Some(rows[i].groupID)), S)
  {
    hide Pick, Stray, LastWith, LeafNodes, PresentKeys, LeafFailure, ByKey, LeafTarget, Target;
    var keys := ReadGroupKeys(nodes, rows);
    var ids, nodeids := IndexByForeignKey(nodes, keys);
    S := {};
    if |ids| == 0 {
      forall i | 0 <= i < |nodes| ensures LeafTarget(Some(query), db.groups, keys, Some(rows[i].groupID)) == None {
        assert keys[i] == Some(rows[i].groupID);
        NoKeyNoTarget(Some(query), db.groups, keys, i);
      }
      return None, {};
    }
    var neighbors;
    neighbors, err, S := LeafAll(query, LeafIDIn(ids), db.groups);
    if err.Some? {
      return;
    }
    ghost var found := LeafNodes(query, LeafIDIn(ids), db.groups);
    LeafTargetsKnown(query, db.groups, nodes, keys, nodeids);
    err := AttachJoinedGroups(nodes, keys, nodeids, seq(|nodes|, i => null), neighbors, LeafIDs(found));
    assert neighbors[..|found|] == neighbors && LeafIDs(found)[..|found|] == LeafIDs(found);
    forall i | 0 <= i < |nodes|
      ensures LeafShows(nodes[i].group, LeafTarget(Some(query), db.groups, keys, keys[i]), S) {
      LeafTargetShows(query, db.groups, keys, keys[i], neighbors, S);
    }
  }

  lemma {:induction false} NoKeyNoTarget(q: Option<LeafQ>, table: seq<LeafRow>, keys: seq<Option<int>>, i: nat)
    requires PresentKeys(keys) == [] && i < |keys|
    ensures keys[i] == None && LeafTarget(q, table, keys, keys[i]) == None
  {
    PresentKeysNonEmpty(keys);
  }

  /** Every leaf found for a list of keys has one of the keys. */
  lemma {:induction false} LeafTargetsKnown<N>(q: LeafQ, table: seq<LeafRow>, nodes: seq<N>, keys: seq<Option<int>>,
                                               nodeids: map<int, seq<N>>)
    requires |nodes| == |keys| && ByKey(nodes, keys, nodeids)
    ensures var ids := LeafIDs(LeafNodes(q, LeafIDIn(PresentKeys(keys)), table));
            Stray(Somes(ids), nodeids.Keys) == |ids|
  {
    var asked := PresentKeys(keys);
    var ids := LeafIDs(LeafNodes(q, LeafIDIn(asked), table));
    forall j | 0 <= j < |ids| ensures ids[j] in nodeids.Keys {
      LeavesAreAsked(q, LeafIDIn(asked), table, j);
      PresentKeysComplete(keys, ids[j]);
    }
    NoStray(Somes(ids), nodeids.Keys);
  }

  lemma {:induction false} LeafTargetShows(q: LeafQ, table: seq<LeafRow>, keys: seq<Option<int>>, key: Option<int>,
                                           neighbors: seq<LeafNode>, S: set<object>)
    requires LeavesShow(neighbors, LeafNodes(q, LeafIDIn(PresentKeys(keys)), table), S)
    ensures var found := LeafNodes(q, LeafIDIn(PresentKeys(keys)), table);
            LeafShows(match Target(neighbors, LeafIDs(found), key) case Some(n) => n case None => null,
                      LeafTarget(Some(q), table, keys, key), S)
  {
    var found := LeafNodes(q, LeafIDIn(PresentKeys(keys)), table);
    if key.Some? {
      LastLeaf(neighbors, found, LeafIDs(found), key.value, S);
    }
  }
  // ---- edges that lead to accounts ----

  method LoadParent(db: DB, query: AccountQ, nodes: seq<Account>, ghost rows: seq<AccountRow>)
    returns (err: Option<LoadError>, ghost S: set<object>)
    requires WellFormed(db) && Hold(nodes, rows) && forall i :: 0 <= i < |nodes| ==> nodes[i].parent == null
    modifies nodes`parent
    ensures fresh(S) && err == Outcome(TargetFailure(db, Some(query), ParentKeys(rows)))
    ensures err == None ==> forall i :: 0 <= i < |nodes| ==>
              TargetShows(nodes[i].parent, AccountTarget(db, Some(query), ParentKeys(rows), rows[i].parentAccountID), S)
    decreases query.edges, 3
  {
    hide Pick, Stray, LastWith, LoadAccounts, PresentKeys, AccountsFailure, ByKey, AccountTarget, Target, Shows,
         AccountsShow;
    var keys := ReadParentKeys(nodes, rows);
    var ids, nodeids := IndexByForeignKey(nodes, keys);
    S := {};
    if |ids| == 0 {
      forall i | 0 <= i < |nodes| ensures AccountTarget(db, Some(query), keys, rows[i].parentAccountID) == None {
        assert keys[i] == rows[i].parentAccountID;
        NoKeyNoAccount(db, Some(query), keys, i);
      }
      return None, {};
    }
    var neighbors;
    neighbors, err, S := All(db, ParentQuery(query, ids));
    if err.Some? {
      return;
    }
    ghost var found := TreeIDs(LoadAccounts(db, ParentQuery(query, ids)));
    AccountTargetsKnown(db, query, nodes, keys, nodeids);
    ShownIDs(neighbors, LoadAccounts(db, ParentQuery(query, ids)), S);
    err := AttachParents(nodes, keys, nodeids, seq(|nodes|, i => null), neighbors, found);
    assert neighbors[..|found|] == neighbors && found[..|found|] == found;
    forall i | 0 <= i < |nodes|
      ensures TargetShows(nodes[i].parent, AccountTarget(db, Some(query), keys, keys[i]), S) {
      AccountTargetShows(db, query, keys, keys[i], neighbors, S);
    }
  }

  method LoadOwner(db: DB, query: AccountQ, nodes: seq<AccountGroup>, ghost rows: seq<AccountGroupRow>)
    returns (err: Option<LoadError>, ghost S: set<object>)
    requires WellFormed(db) && HoldJoins(nodes, rows) && forall i :: 0 <= i < |nodes| ==> nodes[i].account == null
    modifies nodes`account
    ensures fresh(S) && err == Outcome(TargetFailure(db, Some(query), AccountKeys(rows)))
    ensures err == None ==> forall i :: 0 <= i < |nodes| ==>
              TargetShows(nodes[i].account,
                          AccountTarget(db, Some(query), AccountKeys(rows), Some(rows[i].accountID)), S)
    decreases query.edges, 3
  {
    hide Pick, Stray, LastWith, LoadAccounts, PresentKeys, AccountsFailure, ByKey, AccountTarget, Target, Shows,
         AccountsShow;
    var keys := ReadAccountKeys(nodes, rows);
    var ids, nodeids := IndexByForeignKey(nodes, keys);
    S := {};
    if |ids| == 0 {
      forall i | 0 <= i < |nodes| ensures AccountTarget(db, Some(query), keys, Some(rows[i].accountID)) == None {
        assert keys[i] == Some(rows[i].accountID);
        NoKeyNoAccount(db, Some(query), keys, i);
      }
      return None, {};
    }
    var neighbors;
    neighbors, err, S := All(db, ParentQuery(query, ids));
    if err.Some? {
      return;
    }
    ghost var found := TreeIDs(LoadAccounts(db, ParentQuery(query, ids)));
    AccountTargetsKnown(db, query, nodes, keys, nodeids);
    ShownIDs(neighbors, LoadAccounts(db, ParentQuery(query, ids)), S);
    err := AttachOwners(nodes, keys, nodeids, seq(|nodes|, i => null), neighbors, found);
    assert neighbors[..|found|] == neighbors && found[..|found|] == found;
    forall i | 0 <= i < |nodes|
      ensures TargetShows(nodes[i].account, AccountTarget(db, Some(query), keys, keys[i]), S) {
      AccountTargetShows(db, query, keys, keys[i], neighbors, S);
    }
  }

  lemma {:induction false} NoKeyNoAccount(db: DB, q: Option<AccountQ>, keys: seq<Option<int>>, i: nat)
    requires PresentKeys(keys) == [] && i < |keys|
    ensures keys[i] == None && AccountTarget(db, q, keys, keys[i]) == None
  {
    PresentKeysNonEmpty(keys);
  }

  lemma {:induction false} AccountTargetsKnown<N>(db: DB, q: AccountQ, nodes: seq<N>, keys: seq<Option<int>>,
                                                  nodeids: map<int, seq<N>>)
    requires |nodes| == |keys| && ByKey(nodes, keys, nodeids)
    ensures var ids := TreeIDs(LoadAccounts(db, ParentQuery(q, PresentKeys(keys))));
            Stray(Somes(ids), nodeids.Keys) == |ids|
  {
    hide LoadAccounts, ByKey, PresentKeys;
    var ids := TreeIDs(LoadAccounts(db, ParentQuery(q, PresentKeys(keys))));
    TargetsHaveIDs(db, q, PresentKeys(keys), ids);
    forall j | 0 <= j < |ids| ensures ids[j] in nodeids.Keys {
      assert ids[j] in PresentKeys(keys);
      PresentKeysComplete(keys, ids[j]);
      IndexedKey(nodes, keys, nodeids, ids[j]);
    }
    NoStray(Somes(ids), nodeids.Keys);
  }

  lemma {:induction false} IndexedKey<N>(nodes: seq<N>, keys: seq<Option<int>>, nodeids: map<int, seq<N>>, k: int)
    requires |nodes| == |keys| && ByKey(nodes, keys, nodeids)
    ensures Some(k) in keys <==> k in nodeids
  {
  }

  lemma {:induction false} ShownIDs(ns: seq<Account>, ts: seq<AccountTree>, S: set<object>)
    requires AccountsShow(ns, ts, S)
    ensures |ns| == |ts| && forall i :: 0 <= i < |ns| ==> ns[i].row == ts[i].row
  {
  }

  lemma {:induction false} AccountTargetShows(db: DB, q: AccountQ, keys: seq<Option<int>>, key: Option<int>,
                                              neighbors: seq<Account>, S: set<object>)
    requires AccountsShow(neighbors, LoadAccounts(db, ParentQuery(q, PresentKeys(keys))), S)
    ensures var found := LoadAccounts(db, ParentQuery(q, PresentKeys(keys)));
            |found| == |neighbors| &&
            TargetShows(match Target(neighbors, TreeIDs(found), key) case Some(n) => n case None => null,
                        AccountTarget(db, Some(q), keys, key), S)
  {
    hide LoadAccounts, Shows;
    var found := LoadAccounts(db, ParentQuery(q, PresentKeys(keys)));
    if key.Some? {
      LastAccount(neighbors, found, TreeIDs(found), key.value, S);
    }
  }

  method LoadChildren(db: DB, query: AccountQ, nodes: seq<Account>, ghost rows: seq<AccountRow>)
    returns (err: Option<LoadError>, ghost S: set<object>)
    requires WellFormed(db) && Hold(nodes, rows)
    modifies nodes`children
    ensures fresh(S) && err == Outcome(ChildrenFailure(db, Some(query), IDs(rows)))
    ensures err == None ==> forall i :: 0 <= i < |nodes| ==>
              AccountsShow(nodes[i].children,
                           Share(nodes, IDs(rows), i, ChildrenShare(db, Some(query), IDs(rows), rows[i].id)), S)
    decreases query.edges, 3
  {
    hide Pick, Received, ChildrenShare, LoadAccounts, ById, Stray, AccountsFailure, Owns, Share, Shows, AccountsShow;
    var ids := InitChildren(nodes, rows);
    var fks, nodeids := IndexById(nodes, ids);
    var neighbors;
    neighbors, err, S := All(db, ChildrenQuery(query, fks));
    if err.Some? {
      return;
    }
    ghost var found := LoadAccounts(db, ChildrenQuery(query, ids));
    ghost var keys := TreeParents(found);
    ChildrenKnown(db, query, nodes, ids, nodeids);
    ShownIDs(neighbors, found, S);
    err := AttachChildren(nodes, rows, nodeids, Empties(|nodes|), neighbors, keys);
    assert neighbors[..|keys|] == neighbors && keys[..|keys|] == keys;
    ChildrenShown(db, query, nodes, ids, neighbors, found, keys, S);
  }

  lemma {:induction false} ChildrenShown(db: DB, query: AccountQ, nodes: seq<Account>, ids: seq<int>,
                                         neighbors: seq<Account>, found: seq<AccountTree>, keys: seq<Option<int>>,
                                         S: set<object>)
    requires |nodes| == |ids| && found == LoadAccounts(db, ChildrenQuery(query, ids)) && keys == TreeParents(found)
    requires |neighbors| == |found| && AccountsShow(neighbors, found, S)
    requires GivenChildren(nodes, ids, Empties(|nodes|), neighbors, keys)
    ensures forall i :: 0 <= i < |nodes| ==>
              AccountsShow(nodes[i].children, Share(nodes, ids, i, ChildrenShare(db, Some(query), ids, ids[i])), S)
  {
    hide Pick, Received, ChildrenShare, LoadAccounts, Owns, Share, Shows, AccountsShow;
    forall i | 0 <= i < |nodes|
      ensures AccountsShow(nodes[i].children, Share(nodes, ids, i, ChildrenShare(db, Some(query), ids, ids[i])), S) {
      ReceivedAccounts(nodes, ids, i, neighbors, found, keys, S);
      ChildrenShareIs(db, query, ids, ids[i]);
      assert nodes[i].children == Received(nodes, ids, i, neighbors, keys);
    }
  }

  lemma {:induction false} ChildrenKnown<N>(db: DB, query: AccountQ, nodes: seq<N>, ids: seq<int>, nodeids: map<int, N>)
    requires |nodes| == |ids| && ById(nodes, ids, nodeids)
    ensures var keys := TreeParents(LoadAccounts(db, ChildrenQuery(query, ids)));
            Stray(keys, nodeids.Keys) == |keys|
  {
    hide LoadAccounts, ById, Stray;
    var keys := TreeParents(LoadAccounts(db, ChildrenQuery(query, ids)));
    ChildrenHaveKeys(db, query, ids, keys);
    KnownKeys(nodes, ids, nodeids, keys);
  }

  lemma {:induction false} ChildrenShareIs(db: DB, query: AccountQ, ids: seq<int>, id: int)
    ensures var found := LoadAccounts(db, ChildrenQuery(query, ids));
            ChildrenShare(db, Some(query), ids, id) == Pick(found, TreeParents(found), Some(id))
  {
    hide LoadAccounts;
  }

  lemma {:induction false} ReceivedAccounts<N>(nodes: seq<N>, ids: seq<int>, i: nat, neighbors: seq<Account>,
                                               found: seq<AccountTree>, keys: seq<Option<int>>, S: set<object>)
    requires |nodes| == |ids| && i < |nodes| && |keys| == |found| && AccountsShow(neighbors, found, S)
    ensures AccountsShow(Received(nodes, ids, i, neighbors, keys),
                         Share(nodes, ids, i, Pick(found, keys, Some(ids[i]))), S)
  {
    AccountsPicked(neighbors, found, keys, Some(ids[i]), S);
  }

  method LoadAccountGroupsEdge(db: DB, query: AccountGroupQ, nodes: seq<Account>, ghost rows: seq<AccountRow>)
    returns (err: Option<LoadError>, ghost S: set<object>)
    requires WellFormed(db) && Hold(nodes, rows)
    modifies nodes`accountGroups
    ensures fresh(S) && err == Outcome(AccountGroupsFailure(db, Some(query), IDs(rows)))
    ensures err == None ==> forall i :: 0 <= i < |nodes| ==>
              JoinsShow(nodes[i].accountGroups,
                        Share(nodes, IDs(rows), i, AccountGroupsShare(db, Some(query), IDs(rows), rows[i].id)), S)
    decreases query.edges, 3
  {
    hide Pick, Received, AccountGroupsShare, LoadAccountGroups, ById, Stray, JoinsFailure, Owns, Share, JoinShows,
         JoinsShow;
    var ids := InitAccountGroups(nodes, rows);
    var fks, nodeids := IndexById(nodes, ids);
    var neighbors;
    neighbors, err, S := AllJoins(db, AccountGroupsQuery(query, fks));
    if err.Some? {
      return;
    }
    ghost var found := LoadAccountGroups(db, AccountGroupsQuery(query, ids));
    ghost var keys := Somes(JoinOwners(found));
    JoinsKnown(db, query, nodes, ids, nodeids);
    ShownOwners(neighbors, found, S);
    err := EagerAttach.AttachAccountGroups(nodes, rows, nodeids, Empties(|nodes|), neighbors, keys);
    assert neighbors[..|keys|] == neighbors && keys[..|keys|] == keys;
    AccountGroupsShown(db, query, nodes, ids, neighbors, found, JoinOwners(found), S);
  }

  lemma {:induction false} AccountGroupsShown(db: DB, query: AccountGroupQ, nodes: seq<Account>, ids: seq<int>,
                                              neighbors: seq<AccountGroup>, found: seq<AccountGroupTree>,
                                              owners: seq<int>, S: set<object>)
    requires |nodes| == |ids| && found == LoadAccountGroups(db, AccountGroupsQuery(query, ids))
             && owners == JoinOwners(found)
    requires |neighbors| == |found| && JoinsShow(neighbors, found, S)
    requires GivenAccountGroups(nodes, ids, Empties(|nodes|), neighbors, Somes(owners))
    ensures forall i :: 0 <= i < |nodes| ==>
              JoinsShow(nodes[i].accountGroups,
                        Share(nodes, ids, i, AccountGroupsShare(db, Some(query), ids, ids[i])), S)
  {
    hide Pick, Received, AccountGroupsShare, LoadAccountGroups, Owns, Share, JoinShows, JoinsShow;
    forall i | 0 <= i < |nodes|
      ensures JoinsShow(nodes[i].accountGroups,
                        Share(nodes, ids, i, AccountGroupsShare(db, Some(query), ids, ids[i])), S) {
      ReceivedJoins(nodes, ids, i, neighbors, found, S);
      AccountGroupsShareIs(db, query, ids, ids[i]);
      assert nodes[i].accountGroups == Received(nodes, ids, i, neighbors, Somes(owners));
    }
  }

  lemma {:induction false} JoinsKnown<N>(db: DB, query: AccountGroupQ, nodes: seq<N>, ids: seq<int>,
                                         nodeids: map<int, N>)
    requires |nodes| == |ids| && ById(nodes, ids, nodeids)
    ensures var keys := Somes(JoinOwners(LoadAccountGroups(db, AccountGroupsQuery(query, ids))));
            Stray(keys, nodeids.Keys) == |keys|
  {
    hide LoadAccountGroups, ById, Stray;
    var owners := JoinOwners(LoadAccountGroups(db, AccountGroupsQuery(query, ids)));
    JoinsHaveOwners(db, query, ids, owners);
    KnownKeys(nodes, ids, nodeids, Somes(owners));
  }

  lemma {:induction false} AccountGroupsShareIs(db: DB, query: AccountGroupQ, ids: seq<int>, id: int)
    ensures var found := LoadAccountGroups(db, AccountGroupsQuery(query, ids));
            AccountGroupsShare(db, Some(query), ids, id) == Pick(found, JoinOwners(found), id)
  {
    hide LoadAccountGroups;
  }

  lemma {:induction false} ShownOwners(ns: seq<AccountGroup>, ts: seq<AccountGroupTree>, S: set<object>)
    requires JoinsShow(ns, ts, S)
    ensures |ns| == |ts| && forall i :: 0 <= i < |ns| ==> ns[i].row == ts[i].row
  {
  }

  lemma {:induction false} ReceivedJoins<N>(nodes: seq<N>, ids: seq<int>, i: nat, neighbors: seq<AccountGroup>,
                                            found: seq<AccountGroupTree>, S: set<object>)
    requires |nodes| == |ids| && i < |nodes| && JoinsShow(neighbors, found, S)
    ensures JoinsShow(Received(nodes, ids, i, neighbors, Somes(JoinOwners(found))),
                      Share(nodes, ids, i, Pick(found, JoinOwners(found), ids[i])), S)
  {
    JoinsPicked(neighbors, found, JoinOwners(found), ids[i], S);
    PickSomes(neighbors, JoinOwners(found), ids[i]);
  }

  // ======== running a query ========

  /** All: a projection with an unknown column is rejected before anything runs. */
  method All(db: DB, q: AccountQ) returns (nodes: seq<Account>, err: Option<LoadError>, ghost S: set<object>)
    requires WellFormed(db)
    ensures fresh(S) && err == Outcome(AccountsFailure(db, q))
    ensures err == None ==> AccountsShow(nodes, LoadAccounts(db, q), S)
    decreases q.edges, 2
  {
    nodes, S := [], {};
    err := PrepareQuery(q.sel.fields, Valid(), OfAccount());
    if err.Some? {
      return;
    }
    nodes, err, S := SqlAll(db, q);
  }

  method AllJoins(db: DB, q: AccountGroupQ)
    returns (nodes: seq<AccountGroup>, err: Option<LoadError>, ghost S: set<object>)
    requires WellFormed(db)
    ensures fresh(S) && err == Outcome(JoinsFailure(db, q))
    ensures err == None ==> JoinsShow(nodes, LoadAccountGroups(db, q), S)
    decreases q.edges, 2
  {
    nodes, S := [], {};
    err := PrepareQuery(q.sel.fields, ValidJoin(), OfJoin());
    if err.Some? {
      return;
    }
    nodes, err, S := SqlAllJoins(db, q);
  }

  /** One scanned node: the holders are made, filled by the driver, and assigned. */
  method ScanNode(columns: seq<Column>, row: AccountRow, loaded: seq<bool>) returns (node: Account)
    ensures fresh(node) && node.row == ScanRow(columns, row) && node.loaded == loaded
    ensures node.groups == [] && node.proxy == null && node.parent == null && node.children == []
    ensures node.usageLogs == [] && node.accountGroups == []
  {
    hide AssignAll, Cell;
    var values := Account.ScanValues(columns);
    for i := 0 to |columns|
      invariant forall j :: 0 <= j < i ==> values[j] == Cell(row, columns[j])
    {
      values[i] := Cell(row, columns[i]);
    }
    node := new Account(loaded);
    assert values[..] == Map(Cells(row), columns);
    ScanRowSucceeds(columns, row);
    var err := node.AssignValues(columns, values);
  }

  /** The columns of the query's spec: the id leads, the caller's columns follow without it, and the foreign keys
      of the requested edges are added if they are not there yet. */
  method QueryColumns(fields: seq<Column>, edges: AccountEdgesQ) returns (columns: seq<Column>)
    ensures columns == AccountColumns(fields, edges)
  {
    if |fields| == 0 {
      return ALL_COLUMNS;
    }
    var notID := (c: Column) => c != Int64Column(ID);
    columns := [Int64Column(ID)];
    for i := 0 to |fields|
      invariant columns == [Int64Column(ID)] + Filter(fields[..i], notID)
    {
      assert fields[..i + 1] == fields[..i] + [fields[i]];
      FilterSnoc(fields[..i], fields[i], notID);
      if fields[i] != Int64Column(ID) {
        columns := columns + [fields[i]];
      }
    }
    assert fields[..|fields|] == fields;
    if edges.proxy.Some? {
      columns := AddColumnOnce(columns, Int64Column(ProxyID));
    }
    if edges.parent.Some? {
      columns := AddColumnOnce(columns, Int64Column(ParentAccountID));
    }
  }

  /** Nodes as the scan leaves them, with no edge set. */
  ghost predicate Bare(nodes: seq<Account>)
    reads nodes
  {
    forall i :: 0 <= i < |nodes| ==>
      nodes[i].groups == [] && nodes[i].proxy == null && nodes[i].parent == null && nodes[i].children == []
      && nodes[i].usageLogs == [] && nodes[i].accountGroups == []
  }

  method ScanNodes(db: DB, q: AccountQ) returns (nodes: seq<Account>)
    ensures Hold(nodes, ScanAccounts(db, q)) && Bare(nodes)
    ensures fresh(nodes) && forall n :: n in nodes ==> n.loaded == q.edges.Loaded()
  {
    hide ScanRow, AccountColumns;
    var columns := QueryColumns(q.sel.fields, q.edges);
    var found := q.sel.Run(db.accounts);
    nodes := [];
    for i := 0 to |found|
      invariant |nodes| == i && forall j :: 0 <= j < i ==> nodes[j].row == ScanRow(columns, found[j])
      invariant fresh(nodes) && forall n :: n in nodes ==> n.loaded == q.edges.Loaded()
      invariant Bare(nodes)
    {
      var node := ScanNode(columns, found[i], q.edges.Loaded());
      nodes := nodes + [node];
    }
  }

  // ---- what each edge of a batch of nodes shows once it is loaded ----

  ghost predicate GroupsShown(db: DB, q: Option<LeafQ>, nodes: seq<Account>, rows: seq<AccountRow>, S: set<object>)
    requires |nodes| == |rows|
    reads nodes`groups, S
  {
    forall i :: 0 <= i < |nodes| ==>
      LeavesShow(nodes[i].groups, Share(nodes, IDs(rows), i, GroupsShare(db, q, IDs(rows), rows[i].id)), S)
  }

  ghost predicate ProxiesShown(db: DB, q: Option<LeafQ>, nodes: seq<Account>, rows: seq<AccountRow>, S: set<object>)
    requires |nodes| == |rows|
    reads nodes`proxy, S
  {
    forall i :: 0 <= i < |nodes| ==>
      LeafShows(nodes[i].proxy, LeafTarget(q, db.proxies, ProxyKeys(rows), rows[i].proxyID), S)
  }

  ghost predicate ParentsShown(db: DB, q: Option<AccountQ>, nodes: seq<Account>, rows: seq<AccountRow>, S: set<object>)
    requires |nodes| == |rows|
    reads nodes`parent, S
  {
    forall i :: 0 <= i < |nodes| ==>
      TargetShows(nodes[i].parent, AccountTarget(db, q, ParentKeys(rows), rows[i].parentAccountID), S)
  }

  ghost predicate AllChildrenShown(db: DB, q: Option<AccountQ>, nodes: seq<Account>, rows: seq<AccountRow>,
                                   S: set<object>)
    requires |nodes| == |rows|
    reads nodes`children, S
  {
    forall i :: 0 <= i < |nodes| ==>
      AccountsShow(nodes[i].children, Share(nodes, IDs(rows), i, ChildrenShare(db, q, IDs(rows), rows[i].id)), S)
  }

  ghost predicate LogsShown(db: DB, q: Option<LeafQ>, nodes: seq<Account>, rows: seq<AccountRow>, S: set<object>)
    requires |nodes| == |rows|
    reads nodes`usageLogs, S
  {
    forall i :: 0 <= i < |nodes| ==>
      LeavesShow(nodes[i].usageLogs, Share(nodes, IDs(rows), i, UsageLogsShare(db, q, IDs(rows), rows[i].id)), S)
  }

  ghost predicate AllJoinsShown(db: DB, q: Option<AccountGroupQ>, nodes: seq<Account>, rows: seq<AccountRow>,
                                S: set<object>)
    requires |nodes| == |rows|
    reads nodes`accountGroups, S
  {
    forall i :: 0 <= i < |nodes| ==>
      JoinsShow(nodes[i].accountGroups, Share(nodes, IDs(rows), i, AccountGroupsShare(db, q, IDs(rows), rows[i].id)), S)
  }

  // ---- each edge, if it was requested ----

  method EdgeGroups(db: DB, q: Option<LeafQ>, nodes: seq<Account>, ghost rows: seq<AccountRow>)
    returns (err: Option<LoadError>, ghost S: set<object>)
    requires Hold(nodes, rows) && forall i :: 0 <= i < |nodes| ==> nodes[i].groups == []
    modifies nodes`groups
    ensures fresh(S) && err == Outcome(LeafFailure(q))
    ensures err == None ==> GroupsShown(db, q, nodes, rows, S)
  {
    hide GroupStream, GroupsFrom, Rejected;
    err, S := None, {};
    if q.Some? {
      err, S := LoadGroups(db, q.value, nodes, rows);
    }
  }

  method EdgeProxy(db: DB, q: Option<LeafQ>, nodes: seq<Account>, ghost rows: seq<AccountRow>)
    returns (err: Option<LoadError>, ghost S: set<object>)
    requires Hold(nodes, rows) && forall i :: 0 <= i < |nodes| ==> nodes[i].proxy == null
    modifies nodes`proxy
    ensures fresh(S) && err == Outcome(if PresentKeys(ProxyKeys(rows)) == [] then None else LeafFailure(q))
    ensures err == None ==> ProxiesShown(db, q, nodes, rows, S)
  {
    hide PresentKeys, LeafNodes, Rejected, LastWith;
    err, S := None, {};
    if q.Some? {
      err, S := LoadProxy(db, q.value, nodes, rows);
    }
  }

  method EdgeParent(db: DB, q: Option<AccountQ>, nodes: seq<Account>, ghost rows: seq<AccountRow>)
    returns (err: Option<LoadError>, ghost S: set<object>)
    requires WellFormed(db) && Hold(nodes, rows) && forall i :: 0 <= i < |nodes| ==> nodes[i].parent == null
    modifies nodes`parent
    ensures fresh(S) && err == Outcome(TargetFailure(db, q, ParentKeys(rows)))
    ensures err == None ==> ParentsShown(db, q, nodes, rows, S)
    decreases q, 4
  {
    hide PresentKeys, AccountsFailure, LoadAccounts, Shows, LastWith;
    err, S := None, {};
    if q.Some? {
      err, S := LoadParent(db, q.value, nodes, rows);
    }
  }

  method EdgeChildren(db: DB, q: Option<AccountQ>, nodes: seq<Account>, ghost rows: seq<AccountRow>)
    returns (err: Option<LoadError>, ghost S: set<object>)
    requires WellFormed(db) && Hold(nodes, rows) && forall i :: 0 <= i < |nodes| ==> nodes[i].children == []
    modifies nodes`children
    ensures fresh(S) && err == Outcome(ChildrenFailure(db, q, IDs(rows)))
    ensures err == None ==> AllChildrenShown(db, q, nodes, rows, S)
    decreases q, 4
  {
    hide AccountsFailure, LoadAccounts, Shows, Pick;
    err, S := None, {};
    if q.Some? {
      err, S := LoadChildren(db, q.value, nodes, rows);
    }
  }

  method EdgeUsageLogs(db: DB, q: Option<LeafQ>, nodes: seq<Account>, ghost rows: seq<AccountRow>)
    returns (err: Option<LoadError>, ghost S: set<object>)
    requires Hold(nodes, rows) && forall i :: 0 <= i < |nodes| ==> nodes[i].usageLogs == []
    modifies nodes`usageLogs
    ensures fresh(S) && err == Outcome(LeafFailure(q))
    ensures err == None ==> LogsShown(db, q, nodes, rows, S)
  {
    hide Pick, LeafNodes, Rejected;
    err, S := None, {};
    if q.Some? {
      err, S := LoadUsageLogs(db, q.value, nodes, rows);
    }
  }

  method EdgeAccountGroups(db: DB, q: Option<AccountGroupQ>, nodes: seq<Account>, ghost rows: seq<AccountRow>)
    returns (err: Option<LoadError>, ghost S: set<object>)
    requires WellFormed(db) && Hold(nodes, rows) && forall i :: 0 <= i < |nodes| ==> nodes[i].accountGroups == []
    modifies nodes`accountGroups
    ensures fresh(S) && err == Outcome(AccountGroupsFailure(db, q, IDs(rows)))
    ensures err == None ==> AllJoinsShown(db, q, nodes, rows, S)
    decreases q, 4
  {
    hide JoinsFailure, LoadAccountGroups, JoinShows, Pick;
    err, S := None, {};
    if q.Some? {
      err, S := LoadAccountGroupsEdge(db, q.value, nodes, rows);
    }
  }

  ghost predicate EdgesShown(db: DB, edges: AccountEdgesQ, nodes: seq<Account>, rows: seq<AccountRow>, S: set<object>)
    requires |nodes| == |rows|
    reads nodes, S
  {
    && GroupsShown(db, edges.groups, nodes, rows, S)
    && ProxiesShown(db, edges.proxy, nodes, rows, S)
    && ParentsShown(db, edges.parent, nodes, rows, S)
    && AllChildrenShown(db, edges.children, nodes, rows, S)
    && LogsShown(db, edges.usageLogs, nodes, rows, S)
    && AllJoinsShown(db, edges.accountGroups, nodes, rows, S)
  }

  /** The requested edges one after the other; the first failure ends the load. */
  method LoadEdges(db: DB, edges: AccountEdgesQ, nodes: seq<Account>, ghost rows: seq<AccountRow>)
    returns (err: Option<LoadError>, ghost S: set<object>)
    requires WellFormed(db) && Hold(nodes, rows) && Bare(nodes)
    modifies nodes`groups, nodes`proxy, nodes`parent, nodes`children, nodes`usageLogs, nodes`accountGroups
    ensures fresh(S) && err == Outcome(EdgesFailure(db, rows, edges))
    ensures err == None ==> EdgesShown(db, edges, nodes, rows, S)
    decreases edges, 0, 1
  {
    hide GroupsShown, ProxiesShown, ParentsShown, AllChildrenShown, LogsShown, AllJoinsShown;
    hide PresentKeys, LeafFailure, TargetFailure, ChildrenFailure, AccountGroupsFailure;
    ghost var T;
    err, S := LoadFirstEdges(db, edges, nodes, rows);
    if err.Some? {
      return;
    }
    err, T := LoadLastEdges(db, edges, nodes, rows);
    if err.Some? {
      return;
    }
    FirstEdgesShownMore(db, edges, nodes, rows, S, S + T);
    LastEdgesShownMore(db, edges, nodes, rows, T, S + T);
    S := S + T;
  }

  method LoadFirstEdges(db: DB, edges: AccountEdgesQ, nodes: seq<Account>, ghost rows: seq<AccountRow>)
    returns (err: Option<LoadError>, ghost S: set<object>)
    requires WellFormed(db) && Hold(nodes, rows)
    requires forall i :: 0 <= i < |nodes| ==> nodes[i].groups == [] && nodes[i].proxy == null && nodes[i].parent == null
    modifies nodes`groups, nodes`proxy, nodes`parent
    ensures fresh(S) && err == Outcome(FirstEdgesFailure(db, rows, edges))
    ensures err == None ==>
              GroupsShown(db, edges.groups, nodes, rows, S) && ProxiesShown(db, edges.proxy, nodes, rows, S)
                            && ParentsShown(db, edges.parent, nodes, rows, S)
    decreases edges, 0, 0
  {
    hide GroupsShown, ProxiesShown, ParentsShown, PresentKeys, LeafFailure, TargetFailure;
    ghost var S1, S2, S3;
    err, S1 := EdgeGroups(db, edges.groups, nodes, rows);
    S := S1;
    if err.Some? {
      return;
    }
    err, S2 := EdgeProxy(db, edges.proxy, nodes, rows);
    if err.Some? {
      return;
    }
    err, S3 := EdgeParent(db, edges.parent, nodes, rows);
    if err.Some? {
      return;
    }
    S := S1 + S2 + S3;
    GroupsShownMore(db, edges.groups, nodes, rows, S1, S);
    ProxiesShownMore(db, edges.proxy, nodes, rows, S2, S);
    ParentsShownMore(db, edges.parent, nodes, rows, S3, S);
  }

  method LoadLastEdges(db: DB, edges: AccountEdgesQ, nodes: seq<Account>, ghost rows: seq<AccountRow>)
    returns (err: Option<LoadError>, ghost S: set<object>)
    requires WellFormed(db) && Hold(nodes, rows)
    requires forall i :: 0 <= i < |nodes| ==>
               nodes[i].children == [] && nodes[i].usageLogs == [] && nodes[i].accountGroups == []
    modifies nodes`children, nodes`usageLogs, nodes`accountGroups
    ensures fresh(S) && err == Outcome(LastEdgesFailure(db, rows, edges))
    ensures err == None ==>
              AllChildrenShown(db, edges.children, nodes, rows, S) && LogsShown(db, edges.usageLogs, nodes, rows, S)
                            && AllJoinsShown(db, edges.accountGroups, nodes, rows, S)
    decreases edges, 0, 0
  {
    hide AllChildrenShown, LogsShown, AllJoinsShown, LeafFailure, ChildrenFailure, AccountGroupsFailure;
    ghost var S1, S2, S3;
    err, S1 := EdgeChildren(db, edges.children, nodes, rows);
    S := S1;
    if err.Some? {
      return;
    }
    err, S2 := EdgeUsageLogs(db, edges.usageLogs, nodes, rows);
    if err.Some? {
      return;
    }
    err, S3 := EdgeAccountGroups(db, edges.accountGroups, nodes, rows);
    if err.Some? {
      return;
    }
    S := S1 + S2 + S3;
    ChildrenShownMore(db, edges.children, nodes, rows, S1, S);
    LogsShownMore(db, edges.usageLogs, nodes, rows, S2, S);
    AllJoinsShownMore(db, edges.accountGroups, nodes, rows, S3, S);
  }

  // ---- more objects show the same ----

  lemma {:induction false} GroupsShownMore(db: DB, q: Option<LeafQ>, nodes: seq<Account>, rows: seq<AccountRow>,
                                           S: set<object>, T: set<object>)
    requires |nodes| == |rows| && GroupsShown(db, q, nodes, rows, S) && S <= T
    ensures GroupsShown(db, q, nodes, rows, T)
  {
    hide GroupsShare, Share;
  }

  lemma {:induction false} ProxiesShownMore(db: DB, q: Option<LeafQ>, nodes: seq<Account>, rows: seq<AccountRow>,
                                            S: set<object>, T: set<object>)
    requires |nodes| == |rows| && ProxiesShown(db, q, nodes, rows, S) && S <= T
    ensures ProxiesShown(db, q, nodes, rows, T)
  {
    hide LeafTarget;
  }

  lemma {:induction false} ParentsShownMore(db: DB, q: Option<AccountQ>, nodes: seq<Account>, rows: seq<AccountRow>,
                                            S: set<object>, T: set<object>)
    requires |nodes| == |rows| && ParentsShown(db, q, nodes, rows, S) && S <= T
    ensures ParentsShown(db, q, nodes, rows, T)
  {
    hide TargetShows, AccountTarget;
    forall i | 0 <= i < |nodes|
      ensures TargetShows(nodes[i].parent, AccountTarget(db, q, ParentKeys(rows), rows[i].parentAccountID), T) {
      TargetShowsMore(nodes[i].parent, AccountTarget(db, q, ParentKeys(rows), rows[i].parentAccountID), S, T);
    }
  }

  lemma {:induction false} ChildrenShownMore(db: DB, q: Option<AccountQ>, nodes: seq<Account>, rows: seq<AccountRow>,
                                             S: set<object>, T: set<object>)
    requires |nodes| == |rows| && AllChildrenShown(db, q, nodes, rows, S) && S <= T
    ensures AllChildrenShown(db, q, nodes, rows, T)
  {
    hide AccountsShow, ChildrenShare, Share;
    var ids := IDs(rows);
    forall i | 0 <= i < |nodes|
      ensures AccountsShow(nodes[i].children, Share(nodes, ids, i, ChildrenShare(db, q, ids, rows[i].id)), T) {
      AccountsShowMore(nodes[i].children, Share(nodes, ids, i, ChildrenShare(db, q, ids, rows[i].id)), S, T);
    }
  }

  lemma {:induction false} LogsShownMore(db: DB, q: Option<LeafQ>, nodes: seq<Account>, rows: seq<AccountRow>,
                                         S: set<object>, T: set<object>)
    requires |nodes| == |rows| && LogsShown(db, q, nodes, rows, S) && S <= T
    ensures LogsShown(db, q, nodes, rows, T)
  {
    hide UsageLogsShare, Share;
  }

  lemma {:induction false} AllJoinsShownMore(db: DB, q: Option<AccountGroupQ>, nodes: seq<Account>,
                                             rows: seq<AccountRow>, S: set<object>, T: set<object>)
    requires |nodes| == |rows| && AllJoinsShown(db, q, nodes, rows, S) && S <= T
    ensures AllJoinsShown(db, q, nodes, rows, T)
  {
    hide JoinsShow, AccountGroupsShare, Share;
    var ids := IDs(rows);
    forall i | 0 <= i < |nodes|
      ensures JoinsShow(nodes[i].accountGroups, Share(nodes, ids, i, AccountGroupsShare(db, q, ids, rows[i].id)), T) {
      JoinsShowMore(nodes[i].accountGroups, Share(nodes, ids, i, AccountGroupsShare(db, q, ids, rows[i].id)), S, T);
    }
  }

  lemma {:induction false} FirstEdgesShownMore(db: DB, edges: AccountEdgesQ, nodes: seq<Account>,
                                               rows: seq<AccountRow>, S: set<object>, T: set<object>)
    requires |nodes| == |rows| && S <= T
    requires GroupsShown(db, edges.groups, nodes, rows, S) && ProxiesShown(db, edges.proxy, nodes, rows, S)
    requires ParentsShown(db, edges.parent, nodes, rows, S)
    ensures GroupsShown(db, edges.groups, nodes, rows, T) && ProxiesShown(db, edges.proxy, nodes, rows, T)
    ensures ParentsShown(db, edges.parent, nodes, rows, T)
  {
    hide GroupsShown, ProxiesShown, ParentsShown;
    GroupsShownMore(db, edges.groups, nodes, rows, S, T);
    ProxiesShownMore(db, edges.proxy, nodes, rows, S, T);
    ParentsShownMore(db, edges.parent, nodes, rows, S, T);
  }

  lemma {:induction false} LastEdgesShownMore(db: DB, edges: AccountEdgesQ, nodes: seq<Account>,
                                              rows: seq<AccountRow>, S: set<object>, T: set<object>)
    requires |nodes| == |rows| && S <= T
    requires AllChildrenShown(db, edges.children, nodes, rows, S) && LogsShown(db, edges.usageLogs, nodes, rows, S)
    requires AllJoinsShown(db, edges.accountGroups, nodes, rows, S)
    ensures AllChildrenShown(db, edges.children, nodes, rows, T) && LogsShown(db, edges.usageLogs, nodes, rows, T)
    ensures AllJoinsShown(db, edges.accountGroups, nodes, rows, T)
  {
    hide AllChildrenShown, LogsShown, AllJoinsShown;
    ChildrenShownMore(db, edges.children, nodes, rows, S, T);
    LogsShownMore(db, edges.usageLogs, nodes, rows, S, T);
    AllJoinsShownMore(db, edges.accountGroups, nodes, rows, S, T);
  }

  /** sqlAll: scan the nodes, then load the requested edges; an empty result asks for no edges at all. */
  method SqlAll(db: DB, q: AccountQ) returns (nodes: seq<Account>, err: Option<LoadError>, ghost S: set<object>)
    requires WellFormed(db) && !Rejected(Valid(), q.sel.fields)
    ensures fresh(S) && err == Outcome(AccountsFailure(db, q))
    ensures err == None ==> AccountsShow(nodes, LoadAccounts(db, q), S)
    decreases q.edges, 1
  {
    hide EdgesShown, EdgesFailure, ScanAccounts, Shows, AccountsShow, LoadAccounts;
    nodes := ScanNodes(db, q);
    ghost var rows := ScanAccounts(db, q);
    err, S := None, {};
    if |nodes| == 0 {
      NothingToShow(db, q);
      return;
    }
    err, S := LoadEdges(db, q.edges, nodes, rows);
    if err.Some? {
      nodes := [];
      return;
    }
    NodesShow(db, q, nodes, rows, S, S + set n | n in nodes);
    S := S + set n | n in nodes;
  }

  lemma {:induction false} NothingToShow(db: DB, q: AccountQ)
    requires ScanAccounts(db, q) == []
    ensures AccountsShow([], LoadAccounts(db, q), {})
  {
    hide ScanAccounts;
  }

  /** The ids of the scanned nodes are those of table rows, so every node owns its id. */
  lemma {:induction false} ScannedOwn<N>(db: DB, q: AccountQ, nodes: seq<N>, rows: seq<AccountRow>, i: nat)
    requires WellFormed(db) && rows == ScanAccounts(db, q) && |nodes| == |rows| && i < |rows|
    ensures Owns(nodes, IDs(rows), i)
  {
    hide LastWith, ScanAccounts;
    ScannedDistinct(db, q);
    var ids := IDs(rows);
    assert ids[i] in ids && LastWith(nodes, ids, ids[i]).Some?;
    var j :| 0 <= j < |nodes| && ids[j] == ids[i] && LastWith(nodes, ids, ids[i]).value == nodes[j];
  }

  lemma {:induction false} ScannedDistinct(db: DB, q: AccountQ)
    requires WellFormed(db)
    ensures Distinct(IDs(ScanAccounts(db, q)))
  {
    hide ScanRow, AccountColumns, StableSort;
    var rows := ScanAccounts(db, q);
    var found, columns := q.sel.Run(db.accounts), AccountColumns(q.sel.fields, q.edges);
    var key := (r: AccountRow) => r.id;
    assert UniqueBy(key, db.accounts);
    RunUnique(q.sel, db.accounts, key);
    ColumnsHaveKeys(q.sel.fields, q.edges);
    forall j | 0 <= j < |rows| ensures rows[j].id == key(found[j]) {
      ScannedID(columns, found[j]);
    }
  }

  lemma {:induction false} NodesShow(db: DB, q: AccountQ, nodes: seq<Account>, rows: seq<AccountRow>, S: set<object>,
                                     T: set<object>)
    requires WellFormed(db) && rows == ScanAccounts(db, q) && Hold(nodes, rows)
    requires EdgesShown(db, q.edges, nodes, rows, S)
    requires S <= T && forall n :: n in nodes ==> n in T && n.loaded == q.edges.Loaded()
    ensures AccountsShow(nodes, LoadAccounts(db, q), T)
  {
    hide ScanAccounts, AttachAccounts, Shows;
    EdgesShownMore(db, q.edges, nodes, rows, S, T);
    forall i | 0 <= i < |nodes| ensures Shows(nodes[i], AttachAccounts(db, rows, q.edges)[i], T) {
      ScannedOwn(db, q, nodes, rows, i);
      NodeShows(db, q.edges, nodes, rows, i, T);
    }
  }

  lemma {:induction false} EdgesShownMore(db: DB, edges: AccountEdgesQ, nodes: seq<Account>, rows: seq<AccountRow>,
                                          S: set<object>, T: set<object>)
    requires |nodes| == |rows| && S <= T && EdgesShown(db, edges, nodes, rows, S)
    ensures EdgesShown(db, edges, nodes, rows, T)
  {
    hide GroupsShown, ProxiesShown, ParentsShown, AllChildrenShown, LogsShown, AllJoinsShown;
    FirstEdgesShownMore(db, edges, nodes, rows, S, T);
    LastEdgesShownMore(db, edges, nodes, rows, S, T);
  }

  lemma {:induction false} NodeShows(db: DB, edges: AccountEdgesQ, nodes: seq<Account>, rows: seq<AccountRow>, i: nat,
                                     S: set<object>)
    requires Hold(nodes, rows) && i < |nodes| && Owns(nodes, IDs(rows), i)
    requires EdgesShown(db, edges, nodes, rows, S)
    requires nodes[i] in S && nodes[i].loaded == edges.Loaded()
    ensures Shows(nodes[i], AttachAccounts(db, rows, edges)[i], S)
  {
    hide AttachAccounts, Owns, GroupsShare, UsageLogsShare, ChildrenShare, AccountGroupsShare, AccountTarget,
         LeafTarget;
    hide TargetShows, AccountsShow, JoinsShow;
    AttachedNode(db, rows, edges, i);
  }

  // ---- join rows ----

  method ScanJoins(db: DB, q: AccountGroupQ) returns (nodes: seq<AccountGroup>)
    ensures HoldJoins(nodes, ScanAccountGroups(db, q))
    ensures fresh(nodes) && forall n :: n in nodes ==>
              n.loaded == q.edges.Loaded() && n.account == null && n.group == null
  {
    var columns := JoinColumns(q.sel.fields, q.edges);
    var found := q.sel.Run(db.accountGroups);
    nodes := [];
    for i := 0 to |found|
      invariant |nodes| == i && forall j :: 0 <= j < i ==> nodes[j].row == ScanAccountGroup(columns, found[j])
      invariant fresh(nodes) && forall n :: n in nodes ==>
                  n.loaded == q.edges.Loaded() && n.account == null && n.group == null
    {
      var node := new AccountGroup(ScanAccountGroup(columns, found[i]), q.edges.Loaded());
      nodes := nodes + [node];
    }
  }

  ghost predicate OwnersShown(db: DB, q: Option<AccountQ>, nodes: seq<AccountGroup>, rows: seq<AccountGroupRow>,
                              S: set<object>)
    requires |nodes| == |rows|
    reads nodes`account, S
  {
    forall i :: 0 <= i < |nodes| ==>
      TargetShows(nodes[i].account, AccountTarget(db, q, AccountKeys(rows), Some(rows[i].accountID)), S)
  }

  ghost predicate JoinedGroupsShown(db: DB, q: Option<LeafQ>, nodes: seq<AccountGroup>, rows: seq<AccountGroupRow>,
                                    S: set<object>)
    requires |nodes| == |rows|
    reads nodes`group, S
  {
    forall i :: 0 <= i < |nodes| ==>
      LeafShows(nodes[i].group, LeafTarget(q, db.groups, GroupKeys(rows), Some(rows[i].groupID)), S)
  }

  method EdgeOwner(db: DB, q: Option<AccountQ>, nodes: seq<AccountGroup>, ghost rows: seq<AccountGroupRow>)
    returns (err: Option<LoadError>, ghost S: set<object>)
    requires WellFormed(db) && HoldJoins(nodes, rows) && forall i :: 0 <= i < |nodes| ==> nodes[i].account == null
    modifies nodes`account
    ensures fresh(S) && err == Outcome(TargetFailure(db, q, AccountKeys(rows)))
    ensures err == None ==> OwnersShown(db, q, nodes, rows, S)
    decreases q, 4
  {
    hide PresentKeys, AccountsFailure, LoadAccounts, Shows, LastWith;
    err, S := None, {};
    if q.Some? {
      err, S := LoadOwner(db, q.value, nodes, rows);
    }
  }

  method EdgeJoinedGroup(db: DB, q: Option<LeafQ>, nodes: seq<AccountGroup>, ghost rows: seq<AccountGroupRow>)
    returns (err: Option<LoadError>, ghost S: set<object>)
    requires HoldJoins(nodes, rows) && forall i :: 0 <= i < |nodes| ==> nodes[i].group == null
    modifies nodes`group
    ensures fresh(S) && err == Outcome(if PresentKeys(GroupKeys(rows)) == [] then None else LeafFailure(q))
    ensures err == None ==> JoinedGroupsShown(db, q, nodes, rows, S)
  {
    hide PresentKeys, LeafNodes, Rejected, LastWith;
    err, S := None, {};
    if q.Some? {
      err, S := LoadJoinedGroup(db, q.value, nodes, rows);
    }
  }

  method LoadJoinEdges(db: DB, edges: AccountGroupEdgesQ, nodes: seq<AccountGroup>, ghost rows: seq<AccountGroupRow>)
    returns (err: Option<LoadError>, ghost S: set<object>)
    requires WellFormed(db) && HoldJoins(nodes, rows) && rows != []
    requires forall i :: 0 <= i < |nodes| ==> nodes[i].account == null && nodes[i].group == null
    modifies nodes`account, nodes`group
    ensures fresh(S) && err == Outcome(JoinEdgesFailure(db, rows, edges))
    ensures err == None ==>
              OwnersShown(db, edges.account, nodes, rows, S) && JoinedGroupsShown(db, edges.group, nodes, rows, S)
    decreases edges, 0
  {
    hide OwnersShown, JoinedGroupsShown, PresentKeys, LeafFailure, TargetFailure;
    ghost var T;
    assert GroupKeys(rows)[0].Some?;
    PresentKeysNonEmpty(GroupKeys(rows));
    err, S := EdgeOwner(db, edges.account, nodes, rows);
    if err.Some? {
      return;
    }
    err, T := EdgeJoinedGroup(db, edges.group, nodes, rows);
    if err.Some? {
      return;
    }
    OwnersShownMore(db, edges.account, nodes, rows, S, S + T);
    JoinedGroupsShownMore(db, edges.group, nodes, rows, T, S + T);
    S := S + T;
  }

  lemma {:induction false} OwnersShownMore(db: DB, q: Option<AccountQ>, nodes: seq<AccountGroup>,
                                           rows: seq<AccountGroupRow>, S: set<object>, T: set<object>)
    requires |nodes| == |rows| && OwnersShown(db, q, nodes, rows, S) && S <= T
    ensures OwnersShown(db, q, nodes, rows, T)
  {
    hide TargetShows, AccountTarget;
    forall i | 0 <= i < |nodes|
      ensures TargetShows(nodes[i].account, AccountTarget(db, q, AccountKeys(rows), Some(rows[i].accountID)), T) {
      TargetShowsMore(nodes[i].account, AccountTarget(db, q, AccountKeys(rows), Some(rows[i].accountID)), S, T);
    }
  }

  lemma {:induction false} JoinedGroupsShownMore(db: DB, q: Option<LeafQ>, nodes: seq<AccountGroup>,
                                                 rows: seq<AccountGroupRow>, S: set<object>, T: set<object>)
    requires |nodes| == |rows| && JoinedGroupsShown(db, q, nodes, rows, S) && S <= T
    ensures JoinedGroupsShown(db, q, nodes, rows, T)
  {
    hide LeafTarget;
  }

  method SqlAllJoins(db: DB, q: AccountGroupQ)
    returns (nodes: seq<AccountGroup>, err: Option<LoadError>, ghost S: set<object>)
    requires WellFormed(db) && !Rejected(ValidJoin(), q.sel.fields)
    ensures fresh(S) && err == Outcome(JoinsFailure(db, q))
    ensures err == None ==> JoinsShow(nodes, LoadAccountGroups(db, q), S)
    decreases q.edges, 1
  {
    hide OwnersShown, JoinedGroupsShown, JoinEdgesFailure, ScanAccountGroups, JoinShows, JoinsShow, LoadAccountGroups;
    nodes := ScanJoins(db, q);
    ghost var rows := ScanAccountGroups(db, q);
    err, S := None, {};
    if |nodes| == 0 {
      NoJoinsToShow(db, q);
      return;
    }
    err, S := LoadJoinEdges(db, q.edges, nodes, rows);
    if err.Some? {
      nodes := [];
      return;
    }
    JoinNodesShow(db, q, nodes, rows, S, S + set n | n in nodes);
    S := S + set n | n in nodes;
  }

  lemma {:induction false} NoJoinsToShow(db: DB, q: AccountGroupQ)
    requires ScanAccountGroups(db, q) == []
    ensures JoinsShow([], LoadAccountGroups(db, q), {})
  {
    hide ScanAccountGroups;
  }

  lemma {:induction false} JoinNodesShow(db: DB, q: AccountGroupQ, nodes: seq<AccountGroup>,
                                         rows: seq<AccountGroupRow>, S: set<object>, T: set<object>)
    requires rows == ScanAccountGroups(db, q) && HoldJoins(nodes, rows)
    requires OwnersShown(db, q.edges.account, nodes, rows, S) && JoinedGroupsShown(db, q.edges.group, nodes, rows, S)
    requires S <= T && forall n :: n in nodes ==> n in T && n.loaded == q.edges.Loaded()
    ensures JoinsShow(nodes, LoadAccountGroups(db, q), T)
  {
    hide ScanAccountGroups, AccountTarget, LeafTarget, TargetShows;
    OwnersShownMore(db, q.edges.account, nodes, rows, S, T);
    JoinedGroupsShownMore(db, q.edges.group, nodes, rows, S, T);
    forall i | 0 <= i < |nodes| ensures JoinShows(nodes[i], EagerSpec.AttachAccountGroups(db, rows, q.edges)[i], T) {
      AttachedJoin(db, rows, q.edges, i);
    }
  }

  lemma {:induction false} AttachedJoin(db: DB, rows: seq<AccountGroupRow>, edges: AccountGroupEdgesQ, i: nat)
    requires i < |rows|
    ensures EagerSpec.AttachAccountGroups(db, rows, edges)[i]
         == AccountGroupTree(
              rows[i], edges.Loaded(),
              AccountTarget(db, edges.account, AccountKeys(rows), Some(rows[i].accountID)),
              LeafTarget(edges.group, db.groups, GroupKeys(rows), Some(rows[i].groupID)))
  {
  }
}
