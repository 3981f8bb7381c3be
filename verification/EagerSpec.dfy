/** Eager loading twice over: as the batched loads compute it, and as a naive load would, one lookup per node. */
module EagerSpec {
  import opened Basics
  import opened AccountEntity
  import opened AccountScan
  import opened Selections
  import opened EagerModel

  // ======== the batched form ========

  // ---- the many-to-many row stream ----

  /** The join of groups with account_groups, group by group: (account id, group). */
  function JoinPairs(groups: seq<LeafRow>, joins: seq<AccountGroupRow>): seq<(int, LeafRow)> {
    if groups == [] then []
    else
      var n := |groups| - 1;
      JoinPairs(groups[..n], joins) + PairsOf(groups[n], joins)
  }

  function PairsOf(g: LeafRow, joins: seq<AccountGroupRow>): seq<(int, LeafRow)> {
    if joins == [] then []
    else
      var n := |joins| - 1;
      if joins[n].groupID == g.id then PairsOf(g, joins[..n]) + [(joins[n].accountID, g)] else PairsOf(g, joins[..n])
  }

  /** A query over groups, asked of joined rows. */
  function OnPairs(sel: Selection<LeafColumn, LeafRow>): Selection<LeafColumn, (int, LeafRow)> {
    Selection(sel.fields,
              seq(|sel.preds|, i requires 0 <= i < |sel.preds| => (p: (int, LeafRow)) => sel.preds[i](p.1)),
              seq(|sel.order|, i requires 0 <= i < |sel.order| => (p: (int, LeafRow)) => sel.order[i](p.1)),
              sel.limit, sel.offset)
  }

  function PairOwnerIn(ids: seq<int>): ((int, LeafRow)) -> bool {
    (p: (int, LeafRow)) => p.0 in ids
  }

  /** The rows loadGroups receives for a batch of accounts. */
  function GroupStream(db: DB, q: LeafQ, ids: seq<int>): seq<(int, LeafRow)> {
    OnPairs(q.sel).Where(PairOwnerIn(ids)).Run(JoinPairs(db.groups, db.accountGroups))
  }

  /** The first row of every group in a stream. */
  function FirstOfEachGroup(stream: seq<(int, LeafRow)>): seq<LeafRow> {
    if stream == [] then []
    else
      var n := |stream| - 1;
      var kept := FirstOfEachGroup(stream[..n]);
      if stream[n].1.id in LeafIDs(kept) then kept else kept + [stream[n].1]
  }

  predicate Joined(stream: seq<(int, LeafRow)>, account: int, group: int) {
    exists i :: 0 <= i < |stream| && stream[i].0 == account && stream[i].1.id == group
  }

  function JoinedTo(stream: seq<(int, LeafRow)>, account: int): LeafRow -> bool {
    (g: LeafRow) => Joined(stream, account, g.id)
  }

  /** What one account receives from a stream: its groups, each once, by first appearance. */
  function GroupsFrom(stream: seq<(int, LeafRow)>, account: int, fields: seq<LeafColumn>): seq<LeafRow> {
    Map((g: LeafRow) => ScanLeaf(fields, g), Filter(FirstOfEachGroup(stream), JoinedTo(stream, account)))
  }

  // ---- one query per edge ----

  function LeafNodes(q: LeafQ, added: LeafRow -> bool, table: seq<LeafRow>): seq<LeafRow> {
    Map((r: LeafRow) => ScanLeaf(q.sel.fields, r), q.sel.Where(added).Run(table))
  }

  function LeafTarget(q: Option<LeafQ>, table: seq<LeafRow>, keys: seq<Option<int>>,
                      key: Option<int>): Option<LeafRow> {
    if q.None? || key.None? then None
    else
      var found := LeafNodes(q.value, LeafIDIn(PresentKeys(keys)), table);
      LastWith(found, LeafIDs(found), key.value)
  }

  function ParentQuery(q: AccountQ, ids: seq<int>): AccountQ {
    q.(sel := q.sel.Where(AccountIDIn(ids)))
  }

  function ChildrenQuery(q: AccountQ, ids: seq<int>): AccountQ {
    q.(sel := q.sel.NeedField(Int64Column(ParentAccountID)).Where(ParentIn(ids)))
  }

  function UsageLogsQuery(q: LeafQ): LeafQ {
    q.(sel := q.sel.NeedField(OwnerID))
  }

  function AccountGroupsQuery(q: AccountGroupQ, ids: seq<int>): AccountGroupQ {
    q.(sel := q.sel.NeedField(AccountIDField).Where(JoinOwnerIn(ids)))
  }

  /** All accounts of a query, with every requested edge loaded in one query each. */
  function LoadAccounts(db: DB, q: AccountQ): (trees: seq<AccountTree>)
    decreases q.edges, 2
  {
    AttachAccounts(db, ScanAccounts(db, q), q.edges)
  }

  function ScanAccounts(db: DB, q: AccountQ): (rows: seq<AccountRow>) {
    var columns := AccountColumns(q.sel.fields, q.edges);
    Map((r: AccountRow) => ScanRow(columns, r), q.sel.Run(db.accounts))
  }

  function AttachAccounts(db: DB, rows: seq<AccountRow>, edges: AccountEdgesQ): (trees: seq<AccountTree>)
    ensures |trees| == |rows|
    decreases edges, 1
  {
    var ids := IDs(rows);
    seq(|rows|, i requires 0 <= i < |rows| =>
      AccountTree(
        rows[i], edges.Loaded(),
        GroupsShare(db, edges.groups, ids, ids[i]),
        LeafTarget(edges.proxy, db.proxies, ProxyKeys(rows), rows[i].proxyID),
        AccountTarget(db, edges.parent, ParentKeys(rows), rows[i].parentAccountID),
        ChildrenShare(db, edges.children, ids, ids[i]),
        UsageLogsShare(db, edges.usageLogs, ids, ids[i]),
        AccountGroupsShare(db, edges.accountGroups, ids, ids[i])))
  }

  function GroupsShare(db: DB, q: Option<LeafQ>, ids: seq<int>, id: int): seq<LeafRow> {
    if q.None? then [] else GroupsFrom(GroupStream(db, q.value, ids), id, q.value.sel.fields)
  }

  function UsageLogsShare(db: DB, q: Option<LeafQ>, ids: seq<int>, id: int): seq<LeafRow> {
    if q.None? then []
    else
      var found := LeafNodes(UsageLogsQuery(q.value), OwnerIn(ids), db.usageLogs);
      Pick(found, LeafOwners(found), id)
  }

  function ChildrenShare(db: DB, q: Option<AccountQ>, ids: seq<int>, id: int): seq<AccountTree>
    decreases q, 3
  {
    if q.None? then []
    else
      var found := LoadAccounts(db, ChildrenQuery(q.value, ids));
      Pick(found, TreeParents(found), Some(id))
  }

  function AccountGroupsShare(db: DB, q: Option<AccountGroupQ>, ids: seq<int>, id: int): seq<AccountGroupTree>
    decreases q, 3
  {
    if q.None? then []
    else
      var found := LoadAccountGroups(db, AccountGroupsQuery(q.value, ids));
      Pick(found, JoinOwners(found), id)
  }

  /** The account a foreign key points to, out of one query for all the keys. */
  function AccountTarget(db: DB, q: Option<AccountQ>, keys: seq<Option<int>>, key: Option<int>): Option<AccountTree>
    decreases q, 3
  {
    if q.None? || key.None? then None
    else
      var found := LoadAccounts(db, ParentQuery(q.value, PresentKeys(keys)));
      LastWith(found, TreeIDs(found), key.value)
  }

  function ScanAccountGroups(db: DB, q: AccountGroupQ): seq<AccountGroupRow> {
    var columns := JoinColumns(q.sel.fields, q.edges);
    Map((r: AccountGroupRow) => ScanAccountGroup(columns, r), q.sel.Run(db.accountGroups))
  }

  function LoadAccountGroups(db: DB, q: AccountGroupQ): (trees: seq<AccountGroupTree>)
    decreases q.edges, 2
  {
    AttachAccountGroups(db, ScanAccountGroups(db, q), q.edges)
  }

  function AttachAccountGroups(db: DB, rows: seq<AccountGroupRow>,
                               edges: AccountGroupEdgesQ): (trees: seq<AccountGroupTree>)
    ensures |trees| == |rows|
    decreases edges, 1
  {
    seq(|rows|, i requires 0 <= i < |rows| =>
      AccountGroupTree(
        rows[i], edges.Loaded(),
        AccountTarget(db, edges.account, AccountKeys(rows), Some(rows[i].accountID)),
        LeafTarget(edges.group, db.groups, GroupKeys(rows), Some(rows[i].groupID))))
  }
}
