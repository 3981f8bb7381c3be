/** The reference: every edge of every node looked up by a query of its own, and the proof that the batched
    loads return the same trees. */
module EagerNaive {
  import opened Basics
  import opened AccountEntity
  import opened AccountScan
  import opened Selections
  import opened EagerModel
  import opened EagerSpec

  // ======== the naive form ========

  function LastOf<T>(xs: seq<T>): Option<T> {
    if xs == [] then None else Some(xs[|xs| - 1])
  }

  predicate IsMember(joins: seq<AccountGroupRow>, account: int, group: int) {
    exists j :: 0 <= j < |joins| && joins[j].accountID == account && joins[j].groupID == group
  }

  function GroupOf(joins: seq<AccountGroupRow>, account: int): LeafRow -> bool {
    (g: LeafRow) => IsMember(joins, account, g.id)
  }

  function NaiveAccounts(db: DB, q: AccountQ): seq<AccountTree>
    decreases q.edges, 2
  {
    var rows := ScanAccounts(db, q);
    seq(|rows|, i requires 0 <= i < |rows| => NaiveAccount(db, q.edges, rows[i]))
  }

  /** One account with its edges, each found by asking for this account alone. */
  function NaiveAccount(db: DB, edges: AccountEdgesQ, row: AccountRow): AccountTree
    decreases edges, 1
  {
    AccountTree(
      row, edges.Loaded(),
      NaiveGroups(db, edges.groups, row.id),
      NaiveTarget(edges.proxy, db.proxies, row.proxyID),
      NaiveAccountTarget(db, edges.parent, row.parentAccountID),
      NaiveChildren(db, edges.children, row.id),
      NaiveUsageLogs(db, edges.usageLogs, row.id),
      NaiveJoins(db, edges.accountGroups, row.id))
  }

  function NaiveAccountTarget(db: DB, q: Option<AccountQ>, key: Option<int>): Option<AccountTree>
    decreases q, 3
  {
    if q.None? || key.None? then None else LastOf(NaiveAccounts(db, ParentQuery(q.value, [key.value])))
  }

  function NaiveChildren(db: DB, q: Option<AccountQ>, account: int): seq<AccountTree>
    decreases q, 3
  {
    if q.None? then [] else NaiveAccounts(db, ChildrenQuery(q.value, [account]))
  }

  function NaiveUsageLogs(db: DB, q: Option<LeafQ>, account: int): seq<LeafRow> {
    if q.None? then [] else LeafNodes(UsageLogsQuery(q.value), OwnerIn([account]), db.usageLogs)
  }

  function NaiveJoins(db: DB, q: Option<AccountGroupQ>, account: int): seq<AccountGroupTree>
    decreases q, 3
  {
    if q.None? then [] else NaiveAccountGroups(db, AccountGroupsQuery(q.value, [account]))
  }

  function NaiveGroups(db: DB, q: Option<LeafQ>, account: int): seq<LeafRow> {
    if q.None? then [] else LeafNodes(q.value, GroupOf(db.accountGroups, account), db.groups)
  }

  function NaiveTarget(q: Option<LeafQ>, table: seq<LeafRow>, key: Option<int>): Option<LeafRow> {
    if q.None? || key.None? then None else LastOf(LeafNodes(q.value, LeafIDIn([key.value]), table))
  }

  function NaiveAccountGroups(db: DB, q: AccountGroupQ): seq<AccountGroupTree>
    decreases q.edges, 2
  {
    var rows := ScanAccountGroups(db, q);
    seq(|rows|, i requires 0 <= i < |rows| => NaiveAccountGroup(db, q.edges, rows[i]))
  }

  function NaiveAccountGroup(db: DB, edges: AccountGroupEdgesQ, row: AccountGroupRow): AccountGroupTree
    decreases edges, 1
  {
    AccountGroupTree(
      row, edges.Loaded(),
      NaiveAccountTarget(db, edges.account, Some(row.accountID)),
      NaiveTarget(edges.group, db.groups, Some(row.groupID)))
  }

  // ======== picking from a batch is asking for one key ========

  lemma {:induction false} PickIsFilter<X, K, R(!new)>( raw: seq<R>, xs: seq<X>, ks: seq<K>, k: K, node: R -> X,
                                                       keep: R -> bool)
    requires |raw| == |xs| == |ks|
    requires forall j :: 0 <= j < |raw| ==> xs[j] == node(raw[j]) && (ks[j] == k <==> keep(raw[j]))
    ensures Pick(xs, ks, k) == Map(node, Filter(raw, keep))
  {
    if raw != [] {
      var n := |raw| - 1;
      PickIsFilter(raw[..n], xs[..n], ks[..n], k, node, keep);
      if keep(raw[n]) {
        var kept := Filter(raw[..n], keep);
        assert Map(node, kept + [raw[n]]) == Map(node, kept) + [node(raw[n])];
      }
    }
  }

  lemma {:induction false} LastWithIsLastPicked<X, K>(xs: seq<X>, ks: seq<K>, k: K)
    requires |xs| == |ks|
    ensures LastWith(xs, ks, k) == LastOf(Pick(xs, ks, k))
  {
    if xs != [] {
      var n := |xs| - 1;
      LastWithIsLastPicked(xs[..n], ks[..n], k);
    }
  }

  lemma {:induction false} PresentKeysComplete(keys: seq<Option<int>>, key: int)
    ensures key in PresentKeys(keys) <==> Some(key) in keys
  {
    if keys != [] {
      var n := |keys| - 1;
      PresentKeysComplete(keys[..n], key);
      assert keys == keys[..n] + [keys[n]];
    }
  }

  /** A leaf node picked from a batch is the answer to the query for its key alone. */
  lemma {:induction false} LeafPicked<K>(q: LeafQ, table: seq<LeafRow>, batch: LeafRow -> bool, one: LeafRow -> bool,
                                         ks: seq<K>, k: K)
    requires q.sel.Unlimited()
    requires forall r :: r in table && one(r) ==> batch(r)
    requires |ks| == |LeafNodes(q, batch, table)|
    requires forall j :: 0 <= j < |ks| ==> (ks[j] == k <==> one(q.sel.Where(batch).Run(table)[j]))
    ensures Pick(LeafNodes(q, batch, table), ks, k) == LeafNodes(q, one, table)
  {
    var node := (r: LeafRow) => ScanLeaf(q.sel.fields, r);
    var raw := q.sel.Where(batch).Run(table);
    PickIsFilter(raw, LeafNodes(q, batch, table), ks, k, node, one);
    RunNarrows(q.sel, table, batch, one);
    assert Map(node, Filter(raw, one)) == LeafNodes(q, one, table);
  }

  lemma {:induction false} LeafTargetIsNaive(q: Option<LeafQ>, table: seq<LeafRow>, keys: seq<Option<int>>,
                                             key: Option<int>)
    requires q.Some? ==> q.value.sel.Unlimited()
    requires key in keys
    ensures LeafTarget(q, table, keys, key) == NaiveTarget(q, table, key)
  {
    if q.Some? && key.Some? {
      var batch, one := LeafIDIn(PresentKeys(keys)), LeafIDIn([key.value]);
      var found := LeafNodes(q.value, batch, table);
      PresentKeysComplete(keys, key.value);
      LeafPicked(q.value, table, batch, one, LeafIDs(found), key.value);
      LastWithIsLastPicked(found, LeafIDs(found), key.value);
    }
  }

  // ---- columns: the keys the joins read are always among the selected columns ----

  lemma {:induction false} ColumnsHaveKeys(fields: seq<Column>, edges: AccountEdgesQ)
    ensures Int64Column(ID) in AccountColumns(fields, edges)
    ensures edges.proxy.Some? ==> Int64Column(ProxyID) in AccountColumns(fields, edges)
    ensures edges.parent.Some? || Int64Column(ParentAccountID) in fields
        ==> Int64Column(ParentAccountID) in AccountColumns(fields, edges)
    ensures fields == [] ==> Int64Column(ParentAccountID) in AccountColumns(fields, edges)
  {
    if fields == [] {
      var i := ColumnPosition(Int64Column(ID));
      var j := ColumnPosition(Int64Column(ProxyID));
      var k := ColumnPosition(Int64Column(ParentAccountID));
    } else {
      FilterMember(fields, (c: Column) => c != Int64Column(ID), Int64Column(ParentAccountID));
    }
  }

  /** Whatever the caller selects, the id is the first selected column, and is selected once. */
  lemma {:induction false} IdFirstOnce(fields: seq<Column>, edges: AccountEdgesQ)
    ensures AccountColumns(fields, edges)[0] == Int64Column(ID)
    ensures Int64Column(ID) !in AccountColumns(fields, edges)[1..]
  {
    FilterMember(fields, (c: Column) => c != Int64Column(ID), Int64Column(ID));
    OnlyOneID();
    hide ALL_COLUMNS;
  }

  lemma {:induction false} OnlyOneID()
    ensures |ALL_COLUMNS| > 0 && ALL_COLUMNS[0] == Int64Column(ID) && Int64Column(ID) !in ALL_COLUMNS[1..]
  {
  }

  lemma {:induction false} ScannedID(columns: seq<Column>, row: AccountRow)
    requires Int64Column(ID) in columns
    ensures ScanRow(columns, row).id == row.id
  {
    ScanRowCell(columns, row, Int64Column(ID));
  }

  lemma {:induction false} ScannedParent(columns: seq<Column>, row: AccountRow)
    requires Int64Column(ParentAccountID) in columns
    ensures ScanRow(columns, row).parentAccountID == row.parentAccountID
  {
    ScanRowCell(columns, row, Int64Column(ParentAccountID));
  }

  // ======== the batched form refines the naive one ========

  function NodeOf(db: DB, columns: seq<Column>, edges: AccountEdgesQ): AccountRow -> AccountTree {
    (r: AccountRow) => NaiveAccount(db, edges, ScanRow(columns, r))
  }

  lemma {:induction false} NaiveAccountsAsMap(db: DB, q: AccountQ)
    ensures NaiveAccounts(db, q)
         == Map(NodeOf(db, AccountColumns(q.sel.fields, q.edges), q.edges), q.sel.Run(db.accounts))
  {
  }

  function JoinNodeOf(db: DB, columns: seq<AccountGroupColumn>,
                      edges: AccountGroupEdgesQ): AccountGroupRow -> AccountGroupTree {
    (r: AccountGroupRow) => NaiveAccountGroup(db, edges, ScanAccountGroup(columns, r))
  }

  lemma {:induction false} NaiveAccountGroupsAsMap(db: DB, q: AccountGroupQ)
    ensures NaiveAccountGroups(db, q)
         == Map(JoinNodeOf(db, JoinColumns(q.sel.fields, q.edges), q.edges), q.sel.Run(db.accountGroups))
  {
  }

  /** Naive nodes picked from a batch are the naive answer to the query for their key alone. */
  lemma {:induction false} NaivePicked<K>(db: DB, b: AccountQ, o: AccountQ, sel: Selection<Column, AccountRow>,
                                          batch: AccountRow -> bool, one: AccountRow -> bool, ks: seq<K>, k: K)
    requires sel.Unlimited()
    requires b.sel == sel.Where(batch) && o.sel == sel.Where(one) && b.edges == o.edges
    requires forall r :: r in db.accounts && one(r) ==> batch(r)
    requires |ks| == |NaiveAccounts(db, b)|
    requires forall j :: 0 <= j < |ks| ==> (ks[j] == k <==> one(b.sel.Run(db.accounts)[j]))
    ensures Pick(NaiveAccounts(db, b), ks, k) == NaiveAccounts(db, o)
  {
    var columns := AccountColumns(sel.fields, b.edges);
    var raw := b.sel.Run(db.accounts);
    NaiveAccountsAsMap(db, b);
    NaiveAccountsAsMap(db, o);
    PickIsFilter(raw, NaiveAccounts(db, b), ks, k, NodeOf(db, columns, b.edges), one);
    RunNarrows(sel, db.accounts, batch, one);
  }

  lemma {:induction false} ChildrenPicked(db: DB, q: AccountQ, ids: seq<int>, id: int)
    requires q.sel.Unlimited() && id in ids
    ensures var found := NaiveAccounts(db, ChildrenQuery(q, ids));
            Pick(found, TreeParents(found), Some(id)) == NaiveAccounts(db, ChildrenQuery(q, [id]))
  {
    var b, o := ChildrenQuery(q, ids), ChildrenQuery(q, [id]);
    var found := NaiveAccounts(db, b);
    var ks := TreeParents(found);
    var raw := b.sel.Run(db.accounts);
    ColumnsHaveKeys(b.sel.fields, b.edges);
    forall j | 0 <= j < |ks| ensures ks[j] == Some(id) <==> ParentIn([id])(raw[j]) {
      ScannedParent(AccountColumns(b.sel.fields, b.edges), raw[j]);
    }
    NaivePicked(db, b, o, q.sel.NeedField(Int64Column(ParentAccountID)), ParentIn(ids), ParentIn([id]), ks, Some(id));
  }

  lemma {:induction false} TargetPicked(db: DB, q: AccountQ, ids: seq<int>, id: int)
    requires q.sel.Unlimited() && id in ids
    ensures var found := NaiveAccounts(db, ParentQuery(q, ids));
            LastWith(found, TreeIDs(found), id) == LastOf(NaiveAccounts(db, ParentQuery(q, [id])))
  {
    var b, o := ParentQuery(q, ids), ParentQuery(q, [id]);
    var found := NaiveAccounts(db, b);
    var ks := TreeIDs(found);
    var raw := b.sel.Run(db.accounts);
    ColumnsHaveKeys(b.sel.fields, b.edges);
    forall j | 0 <= j < |ks| ensures ks[j] == id <==> AccountIDIn([id])(raw[j]) {
      ScannedID(AccountColumns(b.sel.fields, b.edges), raw[j]);
    }
    NaivePicked(db, b, o, q.sel, AccountIDIn(ids), AccountIDIn([id]), ks, id);
    LastWithIsLastPicked(found, ks, id);
  }

  lemma {:induction false} AccountGroupsPicked(db: DB, q: AccountGroupQ, ids: seq<int>, id: int)
    requires q.sel.Unlimited() && id in ids
    ensures var found := NaiveAccountGroups(db, AccountGroupsQuery(q, ids));
            Pick(found, JoinOwners(found), id) == NaiveAccountGroups(db, AccountGroupsQuery(q, [id]))
  {
    var b, o := AccountGroupsQuery(q, ids), AccountGroupsQuery(q, [id]);
    var found := NaiveAccountGroups(db, b);
    var raw := b.sel.Run(db.accountGroups);
    var columns := JoinColumns(b.sel.fields, b.edges);
    NaiveAccountGroupsAsMap(db, b);
    NaiveAccountGroupsAsMap(db, o);
    PickIsFilter(raw, found, JoinOwners(found), id, JoinNodeOf(db, columns, b.edges), JoinOwnerIn([id]));
    RunNarrows(q.sel.NeedField(AccountIDField), db.accountGroups, JoinOwnerIn(ids), JoinOwnerIn([id]));
  }
}
