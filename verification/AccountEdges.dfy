/** What the edge specs of a new account amount to for the database: the join rows they insert, the rows of other
    tables they claim, and the foreign keys they write into the row itself. */
module AccountEdges {
  import opened EagerModel
  import opened AccountCreate
  import opened AccountSpec

  // ======== reading edge specs ========

  /** The value a join field was given, or zero. */
  function FieldValue(fields: seq<(AccountGroupColumn, int)>, c: AccountGroupColumn): int {
    if fields == [] then 0
    else if fields[|fields| - 1].0 == c then fields[|fields| - 1].1
    else FieldValue(fields[..|fields| - 1], c)
  }

  predicate WritesJoins(e: EdgeSpec) {
    e.rel == M2M && !e.inverse && e.table == "account_groups" && e.columns == ["account_id", "group_id"]
  }

  function JoinRowsOf(e: EdgeSpec, account: int): (rows: seq<AccountGroupRow>)
    ensures |rows| == |e.nodes|
  {
    seq(|e.nodes|, i requires 0 <= i < |e.nodes| =>
      AccountGroupRow(account, e.nodes[i], FieldValue(e.fields, PriorityField), FieldValue(e.fields, CreatedAtField)))
  }

  /** The rows a many-to-many spec inserts into the join table for the new account. */
  function JoinRows(edges: seq<EdgeSpec>, account: int): seq<AccountGroupRow> {
    if edges == [] then []
    else
      var e := edges[|edges| - 1];
      JoinRows(edges[..|edges| - 1], account) + (if WritesJoins(e) then JoinRowsOf(e, account) else [])
  }

  /** The rows of another table that get the new account as the value of a column. */
  function Claimed(edges: seq<EdgeSpec>, table: string, column: string): seq<int> {
    if edges == [] then []
    else
      var e := edges[|edges| - 1];
      Claimed(edges[..|edges| - 1], table, column)
      + (if e.rel == O2M && !e.inverse && e.table == table && e.columns == [column] then e.nodes else [])
  }

  // ======== what createSpec writes ========

  lemma {:induction false} JoinRowsSnoc(edges: seq<EdgeSpec>, e: EdgeSpec, account: int)
    ensures JoinRows(edges + [e], account)
            == JoinRows(edges, account) + (if WritesJoins(e) then JoinRowsOf(e, account) else [])
  {
    assert (edges + [e])[..|edges|] == edges;
  }

  lemma {:induction false} JoinRowsAppend(edges: seq<EdgeSpec>, more: seq<EdgeSpec>, account: int)
    requires |more| <= 1 && forall e :: e in more ==> e.rel != M2M
    ensures JoinRows(edges + more, account) == JoinRows(edges, account)
  {
    if more == [] {
      assert edges + more == edges;
    } else {
      assert more == [more[0]] && more[0] in more;
      JoinRowsSnoc(edges, more[0], account);
    }
  }

  /** The new account joins exactly the groups that were added, in their order, with the default priority and time of
      a join row. */
  lemma {:induction false} JoinsWritten(d: Draft, rt: Runtime, account: int)
    ensures var rows := JoinRows(SpecEdges(d, rt), account);
            && |rows| == |d.groups|
            && forall i :: 0 <= i < |d.groups| ==>
                 rows[i] == AccountGroupRow(account, d.groups[i], rt.joinPriority, rt.joinCreatedAt)
  {
    hide JoinRows, JoinRowsOf, WritesJoins, GroupsEdge, ProxyEdge, ParentEdge, ChildrenEdge, UsageLogsEdge;
    EdgeKinds(d, rt);
    var groups := if d.groups != [] then [GroupsEdge(d, rt)] else [];
    var proxy := if d.proxy.Some? then [ProxyEdge(d.proxy.value)] else [];
    var parent := if d.parent.Some? then [ParentEdge(d.parent.value)] else [];
    var children := if d.children != [] then [ChildrenEdge(d.children)] else [];
    var usageLogs := if d.usageLogs != [] then [UsageLogsEdge(d.usageLogs)] else [];
    JoinRowsAppend(groups + proxy + parent + children, usageLogs, account);
    JoinRowsAppend(groups + proxy + parent, children, account);
    JoinRowsAppend(groups + proxy, parent, account);
    JoinRowsAppend(groups, proxy, account);
    NoJoinRows(account);
    if d.groups != [] {
      JoinRowsSnoc([], GroupsEdge(d, rt), account);
      assert [] + [GroupsEdge(d, rt)] == groups;
      GroupsWritten(d, rt, account);
    }
  }

  lemma {:induction false} NoJoinRows(account: int)
    ensures JoinRows([], account) == []
  {
  }

  lemma {:induction false} GroupsWritten(d: Draft, rt: Runtime, account: int)
    ensures WritesJoins(GroupsEdge(d, rt)) && |JoinRowsOf(GroupsEdge(d, rt), account)| == |d.groups|
    ensures forall i :: 0 <= i < |d.groups| ==>
              JoinRowsOf(GroupsEdge(d, rt), account)[i]
              == AccountGroupRow(account, d.groups[i], rt.joinPriority, rt.joinCreatedAt)
  {
    var fields := GroupsEdge(d, rt).fields;
    assert fields[..1] == [(PriorityField, rt.joinPriority)];
    assert FieldValue(fields, CreatedAtField) == rt.joinCreatedAt;
    assert FieldValue(fields, PriorityField) == FieldValue(fields[..1], PriorityField) == rt.joinPriority;
  }

  lemma {:induction false} ClaimedAppend(edges: seq<EdgeSpec>, more: seq<EdgeSpec>, table: string, column: string)
    requires |more| <= 1
    ensures Claimed(edges + more, table, column)
            == Claimed(edges, table, column) + Claimed(more, table, column)
  {
    if more == [] {
      assert edges + more == edges;
    } else {
      assert (edges + more)[..|edges|] == edges && more[..0] == [];
    }
  }

  /** The children and the usage logs that were added are claimed, and no other rows. */
  lemma {:induction false} RowsClaimed(d: Draft, rt: Runtime)
    ensures Claimed(SpecEdges(d, rt), "accounts", "parent_account_id") == d.children
    ensures Claimed(SpecEdges(d, rt), "usage_logs", "account_id") == d.usageLogs
  {
    hide SpecEdges;
    assert "accounts"[0] != "usage_logs"[0];
    ClaimedIn(d, rt, "accounts", "parent_account_id");
    ClaimedIn(d, rt, "usage_logs", "account_id");
  }

  lemma {:induction false} ClaimedIn(d: Draft, rt: Runtime, table: string, column: string)
    ensures Claimed(SpecEdges(d, rt), table, column)
            == (if table == "accounts" && column == "parent_account_id" then d.children else [])
               + (if table == "usage_logs" && column == "account_id" then d.usageLogs else [])
  {
    hide Claimed, GroupsEdge, ProxyEdge, ParentEdge, ChildrenEdge, UsageLogsEdge;
    var groups := if d.groups != [] then [GroupsEdge(d, rt)] else [];
    var proxy := if d.proxy.Some? then [ProxyEdge(d.proxy.value)] else [];
    var parent := if d.parent.Some? then [ParentEdge(d.parent.value)] else [];
    var children := if d.children != [] then [ChildrenEdge(d.children)] else [];
    var usageLogs := if d.usageLogs != [] then [UsageLogsEdge(d.usageLogs)] else [];
    ClaimedAppend(groups + proxy + parent + children, usageLogs, table, column);
    ClaimedAppend(groups + proxy + parent, children, table, column);
    ClaimedAppend(groups + proxy, parent, table, column);
    ClaimedAppend(groups, proxy, table, column);
    ClaimedNone(d, rt, table, column);
    ClaimedRows(d, table, column);
  }

  lemma {:induction false} ClaimedNone(d: Draft, rt: Runtime, table: string, column: string)
    ensures Claimed([], table, column) == [] && Claimed([GroupsEdge(d, rt)], table, column) == []
    ensures d.proxy.Some? ==> Claimed([ProxyEdge(d.proxy.value)], table, column) == []
    ensures d.parent.Some? ==> Claimed([ParentEdge(d.parent.value)], table, column) == []
  {
  }

  lemma {:induction false} ClaimedRows(d: Draft, table: string, column: string)
    ensures Claimed([ChildrenEdge(d.children)], table, column)
            == if table == "accounts" && column == "parent_account_id" then d.children else []
    ensures Claimed([UsageLogsEdge(d.usageLogs)], table, column)
            == if table == "usage_logs" && column == "account_id" then d.usageLogs else []
  {
    assert [ChildrenEdge(d.children)][..0] == [] && [UsageLogsEdge(d.usageLogs)][..0] == [];
    assert Claimed([], table, column) == [];
    assert [column] == ["parent_account_id"] <==> column == "parent_account_id" by {
      assert [column][0] == column;
    }
    assert [column] == ["account_id"] <==> column == "account_id" by {
      assert [column][0] == column;
    }
  }

  /** The foreign keys are written under the names of their columns. */
  lemma {:induction false} KeysWritten(d: Draft, rt: Runtime)
    ensures ForeignKey(SpecEdges(d, rt), "proxy_id") == d.proxy
    ensures ForeignKey(SpecEdges(d, rt), "parent_account_id") == d.parent
  {
    ForeignKeys(d, rt);
  }

  /** There is one spec for every edge with ids, and none for the others, in this order. */
  lemma {:induction false} OneSpecEach(d: Draft, rt: Runtime)
    ensures var edges := SpecEdges(d, rt);
            && |edges| == (if d.groups != [] then 1 else 0) + (if d.proxy.Some? then 1 else 0)
                          + (if d.parent.Some? then 1 else 0) + (if d.children != [] then 1 else 0)
                          + (if d.usageLogs != [] then 1 else 0)
            && (forall e :: e in edges ==> e.nodes != [])
            && ((exists e :: e in edges && e.rel == M2M) <==> d.groups != [])
            && (d.groups != [] ==> edges[0].rel == M2M)
  {
    if d.groups != [] {
      assert SpecEdges(d, rt)[0] == GroupsEdge(d, rt);
    }
  }
}
