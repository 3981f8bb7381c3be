/** When eager loading fails: the batched load exactly when some naive lookup would. A query is run only for nodes
    that exist and keys that are set, so an invalid projection deep in the tree matters only if it is reached. */
module EagerFailures {
  import opened Basics
  import opened AccountEntity
  import opened AccountScan
  import opened Selections
  import opened EagerModel
  import opened EagerSpec
  import opened EagerNaive

  // ======== failure of the batched loads ========

  function Valid(): Column -> bool {
    (c: Column) => ValidColumn(c)
  }

  function ValidJoin(): AccountGroupColumn -> bool {
    (c: AccountGroupColumn) => ValidAccountGroupColumn(c)
  }

  function ValidLeaf(): LeafColumn -> bool {
    (c: LeafColumn) => ValidLeafColumn(c)
  }

  /** A column a projection names, whichever table it is of. */
  datatype Field = AccountField(account: Column) | JoinField(join: AccountGroupColumn) | LeafField(leaf: LeafColumn)

  function OfAccount(): Column -> Field {
    (c: Column) => AccountField(c)
  }

  function OfJoin(): AccountGroupColumn -> Field {
    (c: AccountGroupColumn) => JoinField(c)
  }

  function OfLeaf(): LeafColumn -> Field {
    (c: LeafColumn) => LeafField(c)
  }

  predicate Rejected<C>(valid: C -> bool, fields: seq<C>) {
    exists i :: 0 <= i < |fields| && !valid(fields[i])
  }

  /** prepareQuery rejects a projection with an unknown column, and names the first one. */
  function Rejection<C>(valid: C -> bool, field: C -> Field, fields: seq<C>): (f: Option<Field>)
    ensures f.Some? <==> Rejected(valid, fields)
    ensures f.Some? ==>
              exists i :: 0 <= i < |fields| && !valid(fields[i]) && f == Some(field(fields[i]))
                          && forall j :: 0 <= j < i ==> valid(fields[j])
  {
    if fields == [] then None
    else
      var n := |fields| - 1;
      var before := Rejection(valid, field, fields[..n]);
      assert forall j :: 0 <= j < n ==> fields[..n][j] == fields[j];
      if before.Some? then before else if valid(fields[n]) then None else Some(field(fields[n]))
  }

  lemma {:induction false} RejectionIsFirst<C>(valid: C -> bool, field: C -> Field, fields: seq<C>, i: nat)
    requires i < |fields| && !valid(fields[i]) && forall j :: 0 <= j < i ==> valid(fields[j])
    ensures Rejection(valid, field, fields) == Some(field(fields[i]))
  {
  }

  lemma {:induction false} RejectionSnoc<C>(valid: C -> bool, field: C -> Field, fields: seq<C>, c: C)
    requires valid(c)
    ensures Rejection(valid, field, fields + [c]) == Rejection(valid, field, fields)
  {
    assert (fields + [c])[..|fields|] == fields;
  }

  /** The first of two failures ends the load. */
  function FirstOf(a: Option<Field>, b: Option<Field>): Option<Field> {
    if a.Some? then a else b
  }

  function LeafFailure(q: Option<LeafQ>): Option<Field> {
    if q.None? then None else Rejection(ValidLeaf(), OfLeaf(), q.value.sel.fields)
  }

  predicate LeafFails(q: Option<LeafQ>) {
    LeafFailure(q).Some?
  }

  /** Where loading a query fails first: at its own projection, or at an edge. */
  function AccountsFailure(db: DB, q: AccountQ): Option<Field>
    decreases q.edges, 2
  {
    FirstOf(Rejection(Valid(), OfAccount(), q.sel.fields),
            if ScanAccounts(db, q) == [] then None else EdgesFailure(db, ScanAccounts(db, q), q.edges))
  }

  predicate AccountsFail(db: DB, q: AccountQ) {
    AccountsFailure(db, q).Some?
  }

  /** The edges are loaded in this order. */
  function EdgesFailure(db: DB, rows: seq<AccountRow>, edges: AccountEdgesQ): Option<Field>
    decreases edges, 1
  {
    FirstOf(FirstEdgesFailure(db, rows, edges), LastEdgesFailure(db, rows, edges))
  }

  function FirstEdgesFailure(db: DB, rows: seq<AccountRow>, edges: AccountEdgesQ): Option<Field>
    decreases edges, 0
  {
    FirstOf(LeafFailure(edges.groups),
            FirstOf(if PresentKeys(ProxyKeys(rows)) == [] then None else LeafFailure(edges.proxy),
                    TargetFailure(db, edges.parent, ParentKeys(rows))))
  }

  function LastEdgesFailure(db: DB, rows: seq<AccountRow>, edges: AccountEdgesQ): Option<Field>
    decreases edges, 0
  {
    FirstOf(ChildrenFailure(db, edges.children, IDs(rows)),
            FirstOf(LeafFailure(edges.usageLogs), AccountGroupsFailure(db, edges.accountGroups, IDs(rows))))
  }

  predicate EdgesFail(db: DB, rows: seq<AccountRow>, edges: AccountEdgesQ) {
    EdgesFailure(db, rows, edges).Some?
  }

  function TargetFailure(db: DB, q: Option<AccountQ>, keys: seq<Option<int>>): Option<Field>
    decreases q, 3
  {
    if q.None? || PresentKeys(keys) == [] then None
    else AccountsFailure(db, ParentQuery(q.value, PresentKeys(keys)))
  }

  predicate TargetFails(db: DB, q: Option<AccountQ>, keys: seq<Option<int>>) {
    TargetFailure(db, q, keys).Some?
  }

  function ChildrenFailure(db: DB, q: Option<AccountQ>, ids: seq<int>): Option<Field>
    decreases q, 3
  {
    if q.None? then None else AccountsFailure(db, ChildrenQuery(q.value, ids))
  }

  predicate ChildrenFail(db: DB, q: Option<AccountQ>, ids: seq<int>) {
    ChildrenFailure(db, q, ids).Some?
  }

  function AccountGroupsFailure(db: DB, q: Option<AccountGroupQ>, ids: seq<int>): Option<Field>
    decreases q, 3
  {
    if q.None? then None else JoinsFailure(db, AccountGroupsQuery(q.value, ids))
  }

  predicate AccountGroupsFail(db: DB, q: Option<AccountGroupQ>, ids: seq<int>) {
    AccountGroupsFailure(db, q, ids).Some?
  }

  function JoinsFailure(db: DB, q: AccountGroupQ): Option<Field>
    decreases q.edges, 2
  {
    var rows := ScanAccountGroups(db, q);
    FirstOf(Rejection(ValidJoin(), OfJoin(), q.sel.fields),
            if rows == [] then None else JoinEdgesFailure(db, rows, q.edges))
  }

  predicate JoinsFail(db: DB, q: AccountGroupQ) {
    JoinsFailure(db, q).Some?
  }

  function JoinEdgesFailure(db: DB, rows: seq<AccountGroupRow>, edges: AccountGroupEdgesQ): Option<Field>
    decreases edges, 1
  {
    FirstOf(TargetFailure(db, edges.account, AccountKeys(rows)), LeafFailure(edges.group))
  }

  // ======== failure of the naive loads ========

  predicate NaiveFails(db: DB, q: AccountQ)
    decreases q.edges, 2
  {
    var columns := AccountColumns(q.sel.fields, q.edges);
    Rejected(Valid(), q.sel.fields)
    || exists r :: r in q.sel.Run(db.accounts) && NodeFails(db, q.edges, ScanRow(columns, r))
  }

  predicate NodeFails(db: DB, edges: AccountEdgesQ, row: AccountRow)
    decreases edges, 1
  {
    || LeafFails(edges.groups)
    || (row.proxyID.Some? && LeafFails(edges.proxy))
    || NaiveTargetFails(db, edges.parent, row.parentAccountID)
    || NaiveChildrenFail(db, edges.children, row.id)
    || LeafFails(edges.usageLogs)
    || NaiveAccountGroupsFail(db, edges.accountGroups, row.id)
  }

  predicate NaiveTargetFails(db: DB, q: Option<AccountQ>, key: Option<int>)
    decreases q, 3
  {
    q.Some? && key.Some? && NaiveFails(db, ParentQuery(q.value, [key.value]))
  }

  predicate NaiveChildrenFail(db: DB, q: Option<AccountQ>, id: int)
    decreases q, 3
  {
    q.Some? && NaiveFails(db, ChildrenQuery(q.value, [id]))
  }

  predicate NaiveAccountGroupsFail(db: DB, q: Option<AccountGroupQ>, id: int)
    decreases q, 3
  {
    q.Some? && NaiveJoinsFail(db, AccountGroupsQuery(q.value, [id]))
  }

  predicate NaiveJoinsFail(db: DB, q: AccountGroupQ)
    decreases q.edges, 2
  {
    var columns := JoinColumns(q.sel.fields, q.edges);
    Rejected(ValidJoin(), q.sel.fields)
    || exists r :: r in q.sel.Run(db.accountGroups) && JoinNodeFails(db, q.edges, ScanAccountGroup(columns, r))
  }

  predicate JoinNodeFails(db: DB, edges: AccountGroupEdgesQ, row: AccountGroupRow)
    decreases edges, 1
  {
    NaiveTargetFails(db, edges.account, Some(row.accountID)) || LeafFails(edges.group)
  }

  // ======== both fail together ========

  ghost predicate AnyBad<R>(found: seq<R>, bad: R -> bool) {
    exists i :: 0 <= i < |found| && bad(found[i])
  }

  /** Narrowing an unlimited query keeps exactly the rows that meet the narrower predicate. */
  lemma {:induction false} NarrowedMember<C, R(!new)>(sel: Selection<C, R>, table: seq<R>, batch: R -> bool,
                                                      one: R -> bool, r: R)
    requires sel.Unlimited()
    requires forall r :: one(r) ==> batch(r)
    ensures r in sel.Where(one).Run(table) <==> r in sel.Where(batch).Run(table) && one(r)
  {
    RunNarrows(sel, table, batch, one);
    FilterMember(sel.Where(batch).Run(table), one, r);
  }

  lemma {:induction false} BadRow<C, R(!new)>(sel: Selection<C, R>, table: seq<R>, batch: R -> bool,
                                              bad: R -> bool) returns (r: R)
    requires AnyBad(sel.Where(batch).Run(table), bad)
    ensures r in sel.Where(batch).Run(table) && batch(r) && bad(r)
  {
    var found := sel.Where(batch).Run(table);
    var i :| 0 <= i < |found| && bad(found[i]);
    r := found[i];
    RunMember(sel.Where(batch), table, r);
    WhereHolds(sel, batch, r);
  }

  lemma {:induction false} BadIsShared<C, R(!new)>(sel: Selection<C, R>, table: seq<R>, batch: R -> bool,
                                                   one: R -> bool, bad: R -> bool, r: R)
    requires sel.Unlimited() && bad(r)
    requires forall r :: one(r) ==> batch(r)
    ensures r in sel.Where(one).Run(table) ==> AnyBad(sel.Where(batch).Run(table), bad)
    ensures r in sel.Where(batch).Run(table) && one(r) ==> AnyBad(sel.Where(one).Run(table), bad)
  {
    NarrowedMember(sel, table, batch, one, r);
    var b, o := sel.Where(batch).Run(table), sel.Where(one).Run(table);
    if r in b {
      var i :| 0 <= i < |b| && b[i] == r;
    }
    if r in o {
      var i :| 0 <= i < |o| && o[i] == r;
    }
  }

  function FailingRow(db: DB, fields: seq<Column>, edges: AccountEdgesQ): AccountRow -> bool {
    (r: AccountRow) => NodeFails(db, edges, ScanRow(AccountColumns(fields, edges), r))
  }

  lemma {:induction false} NaiveFailsByRow(db: DB, q: AccountQ)
    ensures NaiveFails(db, q)
       <==> (Rejected(Valid(), q.sel.fields)
             || AnyBad(q.sel.Run(db.accounts), FailingRow(db, q.sel.fields, q.edges)))
  {
    hide NodeFails;
    var found, bad := q.sel.Run(db.accounts), FailingRow(db, q.sel.fields, q.edges);
    if i :| 0 <= i < |found| && bad(found[i]) {
      assert found[i] in found;
    }
  }

  function FailingJoin(db: DB, fields: seq<AccountGroupColumn>, edges: AccountGroupEdgesQ): AccountGroupRow -> bool {
    (r: AccountGroupRow) => JoinNodeFails(db, edges, ScanAccountGroup(JoinColumns(fields, edges), r))
  }

  lemma {:induction false} NaiveJoinsFailByRow(db: DB, q: AccountGroupQ)
    ensures NaiveJoinsFail(db, q)
       <==> (Rejected(ValidJoin(), q.sel.fields)
             || AnyBad(q.sel.Run(db.accountGroups), FailingJoin(db, q.sel.fields, q.edges)))
  {
    hide JoinNodeFails;
    var found, bad := q.sel.Run(db.accountGroups), FailingJoin(db, q.sel.fields, q.edges);
    if i :| 0 <= i < |found| && bad(found[i]) {
      assert found[i] in found;
    }
  }

  /** A query for fewer accounts fails only if the query for more does. */
  lemma {:induction false} FailureShared(db: DB, sel: Selection<Column, AccountRow>, b: AccountQ, o: AccountQ,
                                         batch: AccountRow -> bool, one: AccountRow -> bool)
    requires sel.Unlimited() && b.sel == sel.Where(batch) && o.sel == sel.Where(one) && b.edges == o.edges
    requires forall r :: one(r) ==> batch(r)
    ensures NaiveFails(db, o) ==> NaiveFails(db, b)
  {
    hide NaiveFails, FailingRow;
    var bad := FailingRow(db, sel.fields, b.edges);
    NaiveFailsByRow(db, b);
    NaiveFailsByRow(db, o);
    if NaiveFails(db, o) && !Rejected(Valid(), sel.fields) {
      var r := BadRow(sel, db.accounts, one, bad);
      BadIsShared(sel, db.accounts, batch, one, bad, r);
    }
  }

  /** A batch that fails holds an account on account of which it fails. */
  lemma {:induction false} FailureCause(db: DB, sel: Selection<Column, AccountRow>, b: AccountQ,
                                        batch: AccountRow -> bool)
    returns (r: AccountRow)
    requires sel.Unlimited() && b.sel == sel.Where(batch)
    requires NaiveFails(db, b) && !Rejected(Valid(), sel.fields)
    ensures batch(r) && r in b.sel.Run(db.accounts) && FailingRow(db, sel.fields, b.edges)(r)
  {
    hide NaiveFails, FailingRow;
    NaiveFailsByRow(db, b);
    r := BadRow(sel, db.accounts, batch, FailingRow(db, sel.fields, b.edges));
  }

  lemma {:induction false} FailureAlone(db: DB, sel: Selection<Column, AccountRow>, b: AccountQ, o: AccountQ,
                                        batch: AccountRow -> bool, one: AccountRow -> bool, r: AccountRow)
    requires sel.Unlimited() && b.sel == sel.Where(batch) && o.sel == sel.Where(one) && b.edges == o.edges
    requires forall r :: one(r) ==> batch(r)
    requires one(r) && r in b.sel.Run(db.accounts) && FailingRow(db, sel.fields, b.edges)(r)
    ensures NaiveFails(db, o)
  {
    hide NaiveFails, FailingRow;
    NaiveFailsByRow(db, o);
    BadIsShared(sel, db.accounts, batch, one, FailingRow(db, sel.fields, b.edges), r);
  }

  lemma {:induction false} SplitParents(db: DB, q: AccountQ, ids: seq<int>)
    requires q.sel.Unlimited() && ids != []
    ensures NaiveFails(db, ParentQuery(q, ids)) <==> exists id :: id in ids && NaiveFails(db, ParentQuery(q, [id]))
  {
    hide NaiveFails, FailingRow;
    var sel, b := q.sel, ParentQuery(q, ids);
    if Rejected(Valid(), sel.fields) {
      var id := ids[0];
      NaiveFailsByRow(db, b);
      NaiveFailsByRow(db, ParentQuery(q, [id]));
      assert id in ids && NaiveFails(db, ParentQuery(q, [id]));
    } else if NaiveFails(db, b) {
      var r := FailureCause(db, sel, b, AccountIDIn(ids));
      var id := r.id;
      FailureAlone(db, sel, b, ParentQuery(q, [id]), AccountIDIn(ids), AccountIDIn([id]), r);
      assert id in ids && NaiveFails(db, ParentQuery(q, [id]));
    } else {
      forall id | id in ids ensures !NaiveFails(db, ParentQuery(q, [id])) {
        FailureShared(db, sel, b, ParentQuery(q, [id]), AccountIDIn(ids), AccountIDIn([id]));
      }
    }
  }

  lemma {:induction false} SplitChildren(db: DB, q: AccountQ, ids: seq<int>)
    requires q.sel.Unlimited() && ids != []
    ensures NaiveFails(db, ChildrenQuery(q, ids)) <==> exists id :: id in ids && NaiveFails(db, ChildrenQuery(q, [id]))
  {
    hide NaiveFails, FailingRow;
    var sel, b := q.sel.NeedField(Int64Column(ParentAccountID)), ChildrenQuery(q, ids);
    if Rejected(Valid(), sel.fields) {
      var id := ids[0];
      NaiveFailsByRow(db, b);
      NaiveFailsByRow(db, ChildrenQuery(q, [id]));
      assert id in ids && NaiveFails(db, ChildrenQuery(q, [id]));
    } else if NaiveFails(db, b) {
      var r := FailureCause(db, sel, b, ParentIn(ids));
      var id := r.parentAccountID.value;
      FailureAlone(db, sel, b, ChildrenQuery(q, [id]), ParentIn(ids), ParentIn([id]), r);
      assert id in ids && NaiveFails(db, ChildrenQuery(q, [id]));
    } else {
      forall id | id in ids ensures !NaiveFails(db, ChildrenQuery(q, [id])) {
        FailureShared(db, sel, b, ChildrenQuery(q, [id]), ParentIn(ids), ParentIn([id]));
      }
    }
  }

  lemma {:induction false} SplitJoins(db: DB, q: AccountGroupQ, ids: seq<int>)
    requires q.sel.Unlimited() && ids != []
    ensures NaiveJoinsFail(db, AccountGroupsQuery(q, ids))
            <==> exists id :: id in ids && NaiveJoinsFail(db, AccountGroupsQuery(q, [id]))
  {
    hide NaiveJoinsFail, FailingJoin;
    var sel, batch := q.sel.NeedField(AccountIDField), JoinOwnerIn(ids);
    var bad := FailingJoin(db, sel.fields, q.edges);
    NaiveJoinsFailByRow(db, AccountGroupsQuery(q, ids));
    if Rejected(ValidJoin(), sel.fields) {
      var id := ids[0];
      NaiveJoinsFailByRow(db, AccountGroupsQuery(q, [id]));
      assert id in ids && NaiveJoinsFail(db, AccountGroupsQuery(q, [id]));
    } else if NaiveJoinsFail(db, AccountGroupsQuery(q, ids)) {
      var r := BadRow(sel, db.accountGroups, batch, bad);
      BadIsShared(sel, db.accountGroups, batch, JoinOwnerIn([r.accountID]), bad, r);
      NaiveJoinsFailByRow(db, AccountGroupsQuery(q, [r.accountID]));
      assert r.accountID in ids;
    } else if id :| id in ids && NaiveJoinsFail(db, AccountGroupsQuery(q, [id])) {
      NaiveJoinsFailByRow(db, AccountGroupsQuery(q, [id]));
      var r := BadRow(sel, db.accountGroups, JoinOwnerIn([id]), bad);
      BadIsShared(sel, db.accountGroups, batch, JoinOwnerIn([id]), bad, r);
      assert false;
    }
  }

  /** For unlimited edges the batched load fails exactly when the naive one does. */
  lemma {:induction false} SameFailure(db: DB, q: AccountQ)
    requires EdgesUnlimited(q.edges)
    ensures AccountsFail(db, q) <==> NaiveFails(db, q)
    decreases q.edges, 2
  {
    hide EdgesFailure, NodeFails, NaiveFails, FailingRow;
    var rows := ScanAccounts(db, q);
    NaiveFailsByRow(db, q);
    ScannedFailures(db, q);
    if rows != [] {
      SameEdgesFailure(db, rows, q.edges);
    }
  }

  lemma {:induction false} ScannedFailures(db: DB, q: AccountQ)
    ensures AnyBad(q.sel.Run(db.accounts), FailingRow(db, q.sel.fields, q.edges))
       <==> exists i :: 0 <= i < |ScanAccounts(db, q)| && NodeFails(db, q.edges, ScanAccounts(db, q)[i])
  {
    hide NodeFails;
    var rows, found, bad := ScanAccounts(db, q), q.sel.Run(db.accounts), FailingRow(db, q.sel.fields, q.edges);
    assert forall i :: 0 <= i < |rows| ==> NodeFails(db, q.edges, rows[i]) == bad(found[i]);
  }

  lemma {:induction false} SameEdgesFailure(db: DB, rows: seq<AccountRow>, edges: AccountEdgesQ)
    requires EdgesUnlimited(edges) && rows != []
    ensures EdgesFail(db, rows, edges) <==> exists i :: 0 <= i < |rows| && NodeFails(db, edges, rows[i])
    decreases edges, 1
  {
    hide LeafFailure, TargetFailure, ChildrenFailure, AccountGroupsFailure;
    hide NaiveTargetFails, NaiveChildrenFail, NaiveAccountGroupsFail;
    SameTargetFailure(db, edges.parent, ParentKeys(rows));
    SameChildrenFailure(db, edges.children, IDs(rows));
    SameAccountGroupsFailure(db, edges.accountGroups, IDs(rows));
    PresentKeysNonEmpty(ProxyKeys(rows));
    SomeEdgeFails(db, rows, edges);
    hide EdgesFail, EdgesFailure;
    if EdgesFail(db, rows, edges) {
      var i := FailingNode(db, rows, edges);
    }
    if i :| 0 <= i < |rows| && NodeFails(db, edges, rows[i]) {
      assert ParentKeys(rows)[i] == rows[i].parentAccountID && IDs(rows)[i] == rows[i].id
          && ProxyKeys(rows)[i] == rows[i].proxyID;
    }
  }

  /** The edges fail if one of them does. */
  lemma {:induction false} SomeEdgeFails(db: DB, rows: seq<AccountRow>, edges: AccountEdgesQ)
    ensures EdgesFail(db, rows, edges)
       <==> || LeafFails(edges.groups)
            || (PresentKeys(ProxyKeys(rows)) != [] && LeafFails(edges.proxy))
            || TargetFails(db, edges.parent, ParentKeys(rows))
            || ChildrenFail(db, edges.children, IDs(rows))
            || LeafFails(edges.usageLogs)
            || AccountGroupsFail(db, edges.accountGroups, IDs(rows))
  {
    hide LeafFailure, TargetFailure, ChildrenFailure, AccountGroupsFailure, PresentKeys;
    var first, last := FirstEdgesFailure(db, rows, edges), LastEdgesFailure(db, rows, edges);
    assert EdgesFailure(db, rows, edges) == FirstOf(first, last);
  }

  lemma {:induction false} FailingNode(db: DB, rows: seq<AccountRow>, edges: AccountEdgesQ) returns (i: nat)
    requires EdgesFail(db, rows, edges) && rows != []
    requires TargetFails(db, edges.parent, ParentKeys(rows)) ==>
               exists i :: 0 <= i < |rows| && NaiveTargetFails(db, edges.parent, ParentKeys(rows)[i])
    requires ChildrenFail(db, edges.children, IDs(rows)) ==>
               exists i :: 0 <= i < |rows| && NaiveChildrenFail(db, edges.children, IDs(rows)[i])
    requires AccountGroupsFail(db, edges.accountGroups, IDs(rows)) ==>
               exists i :: 0 <= i < |rows| && NaiveAccountGroupsFail(db, edges.accountGroups, IDs(rows)[i])
    ensures i < |rows| && NodeFails(db, edges, rows[i])
  {
    hide LeafFailure, TargetFailure, ChildrenFailure, AccountGroupsFailure;
    hide NaiveTargetFails, NaiveChildrenFail, NaiveAccountGroupsFail;
    SomeEdgeFails(db, rows, edges);
    hide EdgesFail, EdgesFailure;
    if LeafFails(edges.groups) || LeafFails(edges.usageLogs) {
      i := 0;
    } else if PresentKeys(ProxyKeys(rows)) != [] && LeafFails(edges.proxy) {
      PresentKeysNonEmpty(ProxyKeys(rows));
      i :| i < |rows| && ProxyKeys(rows)[i].Some?;
    } else if TargetFails(db, edges.parent, ParentKeys(rows)) {
      i :| i < |rows| && NaiveTargetFails(db, edges.parent, ParentKeys(rows)[i]);
    } else if ChildrenFail(db, edges.children, IDs(rows)) {
      i :| i < |rows| && NaiveChildrenFail(db, edges.children, IDs(rows)[i]);
    } else {
      i :| i < |rows| && NaiveAccountGroupsFail(db, edges.accountGroups, IDs(rows)[i]);
    }
  }

  lemma {:induction false} PresentKeysNonEmpty(keys: seq<Option<int>>)
    ensures PresentKeys(keys) != [] <==> exists i :: 0 <= i < |keys| && keys[i].Some?
  {
    if keys != [] {
      var n := |keys| - 1;
      PresentKeysNonEmpty(keys[..n]);
      assert forall i :: 0 <= i < n ==> keys[..n][i] == keys[i];
    }
  }

  lemma {:induction false} SameTargetFailure(db: DB, q: Option<AccountQ>, keys: seq<Option<int>>)
    requires q.Some? ==> q.value.sel.Unlimited() && EdgesUnlimited(q.value.edges)
    ensures TargetFails(db, q, keys) <==> exists i :: 0 <= i < |keys| && NaiveTargetFails(db, q, keys[i])
    decreases q, 3
  {
    hide AccountsFailure, NaiveFails;
    PresentKeysNonEmpty(keys);
    if q.Some? && PresentKeys(keys) != [] {
      var ids := PresentKeys(keys);
      SameFailure(db, ParentQuery(q.value, ids));
      SplitParents(db, q.value, ids);
      forall k ensures k in ids <==> Some(k) in keys {
        PresentKeysComplete(keys, k);
      }
      if id :| id in ids && NaiveFails(db, ParentQuery(q.value, [id])) {
        var i :| 0 <= i < |keys| && keys[i] == Some(id);
        assert NaiveTargetFails(db, q, keys[i]);
      }
      if i :| 0 <= i < |keys| && NaiveTargetFails(db, q, keys[i]) {
        var id := keys[i].value;
        assert keys[i] == Some(id) && id in ids;
        assert NaiveFails(db, ParentQuery(q.value, [id]));
      }
    }
  }

  lemma {:induction false} SameChildrenFailure(db: DB, q: Option<AccountQ>, ids: seq<int>)
    requires (q.Some? ==> q.value.sel.Unlimited() && EdgesUnlimited(q.value.edges)) && ids != []
    ensures ChildrenFail(db, q, ids) <==> exists i :: 0 <= i < |ids| && NaiveChildrenFail(db, q, ids[i])
    decreases q, 3
  {
    hide AccountsFailure, NaiveFails;
    if q.Some? {
      SameFailure(db, ChildrenQuery(q.value, ids));
      SplitChildren(db, q.value, ids);
    }
  }

  lemma {:induction false} SameAccountGroupsFailure(db: DB, q: Option<AccountGroupQ>, ids: seq<int>)
    requires (q.Some? ==> q.value.sel.Unlimited() && JoinEdgesUnlimited(q.value.edges)) && ids != []
    ensures AccountGroupsFail(db, q, ids) <==> exists i :: 0 <= i < |ids| && NaiveAccountGroupsFail(db, q, ids[i])
    decreases q, 3
  {
    hide JoinsFailure, NaiveJoinsFail;
    if q.Some? {
      SameJoinsFailure(db, AccountGroupsQuery(q.value, ids));
      SplitJoins(db, q.value, ids);
    }
  }

  lemma {:induction false} SameJoinsFailure(db: DB, q: AccountGroupQ)
    requires JoinEdgesUnlimited(q.edges)
    ensures JoinsFail(db, q) <==> NaiveJoinsFail(db, q)
    decreases q.edges, 2
  {
    hide TargetFailure, NaiveTargetFails, LeafFailure;
    var rows, found := ScanAccountGroups(db, q), q.sel.Run(db.accountGroups);
    var bad := FailingJoin(db, q.sel.fields, q.edges);
    NaiveJoinsFailByRow(db, q);
    SameTargetFailure(db, q.edges.account, AccountKeys(rows));
    forall i | 0 <= i < |rows|
      ensures bad(found[i])
         <==> (NaiveTargetFails(db, q.edges.account, AccountKeys(rows)[i]) || LeafFails(q.edges.group)) {
    }
    if rows != [] && LeafFails(q.edges.group) {
      assert bad(found[0]);
    }
    assert JoinsFail(db, q)
      <==> Rejected(ValidJoin(), q.sel.fields) || (rows != [] && JoinEdgesFailure(db, rows, q.edges).Some?);
    assert JoinEdgesFailure(db, rows, q.edges).Some?
      <==> TargetFails(db, q.edges.account, AccountKeys(rows)) || LeafFails(q.edges.group);
  }

  // ======== which projections are rejected, in terms of the columns themselves ========

  predicate NamesUnknown(fields: seq<Column>) {
    exists i :: 0 <= i < |fields| && fields[i].Other?
  }

  predicate NamesUnknownJoin(fields: seq<AccountGroupColumn>) {
    exists i :: 0 <= i < |fields| && fields[i].OtherField?
  }

  predicate NamesUnknownLeaf(fields: seq<LeafColumn>) {
    exists i :: 0 <= i < |fields| && fields[i].Unlisted?
  }

  /** An unknown column in the projection of an edge that is loaded, and so of the query itself, is reported. */
  lemma {:induction false} UnknownColumnFails(db: DB, q: AccountQ)
    requires || NamesUnknown(q.sel.fields)
             || (ScanAccounts(db, q) != [] && UnknownAtEdge(ScanAccounts(db, q), q.edges))
    ensures AccountsFail(db, q)
  {
    hide EdgesFailure, UnknownAtEdge;
    if !NamesUnknown(q.sel.fields) {
      UnknownEdgeFails(db, ScanAccounts(db, q), q.edges);
    }
  }

  /** One of the edges to be loaded for these accounts has such a projection. */
  predicate UnknownAtEdge(rows: seq<AccountRow>, edges: AccountEdgesQ) {
    || (edges.groups.Some? && NamesUnknownLeaf(edges.groups.value.sel.fields))
    || (edges.proxy.Some? && NamesUnknownLeaf(edges.proxy.value.sel.fields)
        && exists i :: 0 <= i < |rows| && rows[i].proxyID.Some?)
    || (edges.parent.Some? && NamesUnknown(edges.parent.value.sel.fields)
        && exists i :: 0 <= i < |rows| && rows[i].parentAccountID.Some?)
    || (edges.children.Some? && NamesUnknown(edges.children.value.sel.fields))
    || (edges.usageLogs.Some? && NamesUnknownLeaf(edges.usageLogs.value.sel.fields))
    || (edges.accountGroups.Some? && NamesUnknownJoin(edges.accountGroups.value.sel.fields))
  }

  lemma {:induction false} UnknownEdgeFails(db: DB, rows: seq<AccountRow>, edges: AccountEdgesQ)
    requires UnknownAtEdge(rows, edges)
    ensures EdgesFail(db, rows, edges)
  {
    hide PresentKeys, ParentQuery, ChildrenQuery, AccountGroupsQuery, EdgesFailure;
    SomeEdgeFails(db, rows, edges);
    PresentKeysNonEmpty(ProxyKeys(rows));
    PresentKeysNonEmpty(ParentKeys(rows));
    if i :| 0 <= i < |rows| && rows[i].proxyID.Some? {
      assert ProxyKeys(rows)[i].Some?;
    }
    if i :| 0 <= i < |rows| && rows[i].parentAccountID.Some? {
      assert ParentKeys(rows)[i].Some?;
    }
    if edges.parent.Some? && NamesUnknown(edges.parent.value.sel.fields) {
      ParentProjection(db, edges.parent.value, PresentKeys(ParentKeys(rows)));
    }
    if edges.children.Some? && NamesUnknown(edges.children.value.sel.fields) {
      ChildrenProjection(db, edges.children.value, IDs(rows));
    }
    if edges.accountGroups.Some? && NamesUnknownJoin(edges.accountGroups.value.sel.fields) {
      JoinsProjection(db, edges.accountGroups.value, IDs(rows));
    }
  }

  lemma {:induction false} ParentProjection(db: DB, q: AccountQ, ids: seq<int>)
    requires NamesUnknown(q.sel.fields)
    ensures AccountsFail(db, ParentQuery(q, ids))
  {
    hide EdgesFailure;
  }

  lemma {:induction false} ChildrenProjection(db: DB, q: AccountQ, ids: seq<int>)
    requires NamesUnknown(q.sel.fields)
    ensures AccountsFail(db, ChildrenQuery(q, ids))
  {
    hide EdgesFailure;
    var i :| 0 <= i < |q.sel.fields| && q.sel.fields[i].Other?;
    assert ChildrenQuery(q, ids).sel.fields[i] == q.sel.fields[i];
  }

  lemma {:induction false} JoinsProjection(db: DB, q: AccountGroupQ, ids: seq<int>)
    requires NamesUnknownJoin(q.sel.fields)
    ensures JoinsFail(db, AccountGroupsQuery(q, ids))
  {
    hide JoinEdgesFailure;
    var i :| 0 <= i < |q.sel.fields| && q.sel.fields[i].OtherField?;
    assert AccountGroupsQuery(q, ids).sel.fields[i] == q.sel.fields[i];
  }

  /** No builder of the tree names an unknown column. */
  predicate AllKnown(q: AccountQ) {
    && !NamesUnknown(q.sel.fields)
    && (q.edges.groups.Some? ==> !NamesUnknownLeaf(q.edges.groups.value.sel.fields))
    && (q.edges.proxy.Some? ==> !NamesUnknownLeaf(q.edges.proxy.value.sel.fields))
    && (q.edges.parent.Some? ==> AllKnown(q.edges.parent.value))
    && (q.edges.children.Some? ==> AllKnown(q.edges.children.value))
    && (q.edges.usageLogs.Some? ==> !NamesUnknownLeaf(q.edges.usageLogs.value.sel.fields))
    && (q.edges.accountGroups.Some? ==> AllKnownJoin(q.edges.accountGroups.value))
  }

  predicate AllKnownJoin(q: AccountGroupQ) {
    && !NamesUnknownJoin(q.sel.fields)
    && (q.edges.account.Some? ==> AllKnown(q.edges.account.value))
    && (q.edges.group.Some? ==> !NamesUnknownLeaf(q.edges.group.value.sel.fields))
  }

  /** Then no load fails, whatever is stored. */
  lemma {:induction false} KnownNeverFails(db: DB, q: AccountQ)
    requires AllKnown(q)
    ensures !AccountsFail(db, q)
    decreases q.edges, 2
  {
    hide EdgesFailure, PresentKeys, ScanAccounts;
    var rows := ScanAccounts(db, q);
    SomeEdgeFails(db, rows, q.edges);
    KnownLeaves(q);
    if q.edges.parent.Some? {
      KnownTarget(db, q.edges.parent.value, ParentKeys(rows));
    }
    if q.edges.children.Some? {
      KnownChildren(db, q.edges.children.value, IDs(rows));
    }
    if q.edges.accountGroups.Some? {
      KnownJoins(db, q.edges.accountGroups.value, IDs(rows));
    }
  }

  lemma {:induction false} KnownLeaves(q: AccountQ)
    requires AllKnown(q)
    ensures !LeafFails(q.edges.groups) && !LeafFails(q.edges.proxy) && !LeafFails(q.edges.usageLogs)
  {
  }

  lemma {:induction false} KnownTarget(db: DB, q: AccountQ, keys: seq<Option<int>>)
    requires AllKnown(q)
    ensures !TargetFails(db, Some(q), keys)
    decreases q.edges, 3
  {
    hide AccountsFailure;
    KnownNeverFails(db, ParentQuery(q, PresentKeys(keys)));
  }

  lemma {:induction false} KnownChildren(db: DB, q: AccountQ, ids: seq<int>)
    requires AllKnown(q)
    ensures !ChildrenFail(db, Some(q), ids)
    decreases q.edges, 3
  {
    hide AccountsFailure;
    KnownNeverFails(db, ChildrenQuery(q, ids));
  }

  lemma {:induction false} KnownJoins(db: DB, q: AccountGroupQ, ids: seq<int>)
    requires AllKnownJoin(q)
    ensures !AccountGroupsFail(db, Some(q), ids)
    decreases q.edges, 3
  {
    var asked := AccountGroupsQuery(q, ids);
    var rows := ScanAccountGroups(db, asked);
    if q.edges.account.Some? {
      KnownTarget(db, q.edges.account.value, AccountKeys(rows));
    }
    hide TargetFailure;
    KnownGroup(q.edges.group);
    NoTargetFails(db, AccountKeys(rows));
    assert JoinEdgesFailure(db, rows, q.edges) == None;
    assert !Rejected(ValidJoin(), asked.sel.fields);
    assert asked.edges == q.edges;
    assert JoinsFailure(db, asked) == None;
    assert AccountGroupsFailure(db, Some(q), ids) == JoinsFailure(db, asked);
  }

  lemma {:induction false} KnownGroup(q: Option<LeafQ>)
    requires q.Some? ==> !NamesUnknownLeaf(q.value.sel.fields)
    ensures LeafFailure(q) == None
  {
  }

  lemma {:induction false} NoTargetFails(db: DB, keys: seq<Option<int>>)
    ensures TargetFailure(db, None, keys) == None
  {
  }
}
