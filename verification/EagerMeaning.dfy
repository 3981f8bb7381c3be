/** What eager loading returns, said in terms of the stored rows and of the query as the caller built it: for every
    node and every requested edge which rows were due, in which order, and which of their columns are shown. */
module EagerMeaning {
  import opened Basics
  import opened AccountEntity
  import opened AccountScan
  import opened AccountMeaning
  import opened Selections
  import opened SelectionMeaning
  import opened EagerModel
  import opened EagerSpec
  import opened EagerNaive
  import opened EagerRefinement

  // ======== which columns are read ========

  /** All columns by default, else the id, the caller's columns, and the foreign keys an edge needs. */
  function Selected(fields: seq<Column>, proxyKey: bool, parentKey: bool): Column -> bool {
    (c: Column) =>
      || fields == [] || c == Int64Column(ID) || c in fields
      || (proxyKey && c == Int64Column(ProxyID)) || (parentKey && c == Int64Column(ParentAccountID))
  }

  lemma {:induction false} ColumnsExactly(fields: seq<Column>, edges: AccountEdgesQ, c: Column)
    requires ValidColumn(c)
    ensures c in AccountColumns(fields, edges) <==> Selected(fields, edges.proxy.Some?, edges.parent.Some?)(c)
  {
    hide Filter, ALL_COLUMNS, AddColumnOnce;
    if fields == [] {
      var i := ColumnPosition(c);
    } else {
      var notID := (c: Column) => c != Int64Column(ID);
      var chosen := [Int64Column(ID)] + Filter(fields, notID);
      FilterMember(fields, notID, c);
      AddOnceMember(chosen, Int64Column(ProxyID), c);
      var withProxy := if edges.proxy.Some? then AddColumnOnce(chosen, Int64Column(ProxyID)) else chosen;
      AddOnceMember(withProxy, Int64Column(ParentAccountID), c);
    }
  }

  lemma {:induction false} AddOnceMember(columns: seq<Column>, added: Column, c: Column)
    ensures c in AddColumnOnce(columns, added) <==> c in columns || c == added
  {
  }

  /** What a group, a proxy or a usage log shows: its id, and of the rest what was selected or needed. */
  ghost predicate LeafRead(fields: seq<LeafColumn>, ownerKey: bool, row: LeafRow, shown: LeafRow) {
    && shown.id == row.id
    && shown.accountID == (if fields == [] || OwnerID in fields || ownerKey then row.accountID else 0)
    && (forall a :: a in shown.attributes <==> a in row.attributes && (fields == [] || Attribute(a) in fields))
    && (forall a :: a in shown.attributes ==> shown.attributes[a] == row.attributes[a])
  }

  lemma {:induction false} ScanLeafReads(fields: seq<LeafColumn>, row: LeafRow)
    ensures LeafRead(fields, false, row, ScanLeaf(fields, row))
  {
  }

  predicate JoinRead(fields: seq<AccountGroupColumn>, accountKey: bool, groupKey: bool, row: AccountGroupRow,
                     shown: AccountGroupRow)
  {
    && shown.accountID == (if fields == [] || AccountIDField in fields || accountKey then row.accountID else 0)
    && shown.groupID == (if fields == [] || GroupIDField in fields || groupKey then row.groupID else 0)
    && shown.priority == (if fields == [] || PriorityField in fields then row.priority else 0)
    && shown.createdAt == (if fields == [] || CreatedAtField in fields then row.createdAt else 0)
  }

  lemma {:induction false} ScanJoinReads(fields: seq<AccountGroupColumn>, edges: AccountGroupEdgesQ,
                                         row: AccountGroupRow)
    ensures JoinRead(fields, edges.account.Some?, edges.group.Some?, row,
                     ScanAccountGroup(JoinColumns(fields, edges), row))
  {
  }

  // ======== the rows an edge is about ========

  function Anything<R>(): R -> bool {
    (r: R) => true
  }

  function OwnLog(account: int): LeafRow -> bool {
    (r: LeafRow) => r.accountID == account
  }

  function LeafOf(key: int): LeafRow -> bool {
    (r: LeafRow) => r.id == key
  }

  function AccountOf(key: int): AccountRow -> bool {
    (r: AccountRow) => r.id == key
  }

  function ChildOfAccount(account: int): AccountRow -> bool {
    (r: AccountRow) => r.parentAccountID == Some(account)
  }

  function OwnJoin(account: int): AccountGroupRow -> bool {
    (r: AccountGroupRow) => r.accountID == account
  }

  function GroupOfAccount(joins: seq<AccountGroupRow>, account: int): LeafRow -> bool {
    (g: LeafRow) => exists i :: 0 <= i < |joins| && joins[i].accountID == account && joins[i].groupID == g.id
  }

  // ======== what is right ========

  /** The rows that were due, in their order, each showing what was selected. */
  ghost predicate LeavesRight(q: LeafQ, due: LeafRow -> bool, ownerKey: bool, table: seq<LeafRow>,
                              shown: seq<LeafRow>)
  {
    exists rows :: Answer(q.sel, due, table, rows) && LeavesRead(q.sel.fields, ownerKey, rows, shown)
  }

  ghost predicate LeavesRead(fields: seq<LeafColumn>, ownerKey: bool, rows: seq<LeafRow>, shown: seq<LeafRow>) {
    |shown| == |rows| && forall k :: 0 <= k < |rows| ==> LeafRead(fields, ownerKey, rows[k], shown[k])
  }

  /** The row that was due, if there is one; the last, if the table has several. */
  ghost predicate LeafTargetRight(q: LeafQ, due: LeafRow -> bool, table: seq<LeafRow>, shown: Option<LeafRow>) {
    exists rows :: Answer(q.sel, due, table, rows) && LastRead(q.sel.fields, rows, shown)
  }

  ghost predicate LastRead(fields: seq<LeafColumn>, rows: seq<LeafRow>, shown: Option<LeafRow>) {
    if rows == [] then shown == None else shown.Some? && LeafRead(fields, false, rows[|rows| - 1], shown.value)
  }

  /** A loaded account: the columns that were selected, and every requested edge of the stored row. */
  ghost predicate TreeRight(db: DB, fields: seq<Column>, parentKey: bool, edges: AccountEdgesQ, row: AccountRow,
                            t: AccountTree)
    decreases edges, 1
  {
    && FieldsRead(Selected(fields, edges.proxy.Some?, edges.parent.Some? || parentKey), row, t.row)
    && t.loaded == [edges.groups.Some?, edges.proxy.Some?, edges.parent.Some?, edges.children.Some?,
                    edges.usageLogs.Some?, edges.accountGroups.Some?]
    && (if edges.groups.None? then t.groups == []
        else LeavesRight(edges.groups.value, GroupOfAccount(db.accountGroups, row.id), false, db.groups, t.groups))
    && (if edges.proxy.None? || row.proxyID.None? then t.proxy == None
        else LeafTargetRight(edges.proxy.value, LeafOf(row.proxyID.value), db.proxies, t.proxy))
    && TargetRight(db, edges.parent, row.parentAccountID, t.parent)
    && (if edges.children.None? then t.children == []
        else exists rows :: Answer(edges.children.value.sel, ChildOfAccount(row.id), db.accounts, rows)
                            && TreesRight(db, edges.children.value, true, rows, t.children))
    && (if edges.usageLogs.None? then t.usageLogs == []
        else LeavesRight(edges.usageLogs.value, OwnLog(row.id), true, db.usageLogs, t.usageLogs))
    && (if edges.accountGroups.None? then t.accountGroups == []
        else exists rows :: Answer(edges.accountGroups.value.sel, OwnJoin(row.id), db.accountGroups, rows)
                            && JoinTreesRight(db, edges.accountGroups.value, true, rows, t.accountGroups))
  }

  ghost predicate TreesRight(db: DB, q: AccountQ, parentKey: bool, rows: seq<AccountRow>, ts: seq<AccountTree>)
    decreases q.edges, 2
  {
    |ts| == |rows| && forall k :: 0 <= k < |rows| ==> TreeRight(db, q.sel.fields, parentKey, q.edges, rows[k], ts[k])
  }

  /** The account a key leads to, if there is one. */
  ghost predicate TargetRight(db: DB, q: Option<AccountQ>, key: Option<int>, t: Option<AccountTree>)
    decreases q, 3
  {
    if q.None? || key.None? then t == None
    else
      exists rows :: Answer(q.value.sel, AccountOf(key.value), db.accounts, rows) && LastTreeRight(db, q.value, rows, t)
  }

  ghost predicate LastTreeRight(db: DB, q: AccountQ, rows: seq<AccountRow>, t: Option<AccountTree>)
    decreases q.edges, 2
  {
    if rows == [] then t == None
    else t.Some? && TreeRight(db, q.sel.fields, false, q.edges, rows[|rows| - 1], t.value)
  }

  ghost predicate JoinTreeRight(db: DB, fields: seq<AccountGroupColumn>, accountKey: bool, edges: AccountGroupEdgesQ,
                                row: AccountGroupRow, t: AccountGroupTree)
    decreases edges, 1
  {
    && JoinRead(fields, edges.account.Some? || accountKey, edges.group.Some?, row, t.row)
    && t.loaded == [edges.account.Some?, edges.group.Some?]
    && TargetRight(db, edges.account, Some(row.accountID), t.account)
    && (if edges.group.None? then t.group == None
        else LeafTargetRight(edges.group.value, LeafOf(row.groupID), db.groups, t.group))
  }

  ghost predicate JoinTreesRight(db: DB, q: AccountGroupQ, accountKey: bool, rows: seq<AccountGroupRow>,
                                 ts: seq<AccountGroupTree>)
    decreases q.edges, 2
  {
    && |ts| == |rows|
    && forall k :: 0 <= k < |rows| ==> JoinTreeRight(db, q.sel.fields, accountKey, q.edges, rows[k], ts[k])
  }

  // ======== the naive lookups are right ========

  lemma {:induction false} LeafRows(q: LeafQ, asked: LeafRow -> bool, due: LeafRow -> bool, table: seq<LeafRow>)
    returns (rows: seq<LeafRow>)
    requires forall r :: r in table ==> asked(r) == due(r)
    ensures Answer(q.sel, due, table, rows) && rows == q.sel.Where(asked).Run(table)
    ensures LeavesRead(q.sel.fields, false, rows, LeafNodes(q, asked, table))
  {
    hide Answer, LeafRead;
    rows := q.sel.Where(asked).Run(table);
    RunAnswers(q.sel, asked, table);
    AnswerSame(q.sel, q.sel, asked, due, table, rows);
    forall k | 0 <= k < |rows| ensures LeafRead(q.sel.fields, false, rows[k], LeafNodes(q, asked, table)[k]) {
      ScanLeafReads(q.sel.fields, rows[k]);
    }
  }

  lemma {:induction false} GroupsRight(db: DB, q: LeafQ, account: int)
    ensures LeavesRight(q, GroupOfAccount(db.accountGroups, account), false, db.groups,
                        NaiveGroups(db, Some(q), account))
  {
    hide Answer, LeavesRead;
    var rows := LeafRows(q, GroupOf(db.accountGroups, account), GroupOfAccount(db.accountGroups, account), db.groups);
  }

  lemma {:induction false} LogsRight(db: DB, q: LeafQ, account: int)
    ensures LeavesRight(q, OwnLog(account), true, db.usageLogs, NaiveUsageLogs(db, Some(q), account))
  {
    hide Answer, LeafRead;
    var u := UsageLogsQuery(q);
    var rows := LeafRows(u, OwnerIn([account]), OwnLog(account), db.usageLogs);
    AnswerSame(u.sel, q.sel, OwnLog(account), OwnLog(account), db.usageLogs, rows);
    var shown := NaiveUsageLogs(db, Some(q), account);
    forall k | 0 <= k < |rows| ensures LeafRead(q.sel.fields, true, rows[k], shown[k]) {
      OwnerRead(q.sel.fields, rows[k], shown[k]);
    }
  }

  lemma {:induction false} OwnerRead(fields: seq<LeafColumn>, row: LeafRow, shown: LeafRow)
    requires LeafRead(if fields == [] || OwnerID in fields then fields else fields + [OwnerID], false, row, shown)
    ensures LeafRead(fields, true, row, shown)
  {
  }

  lemma {:induction false} LeafTargetFound(q: LeafQ, table: seq<LeafRow>, key: int)
    ensures LeafTargetRight(q, LeafOf(key), table, NaiveTarget(Some(q), table, Some(key)))
  {
    hide Answer, LeafRead;
    var rows := LeafRows(q, LeafIDIn([key]), LeafOf(key), table);
  }

  /** What an account found by a query shows, with its edges. */
  lemma {:induction false} NaiveTreeRight(db: DB, fields: seq<Column>, parentKey: bool, edges: AccountEdgesQ,
                                          row: AccountRow, read: seq<Column>)
    requires read == if parentKey && fields != [] && Int64Column(ParentAccountID) !in fields
                     then fields + [Int64Column(ParentAccountID)] else fields
    ensures TreeRight(db, fields, parentKey, edges, row,
                      NaiveAccount(db, edges, ScanRow(AccountColumns(read, edges), row)))
    decreases edges, 1
  {
    hide ScanRow, AccountColumns, FieldsRead, LeavesRight, LeafTargetRight, TargetRight, Answer;
    hide NaiveGroups, NaiveTarget, NaiveAccountTarget, NaiveChildren, NaiveUsageLogs, NaiveJoins;
    var shown := ScanRow(AccountColumns(read, edges), row);
    NodeFieldsRead(fields, parentKey, edges, row, read);
    ColumnsHaveKeys(read, edges);
    ScannedID(AccountColumns(read, edges), row);
    if edges.groups.Some? {
      GroupsRight(db, edges.groups.value, row.id);
    }
    if edges.proxy.Some? {
      ProxyKeyRead(read, edges, row);
      if row.proxyID.Some? {
        LeafTargetFound(edges.proxy.value, db.proxies, row.proxyID.value);
      }
    }
    if edges.parent.Some? {
      ScannedParent(AccountColumns(read, edges), row);
    }
    TargetFound(db, edges.parent, row.parentAccountID);
    NoTarget(db, row.parentAccountID);
    if edges.children.Some? {
      ChildrenFound(db, edges.children.value, row.id);
    }
    if edges.usageLogs.Some? {
      LogsRight(db, edges.usageLogs.value, row.id);
    }
    if edges.accountGroups.Some? {
      JoinsFound(db, edges.accountGroups.value, row.id);
    }
    NothingAsked(db, edges, shown);
  }

  lemma {:induction false} ProxyKeyRead(read: seq<Column>, edges: AccountEdgesQ, row: AccountRow)
    requires edges.proxy.Some?
    ensures ScanRow(AccountColumns(read, edges), row).proxyID == row.proxyID
  {
    hide ScanRow, AccountColumns;
    ColumnsHaveKeys(read, edges);
    ScanRowCell(AccountColumns(read, edges), row, Int64Column(ProxyID));
  }

  lemma {:induction false} NothingAsked(db: DB, edges: AccountEdgesQ, shown: AccountRow)
    ensures var t := NaiveAccount(db, edges, shown);
            && (edges.groups.None? ==> t.groups == [])
            && (edges.proxy.None? || shown.proxyID.None? ==> t.proxy == None)
            && (edges.parent.None? ==> t.parent == None)
            && (edges.children.None? ==> t.children == [])
            && (edges.usageLogs.None? ==> t.usageLogs == [])
            && (edges.accountGroups.None? ==> t.accountGroups == [])
  {
  }

  lemma {:induction false} NodeFieldsRead(fields: seq<Column>, parentKey: bool, edges: AccountEdgesQ, row: AccountRow,
                                          read: seq<Column>)
    requires read == if parentKey && fields != [] && Int64Column(ParentAccountID) !in fields
                     then fields + [Int64Column(ParentAccountID)] else fields
    ensures FieldsRead(Selected(fields, edges.proxy.Some?, edges.parent.Some? || parentKey), row,
                       ScanRow(AccountColumns(read, edges), row))
  {
    hide ScanRow, AccountColumns, FieldsRead;
    var columns := AccountColumns(read, edges);
    var selected := Selected(fields, edges.proxy.Some?, edges.parent.Some? || parentKey);
    ScanRowReads(columns, row);
    forall c | ValidColumn(c) ensures Among(columns)(c) == selected(c) {
      ColumnsExactly(read, edges, c);
    }
    SameSelection(Among(columns), selected, row, ScanRow(columns, row));
  }

  lemma {:induction false} SameSelection(a: Column -> bool, b: Column -> bool, row: AccountRow, shown: AccountRow)
    requires FieldsRead(a, row, shown) && forall c :: ValidColumn(c) ==> a(c) == b(c)
    ensures FieldsRead(b, row, shown)
  {
    hide IntsRead, TimesRead, LateTimesRead, TextsRead, OthersRead;
    assert forall c :: ValidColumn(c) ==> Source(a, c, row) == Source(b, c, row);
    SameInts(a, b, row, shown);
    SameTimes(a, b, row, shown);
    SameLateTimes(a, b, row, shown);
    SameTexts(a, b, row, shown);
    SameOthers(a, b, row, shown);
  }

  lemma {:induction false} SameInts(a: Column -> bool, b: Column -> bool, row: AccountRow, shown: AccountRow)
    requires IntsRead(a, row, shown) && forall c :: ValidColumn(c) ==> Source(a, c, row) == Source(b, c, row)
    ensures IntsRead(b, row, shown)
  {
    hide Source;
  }

  lemma {:induction false} SameTimes(a: Column -> bool, b: Column -> bool, row: AccountRow, shown: AccountRow)
    requires TimesRead(a, row, shown) && forall c :: ValidColumn(c) ==> Source(a, c, row) == Source(b, c, row)
    ensures TimesRead(b, row, shown)
  {
    hide Source;
  }

  lemma {:induction false} SameLateTimes(a: Column -> bool, b: Column -> bool, row: AccountRow, shown: AccountRow)
    requires LateTimesRead(a, row, shown) && forall c :: ValidColumn(c) ==> Source(a, c, row) == Source(b, c, row)
    ensures LateTimesRead(b, row, shown)
  {
    hide Source;
  }

  lemma {:induction false} SameTexts(a: Column -> bool, b: Column -> bool, row: AccountRow, shown: AccountRow)
    requires TextsRead(a, row, shown) && forall c :: ValidColumn(c) ==> Source(a, c, row) == Source(b, c, row)
    ensures TextsRead(b, row, shown)
  {
    hide Source;
  }

  lemma {:induction false} SameOthers(a: Column -> bool, b: Column -> bool, row: AccountRow, shown: AccountRow)
    requires OthersRead(a, row, shown) && forall c :: ValidColumn(c) ==> Source(a, c, row) == Source(b, c, row)
    ensures OthersRead(b, row, shown)
  {
    hide Source;
  }

  lemma {:induction false} TreesFound(db: DB, fields: seq<Column>, parentKey: bool, q: AccountQ, rows: seq<AccountRow>,
                                      ts: seq<AccountTree>)
    requires q.sel.fields == if parentKey && fields != [] && Int64Column(ParentAccountID) !in fields
                             then fields + [Int64Column(ParentAccountID)] else fields
    requires rows == q.sel.Run(db.accounts) && ts == NaiveAccounts(db, q)
    ensures |ts| == |rows| && forall k :: 0 <= k < |rows| ==> TreeRight(db, fields, parentKey, q.edges, rows[k], ts[k])
    decreases q.edges, 2
  {
    hide TreeRight, ScanRow, AccountColumns, NaiveAccount;
    NaiveAccountsAsMap(db, q);
    forall k | 0 <= k < |rows| ensures TreeRight(db, fields, parentKey, q.edges, rows[k], ts[k]) {
      NaiveTreeRight(db, fields, parentKey, q.edges, rows[k], q.sel.fields);
    }
  }

  lemma {:induction false} TargetFound(db: DB, q: Option<AccountQ>, key: Option<int>)
    ensures TargetRight(db, q, key, NaiveAccountTarget(db, q, key))
    decreases q, 3
  {
    hide TreeRight, Answer, NaiveAccounts;
    if q.Some? && key.Some? {
      var asked := ParentQuery(q.value, [key.value]);
      var rows, ts := asked.sel.Run(db.accounts), NaiveAccounts(db, asked);
      RunAnswers(q.value.sel, AccountIDIn([key.value]), db.accounts);
      AnswerSame(q.value.sel, q.value.sel, AccountIDIn([key.value]), AccountOf(key.value), db.accounts, rows);
      TreesFound(db, q.value.sel.fields, false, asked, rows, ts);
      assert LastTreeRight(db, q.value, rows, LastOf(ts));
    }
  }

  lemma {:induction false} ChildrenFound(db: DB, q: AccountQ, account: int)
    ensures exists rows :: Answer(q.sel, ChildOfAccount(account), db.accounts, rows)
                           && TreesRight(db, q, true, rows, NaiveChildren(db, Some(q), account))
    decreases q.edges, 3
  {
    hide TreeRight, Answer, NaiveAccounts;
    var asked := ChildrenQuery(q, [account]);
    var rows, ts := asked.sel.Run(db.accounts), NaiveAccounts(db, asked);
    var needed := q.sel.NeedField(Int64Column(ParentAccountID));
    RunAnswers(needed, ParentIn([account]), db.accounts);
    AnswerSame(needed, q.sel, ParentIn([account]), ChildOfAccount(account), db.accounts, rows);
    TreesFound(db, q.sel.fields, true, asked, rows, ts);
    assert TreesRight(db, q, true, rows, ts);
  }

  lemma {:induction false} JoinsFound(db: DB, q: AccountGroupQ, account: int)
    ensures exists rows :: Answer(q.sel, OwnJoin(account), db.accountGroups, rows)
                           && JoinTreesRight(db, q, true, rows, NaiveJoins(db, Some(q), account))
    decreases q.edges, 3
  {
    hide JoinTreeRight, Answer, NaiveAccountGroups;
    var asked := AccountGroupsQuery(q, [account]);
    var rows, ts := asked.sel.Run(db.accountGroups), NaiveAccountGroups(db, asked);
    var needed := q.sel.NeedField(AccountIDField);
    RunAnswers(needed, JoinOwnerIn([account]), db.accountGroups);
    AnswerSame(needed, q.sel, JoinOwnerIn([account]), OwnJoin(account), db.accountGroups, rows);
    JoinTreesFound(db, q.sel.fields, true, asked, rows, ts);
    assert JoinTreesRight(db, q, true, rows, ts);
  }

  lemma {:induction false} JoinTreesFound(db: DB, fields: seq<AccountGroupColumn>, accountKey: bool, q: AccountGroupQ,
                                          rows: seq<AccountGroupRow>, ts: seq<AccountGroupTree>)
    requires q.sel.fields == if accountKey && fields != [] && AccountIDField !in fields
                             then fields + [AccountIDField] else fields
    requires rows == q.sel.Run(db.accountGroups) && ts == NaiveAccountGroups(db, q)
    ensures |ts| == |rows|
    ensures forall k :: 0 <= k < |rows| ==> JoinTreeRight(db, fields, accountKey, q.edges, rows[k], ts[k])
    decreases q.edges, 2
  {
    hide JoinTreeRight, NaiveAccountGroup, JoinColumns;
    NaiveAccountGroupsAsMap(db, q);
    forall k | 0 <= k < |rows| ensures JoinTreeRight(db, fields, accountKey, q.edges, rows[k], ts[k]) {
      NaiveJoinRight(db, fields, accountKey, q.edges, rows[k], q.sel.fields);
    }
  }

  lemma {:induction false} NaiveJoinRight(db: DB, fields: seq<AccountGroupColumn>, accountKey: bool,
                                          edges: AccountGroupEdgesQ, row: AccountGroupRow,
                                          read: seq<AccountGroupColumn>)
    requires read == if accountKey && fields != [] && AccountIDField !in fields
                     then fields + [AccountIDField] else fields
    ensures JoinTreeRight(db, fields, accountKey, edges, row,
                          NaiveAccountGroup(db, edges, ScanAccountGroup(JoinColumns(read, edges), row)))
    decreases edges, 1
  {
    hide LeafTargetRight, TargetRight, NaiveTarget, NaiveAccountTarget;
    var shown := ScanAccountGroup(JoinColumns(read, edges), row);
    ScanJoinReads(read, edges, row);
    NoTarget(db, Some(shown.accountID));
    NoTarget(db, Some(row.accountID));
    NoLeafTarget(db.groups, Some(shown.groupID));
    TargetFound(db, edges.account, Some(row.accountID));
    if edges.group.Some? {
      LeafTargetFound(edges.group.value, db.groups, row.groupID);
    }
  }

  lemma {:induction false} NoLeafTarget(table: seq<LeafRow>, key: Option<int>)
    ensures NaiveTarget(None, table, key) == None
  {
  }

  lemma {:induction false} NoTarget(db: DB, key: Option<int>)
    ensures NaiveAccountTarget(db, None, key) == None
  {
  }

  // ======== and so is what is loaded ========

  /** For every query tree with unlimited edges: the accounts that are due, in the order the caller gave, with the
      columns the caller selected, and so at every edge, at every depth. */
  lemma {:induction false} LoadedRight(db: DB, q: AccountQ)
    requires WellFormed(db) && EdgesUnlimited(q.edges)
    ensures exists rows :: Answer(q.sel, Anything(), db.accounts, rows)
                           && TreesRight(db, q, false, rows, LoadAccounts(db, q))
  {
    hide TreeRight, Answer, NaiveAccounts, LoadAccounts;
    var rows := q.sel.Run(db.accounts);
    LoadIsNaive(db, q);
    WholeAnswer(q.sel, db.accounts);
    TreesFound(db, q.sel.fields, false, q, rows, NaiveAccounts(db, q));
    assert TreesRight(db, q, false, rows, NaiveAccounts(db, q));
  }

  lemma {:induction false} LoadedJoinsRight(db: DB, q: AccountGroupQ)
    requires WellFormed(db) && JoinEdgesUnlimited(q.edges)
    ensures exists rows :: Answer(q.sel, Anything(), db.accountGroups, rows)
                           && JoinTreesRight(db, q, false, rows, LoadAccountGroups(db, q))
  {
    hide JoinTreeRight, Answer, NaiveAccountGroups, LoadAccountGroups;
    var rows := q.sel.Run(db.accountGroups);
    LoadJoinsIsNaive(db, q);
    WholeAnswer(q.sel, db.accountGroups);
    JoinTreesFound(db, q.sel.fields, false, q, rows, NaiveAccountGroups(db, q));
    assert JoinTreesRight(db, q, false, rows, NaiveAccountGroups(db, q));
  }

  lemma {:induction false} WholeAnswer<C, R(!new)>(sel: Selection<C, R>, table: seq<R>)
    ensures Answer(sel, Anything(), table, sel.Run(table))
  {
    hide Answer, StableSort, Filter;
    RunAnswers(sel, Anything(), table);
    forall r | r in table ensures sel.Where(Anything()).Test()(r) == sel.Test()(r) {
      WhereHolds(sel, Anything(), r);
    }
    FilterSame(table, sel.Where(Anything()).Test(), sel.Test());
    assert sel.Where(Anything()).Run(table) == sel.Run(table);
  }
}
