/** What was saved in bulk can be loaded: a query for the reported ids returns the nodes the save returned. */
module SavedAccounts {
  import opened Basics
  import opened AccountEntity
  import opened AccountScan
  import opened AccountCreate
  import opened AccountSpec
  import opened AccountEdges
  import opened BulkCreate
  import opened Selections
  import opened EagerModel
  import opened EagerSpec

  /** The row the database keeps for a spec, as reading all its columns shows it. */
  function StoredRow(id: int, fields: seq<(Column, Value)>, edges: seq<EdgeSpec>): AccountRow {
    match AssignAll(BLANK, ALL_COLUMNS, Map(Stored(id, fields, edges), ALL_COLUMNS))
    case Ok(s) => s.row
    case Err(_) => ZERO_ROW
  }

  lemma {:induction false} StoredIsCreated(d: Draft, rt: Runtime, id: int)
    ensures StoredRow(id, SpecFields(d, |SPECIFIED|), SpecEdges(d, rt)) == CreatedRow(d).(id := id)
  {
    hide Stored, SpecFields, SpecEdges, CreatedRow, AssignAll;
    forall c ensures c in ALL_COLUMNS <==> ValidColumn(c) {
      AllColumnsListed(c);
    }
    WriteReadRoundTrip(d, rt, id, ALL_COLUMNS);
  }

  lemma {:induction false} AllColumnsListed(c: Column)
    ensures c in ALL_COLUMNS <==> ValidColumn(c)
  {
    if ValidColumn(c) {
      var i := ColumnPosition(c);
    } else {
      NoOther(c.name);
    }
  }

  lemma {:induction false} NoOther(name: string)
    ensures Other(name) !in ALL_COLUMNS
  {
  }

  function ByIDs(ids: seq<int>): AccountQ {
    AccountQ(Selection([], [AccountIDIn(ids)], [], None, None), [], NO_ACCOUNT_EDGES)
  }

  lemma {:induction false} NewRowsFound(stored: seq<AccountRow>, rows: seq<AccountRow>, ids: seq<int>)
    requires forall r :: r in rows ==> r.id in ids
    requires forall r :: r in stored ==> r.id !in ids
    ensures ByIDs(ids).sel.Run(stored + rows) == rows
  {
    hide Filter, StableSort;
    var p := ByIDs(ids).sel.Test();
    forall r ensures p(r) <==> r.id in ids {
      assert ByIDs(ids).sel.preds[0] == AccountIDIn(ids);
    }
    FilterConcat(stored, rows, p);
    FilterNone(stored, p);
    FilterAll(rows, p);
    assert [] + rows == rows;
    Unsorted(rows);
  }

  /** After a save that succeeded, with the described rows stored under the reported ids, which were new: a query for
      the ids of the returned nodes returns what these nodes show, in order. */
  lemma {:induction false} SavedThenLoaded(run: BulkRun, ds: seq<Draft>, db: DB, rows: seq<AccountRow>, ids: seq<int>)
    requires |ds| == |run.specs| == |run.nodes| == |rows| == |ids|
    requires run.Filled(ds, |ds|) && run.Numbered(0)
    requires forall j :: 0 <= j < |rows| ==>
               rows[j] == StoredRow(Assigned(run.answer, j), run.specs[j].fields, run.specs[j].edges)
    requires forall j :: 0 <= j < |ids| ==> ids[j] == run.nodes[j].row.id
    requires forall r :: r in db.accounts ==> r.id !in ids
    ensures var found := LoadAccounts(db.(accounts := db.accounts + rows), ByIDs(ids));
            |found| == |run.nodes| && forall j :: 0 <= j < |found| ==> found[j].row == run.nodes[j].row
  {
    hide StoredRow, SpecFields, SpecEdges, CreatedRow, StableSort, Filter, ScanRow, AttachAccounts;
    var after := db.(accounts := db.accounts + rows);
    forall j | 0 <= j < |rows| ensures rows[j] == run.nodes[j].row {
      StoredIsCreated(ds[j], run.rt, Assigned(run.answer, j));
    }
    NewRowsFound(db.accounts, rows, ids);
    forall j | 0 <= j < |rows| ensures ScanAccounts(after, ByIDs(ids))[j] == rows[j] {
      ScanAllColumns(ALL_COLUMNS, rows[j]);
    }
    forall j | 0 <= j < |rows| ensures LoadAccounts(after, ByIDs(ids))[j].row == rows[j] {
      RowKept(after, ScanAccounts(after, ByIDs(ids)), NO_ACCOUNT_EDGES, j);
    }
  }

  lemma {:induction false} RowKept(db: DB, rows: seq<AccountRow>, edges: AccountEdgesQ, j: nat)
    requires j < |rows|
    ensures AttachAccounts(db, rows, edges)[j].row == rows[j]
  {
    hide GroupsShare, LeafTarget, AccountTarget, ChildrenShare, UsageLogsShare, AccountGroupsShare;
  }

  /** The specs of a save that was carried out put every new account into exactly its groups, and claim exactly its
      children and usage logs. */
  lemma {:induction false} SavedEdges(run: BulkRun, ds: seq<Draft>, j: nat, account: int)
    requires |ds| == |run.specs| == |run.nodes| && j < |ds| && run.Filled(ds, |ds|)
    ensures var edges := run.specs[j].edges;
            && |JoinRows(edges, account)| == |ds[j].groups|
            && (forall i :: 0 <= i < |ds[j].groups| ==>
                  JoinRows(edges, account)[i]
                  == AccountGroupRow(account, ds[j].groups[i], run.rt.joinPriority, run.rt.joinCreatedAt))
            && Claimed(edges, "accounts", "parent_account_id") == ds[j].children
            && Claimed(edges, "usage_logs", "account_id") == ds[j].usageLogs
            && ForeignKey(edges, "proxy_id") == ds[j].proxy && ForeignKey(edges, "parent_account_id") == ds[j].parent
  {
    hide JoinRows, Claimed, ForeignKey, SpecFields, SpecEdges, CreatedRow;
    JoinsWritten(ds[j], run.rt, account);
    RowsClaimed(ds[j], run.rt);
    KeysWritten(ds[j], run.rt);
  }
}
