/** The values eager loading works on: tables, query trees and the trees of loaded nodes. */
module EagerModel {
  import opened Basics
  import opened AccountEntity
  import opened Selections

  // ---- tables ----

  datatype AccountGroupRow = AccountGroupRow(accountID: int, groupID: int, priority: int, createdAt: Time)

  datatype AccountGroupColumn = AccountIDField | GroupIDField | PriorityField | CreatedAtField
    | OtherField(name: string)

  predicate ValidAccountGroupColumn(c: AccountGroupColumn) {
    !c.OtherField?
  }

  // Groups, proxies and usage logs. Only usage logs have an owning account; for the others it is 0.
  datatype LeafRow = LeafRow(id: int, accountID: int, attributes: map<string, string>)

  datatype LeafColumn = LeafID | OwnerID | Attribute(name: string) | Unlisted(name: string)

  predicate ValidLeafColumn(c: LeafColumn) {
    !c.Unlisted?
  }

  datatype DB = DB(
    accounts: seq<AccountRow>, groups: seq<LeafRow>, proxies: seq<LeafRow>, usageLogs: seq<LeafRow>,
    accountGroups: seq<AccountGroupRow>)

  /** Primary keys are unique, where the loaders rely on it. */
  ghost predicate WellFormed(db: DB) {
    && (forall i, j :: 0 <= i < j < |db.accounts| ==> db.accounts[i].id != db.accounts[j].id)
    && (forall i, j :: 0 <= i < j < |db.groups| ==> db.groups[i].id != db.groups[j].id)
  }

  // ---- query trees ----

  // The locking clauses a builder collects as modifiers, with the options the caller gave. What a lock does to
  // the rows of a query is a matter of the database and not modelled.
  datatype LockOption = NoWait | SkipLocked | Tables(names: seq<string>) | Clause(text: string)

  datatype Lock = ForUpdate(options: seq<LockOption>) | ForShare(options: seq<LockOption>)

  datatype LeafQ = LeafQ(sel: Selection<LeafColumn, LeafRow>, locks: seq<Lock>)

  datatype AccountQ = AccountQ(sel: Selection<Column, AccountRow>, locks: seq<Lock>, edges: AccountEdgesQ)

  datatype AccountEdgesQ = AccountEdgesQ(
    groups: Option<LeafQ>, proxy: Option<LeafQ>, parent: Option<AccountQ>, children: Option<AccountQ>,
    usageLogs: Option<LeafQ>, accountGroups: Option<AccountGroupQ>)
  {
    /** loadedTypes: which edges were requested, by position. */
    function Loaded(): seq<bool> {
      [groups.Some?, proxy.Some?, parent.Some?, children.Some?, usageLogs.Some?, accountGroups.Some?]
    }
  }

  datatype AccountGroupQ = AccountGroupQ(
    sel: Selection<AccountGroupColumn, AccountGroupRow>, locks: seq<Lock>, edges: AccountGroupEdgesQ)

  datatype AccountGroupEdgesQ = AccountGroupEdgesQ(account: Option<AccountQ>, group: Option<LeafQ>)
  {
    function Loaded(): seq<bool> {
      [account.Some?, group.Some?]
    }
  }

  const NO_ACCOUNT_EDGES := AccountEdgesQ(None, None, None, None, None, None)

  /** No edge query, at any depth, has a limit or an offset; the root query may have both. */
  predicate EdgesUnlimited(edges: AccountEdgesQ) {
    && (edges.groups.Some? ==> edges.groups.value.sel.Unlimited())
    && (edges.proxy.Some? ==> edges.proxy.value.sel.Unlimited())
    && (edges.parent.Some? ==> edges.parent.value.sel.Unlimited() && EdgesUnlimited(edges.parent.value.edges))
    && (edges.children.Some? ==> edges.children.value.sel.Unlimited() && EdgesUnlimited(edges.children.value.edges))
    && (edges.usageLogs.Some? ==> edges.usageLogs.value.sel.Unlimited())
    && (edges.accountGroups.Some? ==>
          edges.accountGroups.value.sel.Unlimited() && JoinEdgesUnlimited(edges.accountGroups.value.edges))
  }

  predicate JoinEdgesUnlimited(edges: AccountGroupEdgesQ) {
    && (edges.account.Some? ==> edges.account.value.sel.Unlimited() && EdgesUnlimited(edges.account.value.edges))
    && (edges.group.Some? ==> edges.group.value.sel.Unlimited())
  }

  // ---- loaded nodes ----

  datatype AccountTree = AccountTree(
    row: AccountRow, loaded: seq<bool>, groups: seq<LeafRow>, proxy: Option<LeafRow>, parent: Option<AccountTree>,
    children: seq<AccountTree>, usageLogs: seq<LeafRow>, accountGroups: seq<AccountGroupTree>)

  datatype AccountGroupTree = AccountGroupTree(
    row: AccountGroupRow, loaded: seq<bool>, account: Option<AccountTree>, group: Option<LeafRow>)

  // ---- projections (querySpec) and scanning ----

  function AddColumnOnce(columns: seq<Column>, c: Column): seq<Column> {
    if c in columns then columns else columns + [c]
  }

  /** The columns an account query selects: the id first and once, then the caller's, then the foreign keys
      its edges need. Without an explicit projection it is every column. */
  function AccountColumns(fields: seq<Column>, edges: AccountEdgesQ): seq<Column> {
    if fields == [] then ALL_COLUMNS
    else
      var chosen := [Int64Column(ID)] + Filter(fields, (c: Column) => c != Int64Column(ID));
      var withProxy := if edges.proxy.Some? then AddColumnOnce(chosen, Int64Column(ProxyID)) else chosen;
      if edges.parent.Some? then AddColumnOnce(withProxy, Int64Column(ParentAccountID)) else withProxy
  }

  const ALL_JOIN_COLUMNS := [AccountIDField, GroupIDField, PriorityField, CreatedAtField]

  function JoinColumns(fields: seq<AccountGroupColumn>, edges: AccountGroupEdgesQ): seq<AccountGroupColumn> {
    if fields == [] then ALL_JOIN_COLUMNS
    else
      var withAccount :=
        if edges.account.Some? && AccountIDField !in fields then fields + [AccountIDField] else fields;
      if edges.group.Some? && GroupIDField !in withAccount then withAccount + [GroupIDField] else withAccount
  }

  function ScanAccountGroup(columns: seq<AccountGroupColumn>, row: AccountGroupRow): AccountGroupRow {
    AccountGroupRow(
      if AccountIDField in columns then row.accountID else 0,
      if GroupIDField in columns then row.groupID else 0,
      if PriorityField in columns then row.priority else 0,
      if CreatedAtField in columns then row.createdAt else 0)
  }

  /** Leaf queries, too, always select the id. */
  function ScanLeaf(fields: seq<LeafColumn>, row: LeafRow): LeafRow {
    if fields == [] then row
    else LeafRow(row.id, if OwnerID in fields then row.accountID else 0,
                 map a | a in row.attributes && Attribute(a) in fields :: row.attributes[a])
  }

  // ---- the predicates the loaders add ----

  function AccountIDIn(ids: seq<int>): AccountRow -> bool {
    (r: AccountRow) => r.id in ids
  }

  function ParentIn(ids: seq<int>): AccountRow -> bool {
    (r: AccountRow) => r.parentAccountID.Some? && r.parentAccountID.value in ids
  }

  function LeafIDIn(ids: seq<int>): LeafRow -> bool {
    (r: LeafRow) => r.id in ids
  }

  function OwnerIn(ids: seq<int>): LeafRow -> bool {
    (r: LeafRow) => r.accountID in ids
  }

  function JoinOwnerIn(ids: seq<int>): AccountGroupRow -> bool {
    (r: AccountGroupRow) => r.accountID in ids
  }

  // ---- keys of loaded nodes ----

  function IDs(rows: seq<AccountRow>): seq<int> {
    seq(|rows|, i requires 0 <= i < |rows| => rows[i].id)
  }

  function TreeIDs(trees: seq<AccountTree>): seq<int> {
    seq(|trees|, i requires 0 <= i < |trees| => trees[i].row.id)
  }

  function TreeParents(trees: seq<AccountTree>): seq<Option<int>> {
    seq(|trees|, i requires 0 <= i < |trees| => trees[i].row.parentAccountID)
  }

  function JoinOwners(trees: seq<AccountGroupTree>): seq<int> {
    seq(|trees|, i requires 0 <= i < |trees| => trees[i].row.accountID)
  }

  function LeafIDs(rows: seq<LeafRow>): seq<int> {
    seq(|rows|, i requires 0 <= i < |rows| => rows[i].id)
  }

  function LeafOwners(rows: seq<LeafRow>): seq<int> {
    seq(|rows|, i requires 0 <= i < |rows| => rows[i].accountID)
  }

  function ProxyKeys(rows: seq<AccountRow>): seq<Option<int>> {
    seq(|rows|, i requires 0 <= i < |rows| => rows[i].proxyID)
  }

  function ParentKeys(rows: seq<AccountRow>): seq<Option<int>> {
    seq(|rows|, i requires 0 <= i < |rows| => rows[i].parentAccountID)
  }

  function AccountKeys(rows: seq<AccountGroupRow>): seq<Option<int>> {
    seq(|rows|, i requires 0 <= i < |rows| => Some(rows[i].accountID))
  }

  function GroupKeys(rows: seq<AccountGroupRow>): seq<Option<int>> {
    seq(|rows|, i requires 0 <= i < |rows| => Some(rows[i].groupID))
  }

  /** The keys that are present, each once, in order of first appearance. */
  function PresentKeys(keys: seq<Option<int>>): (ids: seq<int>)
  {
    if keys == [] then []
    else
      var n := |keys| - 1;
      var ids := PresentKeys(keys[..n]);
      if keys[n].None? || keys[n].value in ids then ids else ids + [keys[n].value]
  }
}
