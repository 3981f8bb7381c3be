/** What the edge accessors of a loaded account answer. */
module EagerAccessors {
  import opened Basics
  import opened AccountEntity
  import opened Selections
  import opened EagerModel
  import opened EagerSpec
  import opened EagerNaive
  import opened EagerRefinement
  import opened Nodes

  /** A to-one edge: not loaded if it was not requested, not found if there is no target, else the target. */
  ghost predicate Answers<N, T>(answer: Result<N, EdgeError>, requested: bool, target: Option<T>, edge: string,
                                kind: string) {
    match answer
    case Ok(_) => requested && target.Some?
    case Err(NotLoaded(e)) => !requested && e == edge
    case Err(NotFound(l)) => requested && target.None? && l == kind
  }

  /** After an eager load the to-many accessors answer with the loaded list exactly if the edge was requested. */
  lemma {:induction false} ToManyAccessors(db: DB, q: AccountQ, nodes: seq<Account>, S: set<object>, i: nat)
    requires WellFormed(db) && EdgesUnlimited(q.edges) && AccountsShow(nodes, LoadAccounts(db, q), S) && i < |nodes|
    ensures |nodes[i].loaded| == 6
    ensures nodes[i].GroupsOrErr() == if q.edges.groups.Some? then Ok(nodes[i].groups) else Err(NotLoaded("groups"))
    ensures nodes[i].ChildrenOrErr() == if q.edges.children.Some? then Ok(nodes[i].children)
              else Err(NotLoaded("children"))
    ensures nodes[i].UsageLogsOrErr() == if q.edges.usageLogs.Some? then Ok(nodes[i].usageLogs)
              else Err(NotLoaded("usage_logs"))
    ensures nodes[i].AccountGroupsOrErr()
         == if q.edges.accountGroups.Some? then Ok(nodes[i].accountGroups) else Err(NotLoaded("account_groups"))
    ensures LeavesShow(nodes[i].groups, NaiveGroups(db, q.edges.groups, nodes[i].row.id), S)
    ensures AccountsShow(nodes[i].children, NaiveChildren(db, q.edges.children, nodes[i].row.id), S)
    ensures LeavesShow(nodes[i].usageLogs, NaiveUsageLogs(db, q.edges.usageLogs, nodes[i].row.id), S)
    ensures JoinsShow(nodes[i].accountGroups, NaiveJoins(db, q.edges.accountGroups, nodes[i].row.id), S)
  {
    hide NaiveGroups, NaiveChildren, NaiveUsageLogs, NaiveJoins, NaiveTarget, NaiveAccountTarget;
    var t := LoadedNode(db, q, nodes, S, i);
  }

  /** And the to-one accessors tell an edge that was never requested from one without a target. */
  lemma {:induction false} ToOneAccessors(db: DB, q: AccountQ, nodes: seq<Account>, S: set<object>, i: nat)
    requires WellFormed(db) && EdgesUnlimited(q.edges) && AccountsShow(nodes, LoadAccounts(db, q), S) && i < |nodes|
    ensures |nodes[i].loaded| == 6
    ensures var target := NaiveTarget(q.edges.proxy, db.proxies, nodes[i].row.proxyID);
            && Answers(nodes[i].ProxyOrErr(), q.edges.proxy.Some?, target, "proxy", "proxy")
            && (target.Some? ==> nodes[i].ProxyOrErr() == Ok(nodes[i].proxy) && LeafShows(nodes[i].proxy, target, S))
    ensures var target := NaiveAccountTarget(db, q.edges.parent, nodes[i].row.parentAccountID);
            && Answers(nodes[i].ParentOrErr(), q.edges.parent.Some?, target, "parent", "account")
            && (target.Some? ==>
                  nodes[i].ParentOrErr() == Ok(nodes[i].parent) && TargetShows(nodes[i].parent, target, S))
  {
    hide NaiveGroups, NaiveChildren, NaiveUsageLogs, NaiveJoins, NaiveAccounts, LeafNodes;
    var t := LoadedNode(db, q, nodes, S, i);
  }

  /** The same for the edges of a join row. */
  lemma {:induction false} JoinAccessors(db: DB, q: AccountGroupQ, nodes: seq<AccountGroup>, S: set<object>, i: nat)
    requires WellFormed(db) && JoinEdgesUnlimited(q.edges) && JoinsShow(nodes, LoadAccountGroups(db, q), S)
             && i < |nodes|
    ensures |nodes[i].loaded| == 2
    ensures var target := NaiveAccountTarget(db, q.edges.account, Some(nodes[i].row.accountID));
            && Answers(nodes[i].AccountOrErr(), q.edges.account.Some?, target, "account", "account")
            && (target.Some? ==>
                  nodes[i].AccountOrErr() == Ok(nodes[i].account) && TargetShows(nodes[i].account, target, S))
    ensures var target := NaiveTarget(q.edges.group, db.groups, Some(nodes[i].row.groupID));
            && Answers(nodes[i].GroupOrErr(), q.edges.group.Some?, target, "group", "group")
            && (target.Some? ==> nodes[i].GroupOrErr() == Ok(nodes[i].group) && LeafShows(nodes[i].group, target, S))
  {
    hide NaiveAccounts, LeafNodes, LoadAccountGroups;
    LoadJoinsIsNaive(db, q);
    var ts := LoadAccountGroups(db, q);
    var t := ts[i];
    assert JoinShows(nodes[i], t, S);
    assert t == NaiveAccountGroup(db, q.edges, t.row);
  }

  lemma {:induction false} LoadedNode(db: DB, q: AccountQ, nodes: seq<Account>, S: set<object>, i: nat)
    returns (t: AccountTree)
    requires WellFormed(db) && EdgesUnlimited(q.edges) && AccountsShow(nodes, LoadAccounts(db, q), S) && i < |nodes|
    ensures Shows(nodes[i], t, S) && t == NaiveAccount(db, q.edges, nodes[i].row)
  {
    hide NaiveAccount, LoadAccounts, ScanAccounts;
    LoadIsNaive(db, q);
    var ts := LoadAccounts(db, q);
    t := ts[i];
    assert Shows(nodes[i], t, S);
    NaiveRow(db, q.edges, ScanAccounts(db, q)[i]);
  }

  lemma {:induction false} NaiveRow(db: DB, edges: AccountEdgesQ, row: AccountRow)
    ensures NaiveAccount(db, edges, row).row == row
  {
  }

  lemma {:induction false} RunExactly<C, R(!new)>(sel: Selection<C, R>, added: R -> bool, table: seq<R>, r: R)
    requires sel.Unlimited()
    ensures r in sel.Where(added).Run(table) <==> r in table && added(r) && sel.Holds(r)
  {
    MatchingMember(sel.Where(added), table, r);
    WhereHolds(sel, added, r);
  }

  /** A to-one edge has no target exactly if the key is unset or no row with that id meets the edge query. */
  lemma {:induction false} NoTarget(q: LeafQ, table: seq<LeafRow>, key: Option<int>)
    requires q.sel.Unlimited()
    ensures NaiveTarget(Some(q), table, key).None?
       <==> key.None? || !exists r :: r in table && r.id == key.value && q.sel.Holds(r)
  {
    if key.Some? {
      var added := LeafIDIn([key.value]);
      var found := q.sel.Where(added).Run(table);
      assert |LeafNodes(q, added, table)| == |found|;
      if found != [] {
        RunExactly(q.sel, added, table, found[0]);
      }
      if r :| r in table && r.id == key.value && q.sel.Holds(r) {
        RunExactly(q.sel, added, table, r);
      }
    }
  }

  lemma {:induction false} NoAccountTarget(db: DB, q: AccountQ, key: Option<int>)
    requires q.sel.Unlimited()
    ensures NaiveAccountTarget(db, Some(q), key).None?
       <==> key.None? || !exists r :: r in db.accounts && r.id == key.value && q.sel.Holds(r)
  {
    if key.Some? {
      var added := AccountIDIn([key.value]);
      var found := q.sel.Where(added).Run(db.accounts);
      assert |NaiveAccounts(db, ParentQuery(q, [key.value]))| == |found|;
      if found != [] {
        RunExactly(q.sel, added, db.accounts, found[0]);
      }
      if r :| r in db.accounts && r.id == key.value && q.sel.Holds(r) {
        RunExactly(q.sel, added, db.accounts, r);
      }
    }
  }
}
