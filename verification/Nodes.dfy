/** Loaded entities as mutable objects, what it means for them to show a tree of values, and the accessors that
    tell a missing edge from one that was never requested. */
module Nodes {
  import opened Basics
  import opened AccountEntity
  import opened EagerModel

  /** A loaded group, proxy or usage log. */
  class LeafNode {
    var row: LeafRow

    constructor (row: LeafRow)
      ensures this.row == row
    {
      this.row := row;
    }
  }

  datatype EdgeError = NotLoaded(edge: string) | NotFound(edge: string)

  class Account {
    var row: AccountRow
    var selectValues: map<string, Holder>
    var loaded: seq<bool>
    var groups: seq<LeafNode>
    var proxy: LeafNode?
    var parent: Account?
    var children: seq<Account>
    var usageLogs: seq<LeafNode>
    var accountGroups: seq<AccountGroup>

    constructor (loaded: seq<bool>)
      ensures row == ZERO_ROW && selectValues == map[] && this.loaded == loaded
      ensures groups == [] && proxy == null && parent == null && children == [] && usageLogs == []
              && accountGroups == []
    {
      row, selectValues, this.loaded := ZERO_ROW, map[], loaded;
      groups, proxy, parent, children, usageLogs, accountGroups := [], null, null, [], [], [];
    }

    /** One empty holder per column, of the kind assignValues will ask for. */
    static method ScanValues(columns: seq<Column>) returns (values: array<Holder>)
      ensures fresh(values) && values.Length == |columns|
      ensures forall i :: 0 <= i < |columns| ==> values[i] == EmptyHolder(KindOf(columns[i]))
    {
      values := new Holder[|columns|](i => EmptyHolder(UnknownKind));
      for i := 0 to |columns|
        invariant forall j :: 0 <= j < i ==> values[j] == EmptyHolder(KindOf(columns[j]))
      {
        values[i] := EmptyHolder(KindOf(columns[i]));
      }
    }

    /** Assigns the scanned values column by column; on an error the columns before it stay assigned. */
    method AssignValues(columns: seq<Column>, values: array<Holder>) returns (err: Option<AssignError>)
      modifies `row, `selectValues
      ensures values.Length < |columns| ==>
                err == Some(CountMismatch(values.Length, |columns|)) && row == old(row)
                && selectValues == old(selectValues)
      ensures values.Length >= |columns| ==>
                match AssignAll(Scanned(old(row), old(selectValues)), columns, values[..])
                case Ok(s) => err == None && Scanned(row, selectValues) == s
                case Err(e) =>
                  err == Some(e)
                  && exists k :: 0 <= k < |columns|
                                 && AssignColumn(Scanned(row, selectValues), columns[k], values[k]) == Err(e)
                                 && AssignAll(Scanned(old(row), old(selectValues)), columns[..k], values[..])
                                    == Ok(Scanned(row, selectValues))
    {
      if values.Length < |columns| {
        return Some(CountMismatch(values.Length, |columns|));
      }
      ghost var start := Scanned(row, selectValues);
      for i := 0 to |columns|
        invariant AssignAll(start, columns[..i], values[..]) == Ok(Scanned(row, selectValues))
      {
        assert columns[..i + 1][..i] == columns[..i];
        match AssignColumn(Scanned(row, selectValues), columns[i], values[i])
        case Ok(s) =>
          row, selectValues := s.row, s.selectValues;
        case Err(e) =>
          AssignErrors(start, columns, i + 1, values[..]);
          return Some(e);
      }
      assert columns[..|columns|] == columns;
      return None;
    }

    // ---- accessors ----

    function GroupsOrErr(): Result<seq<LeafNode>, EdgeError>
      requires |loaded| == 6
      reads this
    {
      if loaded[0] then Ok(groups) else Err(NotLoaded("groups"))
    }

    function ProxyOrErr(): Result<LeafNode, EdgeError>
      requires |loaded| == 6
      reads this
    {
      if proxy != null then Ok(proxy) else if loaded[1] then Err(NotFound("proxy")) else Err(NotLoaded("proxy"))
    }

    function ParentOrErr(): Result<Account, EdgeError>
      requires |loaded| == 6
      reads this
    {
      if parent != null then Ok(parent) else if loaded[2] then Err(NotFound("account")) else Err(NotLoaded("parent"))
    }

    function ChildrenOrErr(): Result<seq<Account>, EdgeError>
      requires |loaded| == 6
      reads this
    {
      if loaded[3] then Ok(children) else Err(NotLoaded("children"))
    }

    function UsageLogsOrErr(): Result<seq<LeafNode>, EdgeError>
      requires |loaded| == 6
      reads this
    {
      if loaded[4] then Ok(usageLogs) else Err(NotLoaded("usage_logs"))
    }

    function AccountGroupsOrErr(): Result<seq<AccountGroup>, EdgeError>
      requires |loaded| == 6
      reads this
    {
      if loaded[5] then Ok(accountGroups) else Err(NotLoaded("account_groups"))
    }
  }

  class AccountGroup {
    var row: AccountGroupRow
    var loaded: seq<bool>
    var account: Account?
    var group: LeafNode?

    constructor (row: AccountGroupRow, loaded: seq<bool>)
      ensures this.row == row && this.loaded == loaded && account == null && group == null
    {
      this.row, this.loaded, account, group := row, loaded, null, null;
    }

    function AccountOrErr(): Result<Account, EdgeError>
      requires |loaded| == 2
      reads this
    {
      if account != null then Ok(account) else if loaded[0] then Err(NotFound("account")) else Err(NotLoaded("account"))
    }

    function GroupOrErr(): Result<LeafNode, EdgeError>
      requires |loaded| == 2
      reads this
    {
      if group != null then Ok(group) else if loaded[1] then Err(NotFound("group")) else Err(NotLoaded("group"))
    }
  }

  /** Once a prefix fails, the whole list fails in the same way. */
  lemma {:induction false} AssignErrors(s: Scanned, columns: seq<Column>, i: nat, values: seq<Holder>)
    requires i <= |columns| <= |values| && AssignAll(s, columns[..i], values).Err?
    ensures AssignAll(s, columns, values) == AssignAll(s, columns[..i], values)
  {
    if i == |columns| {
      assert columns[..i] == columns;
    } else {
      var init := columns[..|columns| - 1];
      assert init[..i] == columns[..i];
      AssignErrors(s, init, i, values);
    }
  }

  // ======== objects showing values ========

  ghost predicate LeafShows(n: LeafNode?, r: Option<LeafRow>, S: set<object>)
    reads S
  {
    (n == null <==> r.None?) && (n != null ==> n in S && n.row == r.value)
  }

  ghost predicate LeavesShow(ns: seq<LeafNode>, rs: seq<LeafRow>, S: set<object>)
    reads S
  {
    |ns| == |rs| && forall i :: 0 <= i < |ns| ==> ns[i] in S && ns[i].row == rs[i]
  }

  /** The object graph hanging from n, inside S, unfolds to the tree t. */
  ghost predicate Shows(n: Account, t: AccountTree, S: set<object>)
    reads S
    decreases t, 1
  {
    && n in S && n.row == t.row && n.loaded == t.loaded
    && LeavesShow(n.groups, t.groups, S)
    && LeafShows(n.proxy, t.proxy, S)
    && TargetShows(n.parent, t.parent, S)
    && AccountsShow(n.children, t.children, S)
    && LeavesShow(n.usageLogs, t.usageLogs, S)
    && JoinsShow(n.accountGroups, t.accountGroups, S)
  }

  ghost predicate TargetShows(n: Account?, t: Option<AccountTree>, S: set<object>)
    reads S
    decreases t, 2
  {
    (n == null <==> t.None?) && (n != null ==> Shows(n, t.value, S))
  }

  ghost predicate AccountsShow(ns: seq<Account>, ts: seq<AccountTree>, S: set<object>)
    reads S
    decreases ts, 2
  {
    |ns| == |ts| && forall i :: 0 <= i < |ns| ==> Shows(ns[i], ts[i], S)
  }

  ghost predicate JoinShows(n: AccountGroup, t: AccountGroupTree, S: set<object>)
    reads S
    decreases t, 1
  {
    && n in S && n.row == t.row && n.loaded == t.loaded
    && TargetShows(n.account, t.account, S)
    && LeafShows(n.group, t.group, S)
  }

  ghost predicate JoinsShow(ns: seq<AccountGroup>, ts: seq<AccountGroupTree>, S: set<object>)
    reads S
    decreases ts, 2
  {
    |ns| == |ts| && forall i :: 0 <= i < |ns| ==> JoinShows(ns[i], ts[i], S)
  }

  // ---- a larger set of objects shows the same ----

  lemma {:induction false} ShowsMore(n: Account, t: AccountTree, S: set<object>, T: set<object>)
    requires Shows(n, t, S) && S <= T
    ensures Shows(n, t, T)
    decreases t, 1
  {
    TargetShowsMore(n.parent, t.parent, S, T);
    AccountsShowMore(n.children, t.children, S, T);
    JoinsShowMore(n.accountGroups, t.accountGroups, S, T);
  }

  lemma {:induction false} TargetShowsMore(n: Account?, t: Option<AccountTree>, S: set<object>, T: set<object>)
    requires TargetShows(n, t, S) && S <= T
    ensures TargetShows(n, t, T)
    decreases t, 2
  {
    if n != null {
      ShowsMore(n, t.value, S, T);
    }
  }

  lemma {:induction false} AccountsShowMore(ns: seq<Account>, ts: seq<AccountTree>, S: set<object>, T: set<object>)
    requires AccountsShow(ns, ts, S) && S <= T
    ensures AccountsShow(ns, ts, T)
    decreases ts, 2
  {
    forall i | 0 <= i < |ns| ensures Shows(ns[i], ts[i], T) {
      ShowsMore(ns[i], ts[i], S, T);
    }
  }

  lemma {:induction false} JoinsShowMore(ns: seq<AccountGroup>, ts: seq<AccountGroupTree>, S: set<object>,
                                         T: set<object>)
    requires JoinsShow(ns, ts, S) && S <= T
    ensures JoinsShow(ns, ts, T)
    decreases ts, 2
  {
    forall i | 0 <= i < |ns| ensures JoinShows(ns[i], ts[i], T) {
      TargetShowsMore(ns[i].account, ts[i].account, S, T);
    }
  }

  // ---- picking by key from objects and from the values they show ----

  lemma {:induction false} LeavesPicked<K>(ns: seq<LeafNode>, rs: seq<LeafRow>, ks: seq<K>, k: K, S: set<object>)
    requires LeavesShow(ns, rs, S) && |ks| == |ns|
    ensures LeavesShow(Pick(ns, ks, k), Pick(rs, ks, k), S)
  {
    if ns != [] {
      var n := |ns| - 1;
      LeavesPicked(ns[..n], rs[..n], ks[..n], k, S);
    }
  }

  lemma {:induction false} AccountsPicked<K>(ns: seq<Account>, ts: seq<AccountTree>, ks: seq<K>, k: K, S: set<object>)
    requires AccountsShow(ns, ts, S) && |ks| == |ns|
    ensures AccountsShow(Pick(ns, ks, k), Pick(ts, ks, k), S)
  {
    if ns != [] {
      var n := |ns| - 1;
      AccountsPicked(ns[..n], ts[..n], ks[..n], k, S);
    }
  }

  lemma {:induction false} JoinsPicked<K>(ns: seq<AccountGroup>, ts: seq<AccountGroupTree>, ks: seq<K>, k: K,
                                          S: set<object>)
    requires JoinsShow(ns, ts, S) && |ks| == |ns|
    ensures JoinsShow(Pick(ns, ks, k), Pick(ts, ks, k), S)
  {
    if ns != [] {
      var n := |ns| - 1;
      JoinsPicked(ns[..n], ts[..n], ks[..n], k, S);
    }
  }

  /** The object a foreign key leads to: the last one with that id, if any. */
  function Target<N>(found: seq<N>, ids: seq<int>, key: Option<int>): Option<N>
    requires |ids| == |found|
  {
    if key.None? then None else LastWith(found, ids, key.value)
  }

  lemma {:induction false} LastLeaf(ns: seq<LeafNode>, rs: seq<LeafRow>, ks: seq<int>, k: int, S: set<object>)
    requires LeavesShow(ns, rs, S) && |ks| == |ns|
    ensures LastWith(ns, ks, k).Some? <==> LastWith(rs, ks, k).Some?
    ensures LastWith(ns, ks, k).Some? ==> LeafShows(LastWith(ns, ks, k).value, LastWith(rs, ks, k), S)
  {
    if ns != [] {
      var n := |ns| - 1;
      LastLeaf(ns[..n], rs[..n], ks[..n], k, S);
    }
  }

  lemma {:induction false} LastAccount(ns: seq<Account>, ts: seq<AccountTree>, ks: seq<int>, k: int, S: set<object>)
    requires AccountsShow(ns, ts, S) && |ks| == |ns|
    ensures LastWith(ns, ks, k).Some? <==> LastWith(ts, ks, k).Some?
    ensures LastWith(ns, ks, k).Some? ==> TargetShows(LastWith(ns, ks, k).value, LastWith(ts, ks, k), S)
  {
    if ns != [] {
      var n := |ns| - 1;
      LastAccount(ns[..n], ts[..n], ks[..n], k, S);
    }
  }
}
