/** The query builders as mutable objects. A builder owns its edge queries: no object is reachable from two
    places, so builders form trees, and Clone copies a whole tree. */
module Queries {
  import opened Basics
  import opened AccountEntity
  import opened Selections
  import opened EagerModel

  class QueryContext<C(==)> {
    var fields: seq<C>
    var limit: Option<nat>
    var offset: Option<nat>

    constructor (fields: seq<C>, limit: Option<nat>, offset: Option<nat>)
      ensures this.fields == fields && this.limit == limit && this.offset == offset
    {
      this.fields, this.limit, this.offset := fields, limit, offset;
    }

    method Clone() returns (c: QueryContext<C>)
      ensures fresh(c) && c.fields == fields && c.limit == limit && c.offset == offset
    {
      c := new QueryContext(fields, limit, offset);
    }
  }

  /** The group, proxy and usage log queries, without edges of their own. */
  class LeafQuery {
    const ctx: QueryContext<LeafColumn>
    var order: seq<LeafRow -> int>
    var predicates: seq<LeafRow -> bool>
    var locks: seq<Lock>

    constructor (ctx: QueryContext<LeafColumn>)
      ensures this.ctx == ctx && Denote() == LeafQ(Selection(ctx.fields, [], [], ctx.limit, ctx.offset), [])
    {
      this.ctx := ctx;
      order, predicates, locks := [], [], [];
    }

    ghost function Parts(): set<object> {
      {this, ctx}
    }

    ghost function Denote(): LeafQ
      reads this, ctx
    {
      LeafQ(Selection(ctx.fields, predicates, order, ctx.limit, ctx.offset), locks)
    }

    method Where(p: LeafRow -> bool)
      modifies `predicates
      ensures Denote() == old(Denote()).(sel := old(Denote()).sel.Where(p))
    {
      predicates := predicates + [p];
    }

    method Order(o: LeafRow -> int)
      modifies `order
      ensures Denote() == old(Denote()).(sel := old(Denote()).sel.(order := old(Denote()).sel.order + [o]))
    {
      order := order + [o];
    }

    method Limit(n: nat)
      modifies ctx`limit
      ensures Denote() == old(Denote()).(sel := old(Denote()).sel.(limit := Some(n)))
    {
      ctx.limit := Some(n);
    }

    method Offset(n: nat)
      modifies ctx`offset
      ensures Denote() == old(Denote()).(sel := old(Denote()).sel.(offset := Some(n)))
    {
      ctx.offset := Some(n);
    }

    method Select(fields: seq<LeafColumn>)
      modifies ctx`fields
      ensures Denote() == old(Denote()).(sel := old(Denote()).sel.(fields := old(Denote()).sel.fields + fields))
    {
      ctx.fields := ctx.fields + fields;
    }

    method AddLock(lock: Lock)
      modifies `locks
      ensures Denote() == old(Denote()).(locks := old(Denote()).locks + [lock])
    {
      locks := locks + [lock];
    }

    method Clone() returns (c: LeafQuery)
      ensures fresh(c.Parts())
      ensures c.Denote() == Denote().(locks := [])
    {
      var context := ctx.Clone();
      c := new LeafQuery(context);
      c.order, c.predicates := order, predicates;
    }
  }

  ghost function LeafParts(q: LeafQuery?): set<object> {
    if q == null then {} else q.Parts()
  }

  ghost function LeafDenote(q: LeafQuery?): Option<LeafQ>
    reads if q == null then {} else q.Parts()
  {
    if q == null then None else Some(q.Denote())
  }

  class AccountQuery {
    const ctx: QueryContext<Column>
    var order: seq<AccountRow -> int>
    var predicates: seq<AccountRow -> bool>
    var locks: seq<Lock>
    var withGroups: LeafQuery?
    var withProxy: LeafQuery?
    var withParent: AccountQuery?
    var withChildren: AccountQuery?
    var withUsageLogs: LeafQuery?
    var withAccountGroups: AccountGroupQuery?
    ghost var Repr: set<object>
    ghost var value: AccountQ  // the query this builder stands for

    /** What the fields amount to, given what the edge queries stand for. */
    ghost function Current(): AccountQ
      reads this, ctx, LeafParts(withGroups), LeafParts(withProxy), LeafParts(withUsageLogs),
            withParent, withChildren, withAccountGroups
    {
      AccountQ(
        Selection(ctx.fields, predicates, order, ctx.limit, ctx.offset), locks,
        AccountEdgesQ(LeafDenote(withGroups), LeafDenote(withProxy), AccountValue(withParent),
                      AccountValue(withChildren), LeafDenote(withUsageLogs), JoinValue(withAccountGroups)))
    }

    /** The objects of every edge query belong to Repr and lead back neither to this builder nor to its
        context; `value` is up to date, here and below. */
    ghost predicate Valid()
      reads this, Repr
      decreases Repr, 0
      ensures Valid() ==> this in Repr && ctx in Repr
    {
      && this in Repr && ctx in Repr
      && (withGroups != null ==> withGroups in Repr && withGroups.ctx in Repr)
      && (withProxy != null ==> withProxy in Repr && withProxy.ctx in Repr)
      && (withUsageLogs != null ==> withUsageLogs in Repr && withUsageLogs.ctx in Repr)
      && (withParent != null ==>
            withParent in Repr && withParent in withParent.Repr && withParent.Repr <= Repr
            && this !in withParent.Repr && ctx !in withParent.Repr)
      && (withChildren != null ==>
            withChildren in Repr && withChildren in withChildren.Repr && withChildren.Repr <= Repr
            && this !in withChildren.Repr && ctx !in withChildren.Repr)
      && (withAccountGroups != null ==>
            withAccountGroups in Repr && withAccountGroups in withAccountGroups.Repr && withAccountGroups.Repr <= Repr
            && this !in withAccountGroups.Repr && ctx !in withAccountGroups.Repr)
      && ValidAccountQuery(withParent) && ValidAccountQuery(withChildren) && ValidJoinQuery(withAccountGroups)
      && value == Current()
    }

    constructor (ctx: QueryContext<Column>, order: seq<AccountRow -> int>, predicates: seq<AccountRow -> bool>)
      ensures Valid() && Repr == {this, ctx} && this.ctx == ctx
      ensures value == AccountQ(Selection(ctx.fields, predicates, order, ctx.limit, ctx.offset), [], NO_ACCOUNT_EDGES)
    {
      this.ctx, this.order, this.predicates, locks := ctx, order, predicates, [];
      withGroups, withProxy, withParent := null, null, null;
      withChildren, withUsageLogs, withAccountGroups := null, null, null;
      Repr := {this, ctx};
      value := AccountQ(Selection(ctx.fields, predicates, order, ctx.limit, ctx.offset), [], NO_ACCOUNT_EDGES);
    }

    method Where(p: AccountRow -> bool)
      requires Valid()
      modifies `predicates, `value
      ensures Valid() && value == old(value).(sel := old(value).sel.Where(p))
    {
      predicates := predicates + [p];
      value := Current();
    }

    method Order(o: AccountRow -> int)
      requires Valid()
      modifies `order, `value
      ensures Valid() && value == old(value).(sel := old(value).sel.(order := old(value).sel.order + [o]))
    {
      order := order + [o];
      value := Current();
    }

    method Limit(n: nat)
      requires Valid()
      modifies ctx`limit, `value
      ensures Valid() && value == old(value).(sel := old(value).sel.(limit := Some(n)))
    {
      ctx.limit := Some(n);
      value := Current();
    }

    method Offset(n: nat)
      requires Valid()
      modifies ctx`offset, `value
      ensures Valid() && value == old(value).(sel := old(value).sel.(offset := Some(n)))
    {
      ctx.offset := Some(n);
      value := Current();
    }

    method Select(fields: seq<Column>)
      requires Valid()
      modifies ctx`fields, `value
      ensures Valid() && value == old(value).(sel := old(value).sel.(fields := old(value).sel.fields + fields))
    {
      ctx.fields := ctx.fields + fields;
      value := Current();
    }

    /** ForUpdate and ForShare. */
    method AddLock(lock: Lock)
      requires Valid()
      modifies `locks, `value
      ensures Valid() && value == old(value).(locks := old(value).locks + [lock])
    {
      locks := locks + [lock];
      value := Current();
    }

    method WithGroups(query: LeafQuery)
      requires Valid() && {this, ctx} !! query.Parts()
      modifies `withGroups, `value, `Repr
      ensures Valid() && Repr == old(Repr) + query.Parts()
      ensures value == old(value).(edges := old(value).edges.(groups := Some(query.Denote())))
    {
      hide AccountValue, JoinValue;
      withGroups := query;
      Repr := Repr + query.Parts();
      value := Current();
    }

    method WithProxy(query: LeafQuery)
      requires Valid() && {this, ctx} !! query.Parts()
      modifies `withProxy, `value, `Repr
      ensures Valid() && Repr == old(Repr) + query.Parts()
      ensures value == old(value).(edges := old(value).edges.(proxy := Some(query.Denote())))
    {
      hide AccountValue, JoinValue;
      withProxy := query;
      Repr := Repr + query.Parts();
      value := Current();
    }

    method WithParent(query: AccountQuery)
      requires Valid() && ValidAccountQuery(query) && query in query.Repr && {this, ctx} !! query.Repr
      modifies `withParent, `value, `Repr
      ensures Valid() && Repr == old(Repr) + query.Repr
      ensures value == old(value).(edges := old(value).edges.(parent := Some(query.value)))
    {
      hide LeafQuery.Denote, JoinValue;
      withParent := query;
      Repr := Repr + query.Repr;
      value := Current();
    }

    method WithChildren(query: AccountQuery)
      requires Valid() && ValidAccountQuery(query) && query in query.Repr && {this, ctx} !! query.Repr
      modifies `withChildren, `value, `Repr
      ensures Valid() && Repr == old(Repr) + query.Repr
      ensures value == old(value).(edges := old(value).edges.(children := Some(query.value)))
    {
      hide LeafQuery.Denote, JoinValue;
      withChildren := query;
      Repr := Repr + query.Repr;
      value := Current();
    }

    method WithUsageLogs(query: LeafQuery)
      requires Valid() && {this, ctx} !! query.Parts()
      modifies `withUsageLogs, `value, `Repr
      ensures Valid() && Repr == old(Repr) + query.Parts()
      ensures value == old(value).(edges := old(value).edges.(usageLogs := Some(query.Denote())))
    {
      hide AccountValue, JoinValue;
      withUsageLogs := query;
      Repr := Repr + query.Parts();
      value := Current();
    }

    method WithAccountGroups(query: AccountGroupQuery)
      requires Valid() && ValidJoinQuery(query) && query in query.Repr && {this, ctx} !! query.Repr
      modifies `withAccountGroups, `value, `Repr
      ensures Valid() && Repr == old(Repr) + query.Repr
      ensures value == old(value).(edges := old(value).edges.(accountGroups := Some(query.value)))
    {
      hide LeafQuery.Denote, AccountValue;
      withAccountGroups := query;
      Repr := Repr + query.Repr;
      value := Current();
    }

    // ---- the parts of Clone ----

    method CopyLeafEdges() returns (groups: LeafQuery?, proxy: LeafQuery?, usageLogs: LeafQuery?)
      requires Valid()
      ensures fresh(LeafParts(groups)) && fresh(LeafParts(proxy)) && fresh(LeafParts(usageLogs))
      ensures LeafDenote(groups) == UnlockedLeaf(value.edges.groups)
      ensures LeafDenote(proxy) == UnlockedLeaf(value.edges.proxy)
      ensures LeafDenote(usageLogs) == UnlockedLeaf(value.edges.usageLogs)
    {
      groups := CloneLeaf(withGroups);
      proxy := CloneLeaf(withProxy);
      usageLogs := CloneLeaf(withUsageLogs);
    }

    method CopySelection() returns (c: AccountQuery)
      requires Valid()
      ensures c.Valid() && fresh(c.Repr) && c.value == AccountQ(value.sel, [], NO_ACCOUNT_EDGES)
    {
      var context := ctx.Clone();
      c := new AccountQuery(context, order, predicates);
    }

    method CopyTreeEdges()
      returns (parent: AccountQuery?, children: AccountQuery?, accountGroups: AccountGroupQuery?)
      requires Valid()
      ensures ValidAccountQuery(parent) && fresh(AccountParts(parent))
      ensures ValidAccountQuery(children) && fresh(AccountParts(children))
      ensures ValidJoinQuery(accountGroups) && fresh(JoinParts(accountGroups))
      ensures AccountValue(parent) == UnlockedAccounts(value.edges.parent)
      ensures AccountValue(children) == UnlockedAccounts(value.edges.children)
      ensures JoinValue(accountGroups) == UnlockedJoins(value.edges.accountGroups)
      decreases Repr, 0
    {
      parent := CloneAccounts(withParent);
      children := CloneAccounts(withChildren);
      accountGroups := CloneJoins(withAccountGroups);
    }

    method AttachLeaves(groups: LeafQuery?, proxy: LeafQuery?, usageLogs: LeafQuery?)
      requires Valid() && value.edges == NO_ACCOUNT_EDGES
      modifies `withGroups, `withProxy, `withUsageLogs, `value, `Repr
      ensures Valid()
      ensures forall o :: o in Repr ==>
                o in old(Repr) || o in LeafParts(groups) || o in LeafParts(proxy) || o in LeafParts(usageLogs)
      ensures value == old(value).(edges := NO_ACCOUNT_EDGES.(
                groups := LeafDenote(groups), proxy := LeafDenote(proxy), usageLogs := LeafDenote(usageLogs)))
    {
      hide AccountQuery.Valid, AccountGroupQuery.Valid;
      if groups != null {
        WithGroups(groups);
      }
      if proxy != null {
        WithProxy(proxy);
      }
      if usageLogs != null {
        WithUsageLogs(usageLogs);
      }
    }

    method AttachTrees(parent: AccountQuery?, children: AccountQuery?, accountGroups: AccountGroupQuery?)
      requires Valid()
      requires value.edges.parent == None && value.edges.children == None && value.edges.accountGroups == None
      requires ValidAccountQuery(parent) && ValidAccountQuery(children) && ValidJoinQuery(accountGroups)
      requires this !in AccountParts(parent) && this !in AccountParts(children) && this !in JoinParts(accountGroups)
      requires ctx !in AccountParts(parent) && ctx !in AccountParts(children) && ctx !in JoinParts(accountGroups)
      modifies `withParent, `withChildren, `withAccountGroups, `value, `Repr
      ensures Valid()
      ensures forall o :: o in Repr ==>
                o in old(Repr) || o in AccountParts(parent) || o in AccountParts(children)
                || o in JoinParts(accountGroups)
      ensures value == old(value).(edges := old(value).edges.(
                parent := AccountValue(parent), children := AccountValue(children),
                accountGroups := JoinValue(accountGroups)))
    {
      hide AccountQuery.Valid, AccountGroupQuery.Valid;
      if parent != null {
        WithParent(parent);
      }
      if children != null {
        WithChildren(children);
      }
      if accountGroups != null {
        WithAccountGroups(accountGroups);
      }
    }

    /** A copy that shares no object with the original and stands for the same query, less its locks. */
    method Clone() returns (c: AccountQuery)
      requires Valid()
      ensures c.Valid() && fresh(c.Repr)
      ensures c.value == Unlocked(value)
      decreases Repr, 1
    {
      hide AccountQuery.Valid, AccountGroupQuery.Valid;
      var groups, proxy, usageLogs := CopyLeafEdges();
      var parent, children, accountGroups := CopyTreeEdges();
      c := CopySelection();
      c.AttachLeaves(groups, proxy, usageLogs);
      c.AttachTrees(parent, children, accountGroups);
    }
  }

  class AccountGroupQuery {
    const ctx: QueryContext<AccountGroupColumn>
    var order: seq<AccountGroupRow -> int>
    var predicates: seq<AccountGroupRow -> bool>
    var locks: seq<Lock>
    var withAccount: AccountQuery?
    var withGroup: LeafQuery?
    ghost var Repr: set<object>
    ghost var value: AccountGroupQ

    ghost function Current(): AccountGroupQ
      reads this, ctx, LeafParts(withGroup), withAccount
    {
      AccountGroupQ(
        Selection(ctx.fields, predicates, order, ctx.limit, ctx.offset), locks,
        AccountGroupEdgesQ(AccountValue(withAccount), LeafDenote(withGroup)))
    }

    ghost predicate Valid()
      reads this, Repr
      decreases Repr, 0
      ensures Valid() ==> this in Repr && ctx in Repr
    {
      && this in Repr && ctx in Repr
      && (withGroup != null ==> withGroup in Repr && withGroup.ctx in Repr)
      && (withAccount != null ==>
            withAccount in Repr && withAccount in withAccount.Repr && withAccount.Repr <= Repr
            && this !in withAccount.Repr && ctx !in withAccount.Repr)
      && ValidAccountQuery(withAccount)
      && value == Current()
    }

    constructor (ctx: QueryContext<AccountGroupColumn>, order: seq<AccountGroupRow -> int>,
                 predicates: seq<AccountGroupRow -> bool>)
      ensures Valid() && Repr == {this, ctx} && this.ctx == ctx
      ensures value == AccountGroupQ(
                Selection(ctx.fields, predicates, order, ctx.limit, ctx.offset), [], AccountGroupEdgesQ(None, None))
    {
      this.ctx, this.order, this.predicates, locks := ctx, order, predicates, [];
      withAccount, withGroup := null, null;
      Repr := {this, ctx};
      value := AccountGroupQ(Selection(ctx.fields, predicates, order, ctx.limit, ctx.offset), [],
                             AccountGroupEdgesQ(None, None));
    }

    method Where(p: AccountGroupRow -> bool)
      requires Valid()
      modifies `predicates, `value
      ensures Valid() && value == old(value).(sel := old(value).sel.Where(p))
    {
      predicates := predicates + [p];
      value := Current();
    }

    method Order(o: AccountGroupRow -> int)
      requires Valid()
      modifies `order, `value
      ensures Valid() && value == old(value).(sel := old(value).sel.(order := old(value).sel.order + [o]))
    {
      order := order + [o];
      value := Current();
    }

    method Limit(n: nat)
      requires Valid()
      modifies ctx`limit, `value
      ensures Valid() && value == old(value).(sel := old(value).sel.(limit := Some(n)))
    {
      ctx.limit := Some(n);
      value := Current();
    }

    method Offset(n: nat)
      requires Valid()
      modifies ctx`offset, `value
      ensures Valid() && value == old(value).(sel := old(value).sel.(offset := Some(n)))
    {
      ctx.offset := Some(n);
      value := Current();
    }

    method Select(fields: seq<AccountGroupColumn>)
      requires Valid()
      modifies ctx`fields, `value
      ensures Valid() && value == old(value).(sel := old(value).sel.(fields := old(value).sel.fields + fields))
    {
      ctx.fields := ctx.fields + fields;
      value := Current();
    }

    /** ForUpdate and ForShare. */
    method AddLock(lock: Lock)
      requires Valid()
      modifies `locks, `value
      ensures Valid() && value == old(value).(locks := old(value).locks + [lock])
    {
      locks := locks + [lock];
      value := Current();
    }

    method WithAccount(query: AccountQuery)
      requires Valid() && ValidAccountQuery(query) && query in query.Repr && {this, ctx} !! query.Repr
      modifies `withAccount, `value, `Repr
      ensures Valid() && Repr == old(Repr) + query.Repr
      ensures value == old(value).(edges := old(value).edges.(account := Some(query.value)))
    {
      withAccount := query;
      Repr := Repr + query.Repr;
      value := Current();
    }

    method WithGroup(query: LeafQuery)
      requires Valid() && {this, ctx} !! query.Parts()
      modifies `withGroup, `value, `Repr
      ensures Valid() && Repr == old(Repr) + query.Parts()
      ensures value == old(value).(edges := old(value).edges.(group := Some(query.Denote())))
    {
      withGroup := query;
      Repr := Repr + query.Parts();
      value := Current();
    }

    method CopySelection() returns (c: AccountGroupQuery)
      requires Valid()
      ensures c.Valid() && fresh(c.Repr) && c.value == AccountGroupQ(value.sel, [], AccountGroupEdgesQ(None, None))
    {
      var context := ctx.Clone();
      c := new AccountGroupQuery(context, order, predicates);
    }

    method CopyEdges() returns (account: AccountQuery?, group: LeafQuery?)
      requires Valid()
      ensures ValidAccountQuery(account) && fresh(AccountParts(account)) && fresh(LeafParts(group))
      ensures AccountValue(account) == UnlockedAccounts(value.edges.account)
      ensures LeafDenote(group) == UnlockedLeaf(value.edges.group)
      decreases Repr, 0
    {
      account := CloneAccounts(withAccount);
      group := CloneLeaf(withGroup);
    }

    method Clone() returns (c: AccountGroupQuery)
      requires Valid()
      ensures c.Valid() && fresh(c.Repr)
      ensures c.value == UnlockedJoin(value)
      decreases Repr, 1
    {
      hide AccountQuery.Valid, AccountGroupQuery.Valid;
      var account, group := CopyEdges();
      c := CopySelection();
      if account != null {
        c.WithAccount(account);
      }
      if group != null {
        c.WithGroup(group);
      }
    }
  }

  // ---- edge queries that may be absent ----

  ghost function AccountParts(q: AccountQuery?): set<object>
    reads q
  {
    if q == null then {} else q.Repr
  }

  ghost function AccountValue(q: AccountQuery?): Option<AccountQ>
    reads q
  {
    if q == null then None else Some(q.value)
  }

  ghost predicate ValidAccountQuery(q: AccountQuery?)
    reads q, AccountParts(q)
    decreases AccountParts(q), 1
  {
    q != null ==> q.Valid()
  }

  ghost function JoinParts(q: AccountGroupQuery?): set<object>
    reads q
  {
    if q == null then {} else q.Repr
  }

  ghost function JoinValue(q: AccountGroupQuery?): Option<AccountGroupQ>
    reads q
  {
    if q == null then None else Some(q.value)
  }

  ghost predicate ValidJoinQuery(q: AccountGroupQuery?)
    reads q, JoinParts(q)
    decreases JoinParts(q), 1
  {
    q != null ==> q.Valid()
  }

  // ---- Clone of an absent query is absent ----

  method CloneLeaf(q: LeafQuery?) returns (c: LeafQuery?)
    ensures fresh(LeafParts(c))
    ensures LeafDenote(c) == UnlockedLeaf(LeafDenote(q))
  {
    if q == null {
      c := null;
    } else {
      c := q.Clone();
    }
  }

  method CloneAccounts(q: AccountQuery?) returns (c: AccountQuery?)
    requires ValidAccountQuery(q)
    ensures ValidAccountQuery(c) && fresh(AccountParts(c))
    ensures AccountValue(c) == UnlockedAccounts(AccountValue(q))
    decreases AccountParts(q), 2
  {
    if q == null {
      c := null;
    } else {
      c := q.Clone();
    }
  }

  method CloneJoins(q: AccountGroupQuery?) returns (c: AccountGroupQuery?)
    requires ValidJoinQuery(q)
    ensures ValidJoinQuery(c) && fresh(JoinParts(c))
    ensures JoinValue(c) == UnlockedJoins(JoinValue(q))
    decreases JoinParts(q), 2
  {
    if q == null {
      c := null;
    } else {
      c := q.Clone();
    }
  }

  // ---- what a copy loses ----

  function UnlockedLeaf(q: Option<LeafQ>): Option<LeafQ> {
    if q.None? then None else Some(q.value.(locks := []))
  }

  /** The query with the locks dropped at every level. */
  function Unlocked(q: AccountQ): AccountQ {
    AccountQ(q.sel, [], UnlockedEdges(q.edges))
  }

  function UnlockedAccounts(q: Option<AccountQ>): Option<AccountQ> {
    if q.None? then None else Some(Unlocked(q.value))
  }

  function UnlockedJoins(q: Option<AccountGroupQ>): Option<AccountGroupQ> {
    if q.None? then None else Some(UnlockedJoin(q.value))
  }

  function UnlockedEdges(edges: AccountEdgesQ): AccountEdgesQ {
    AccountEdgesQ(
      UnlockedLeaf(edges.groups), UnlockedLeaf(edges.proxy), UnlockedAccounts(edges.parent),
      UnlockedAccounts(edges.children), UnlockedLeaf(edges.usageLogs), UnlockedJoins(edges.accountGroups))
  }

  function UnlockedJoin(q: AccountGroupQ): AccountGroupQ {
    AccountGroupQ(q.sel, [], AccountGroupEdgesQ(UnlockedAccounts(q.edges.account), UnlockedLeaf(q.edges.group)))
  }
}
