/** What becomes of a builder and its copy: exactly when the copy stands for the same query, and that further steps
    on either, in any order, leave the other alone. */
module QueryCopies {
  import opened Basics
  import opened AccountEntity
  import opened Selections
  import opened EagerModel
  import opened Queries

  // ======== when a copy is complete ========

  /** No builder of the tree, at any depth and of either kind, has a locking clause. */
  predicate LockFree(q: AccountQ) {
    q.locks == [] && EdgesLockFree(q.edges)
  }

  predicate EdgesLockFree(edges: AccountEdgesQ) {
    && (edges.groups.Some? ==> edges.groups.value.locks == [])
    && (edges.proxy.Some? ==> edges.proxy.value.locks == [])
    && (edges.parent.Some? ==> LockFree(edges.parent.value))
    && (edges.children.Some? ==> LockFree(edges.children.value))
    && (edges.usageLogs.Some? ==> edges.usageLogs.value.locks == [])
    && (edges.accountGroups.Some? ==> JoinLockFree(edges.accountGroups.value))
  }

  predicate JoinLockFree(q: AccountGroupQ) {
    && q.locks == []
    && (q.edges.account.Some? ==> LockFree(q.edges.account.value))
    && (q.edges.group.Some? ==> q.edges.group.value.locks == [])
  }

  /** Clone is documented to keep every step of the builder. It does exactly if there is no lock anywhere. */
  lemma {:induction false} CopyCompleteExactly(q: AccountQ)
    ensures Unlocked(q) == q <==> LockFree(q)
    decreases q, 1
  {
    EdgesCompleteExactly(q.edges);
  }

  lemma {:induction false} EdgesCompleteExactly(edges: AccountEdgesQ)
    ensures UnlockedEdges(edges) == edges <==> EdgesLockFree(edges)
    decreases edges, 0
  {
    if edges.parent.Some? {
      CopyCompleteExactly(edges.parent.value);
    }
    if edges.children.Some? {
      CopyCompleteExactly(edges.children.value);
    }
    if edges.accountGroups.Some? {
      JoinCopyCompleteExactly(edges.accountGroups.value);
    }
  }

  lemma {:induction false} JoinCopyCompleteExactly(q: AccountGroupQ)
    ensures UnlockedJoin(q) == q <==> JoinLockFree(q)
    decreases q, 1
  {
    if q.edges.account.Some? {
      CopyCompleteExactly(q.edges.account.value);
    }
  }

  /** A copy is itself without locks, so copying a copy loses nothing more. */
  lemma {:induction false} CopyOfCopy(q: AccountQ)
    ensures LockFree(Unlocked(q)) && Unlocked(Unlocked(q)) == Unlocked(q)
  {
    CopyLockFree(q);
    CopyCompleteExactly(Unlocked(q));
  }

  lemma {:induction false} CopyLockFree(q: AccountQ)
    ensures LockFree(Unlocked(q))
    decreases q, 1
  {
    if q.edges.parent.Some? {
      CopyLockFree(q.edges.parent.value);
    }
    if q.edges.children.Some? {
      CopyLockFree(q.edges.children.value);
    }
    if q.edges.accountGroups.Some? {
      JoinCopyLockFree(q.edges.accountGroups.value);
    }
    assert EdgesLockFree(UnlockedEdges(q.edges));
  }

  lemma {:induction false} JoinCopyLockFree(q: AccountGroupQ)
    ensures JoinLockFree(UnlockedJoin(q))
    decreases q, 1
  {
    if q.edges.account.Some? {
      CopyLockFree(q.edges.account.value);
    }
  }

  // ======== builder steps ========

  /** The calls a caller can make on a builder. A With... step configures a new edge query by steps of its own. */
  datatype AccountStep =
    | Where(p: AccountRow -> bool)
    | Order(o: AccountRow -> int)
    | Limit(n: nat)
    | Offset(n: nat)
    | Select(fields: seq<Column>)
    | AddLock(lock: Lock)
    | WithGroups(groups: seq<LeafStep>)
    | WithProxy(proxy: seq<LeafStep>)
    | WithParent(parent: seq<AccountStep>)
    | WithChildren(children: seq<AccountStep>)
    | WithUsageLogs(usageLogs: seq<LeafStep>)
    | WithAccountGroups(joins: seq<JoinStep>)

  datatype JoinStep =
    | JoinWhere(p: AccountGroupRow -> bool)
    | JoinOrder(o: AccountGroupRow -> int)
    | JoinLimit(n: nat)
    | JoinOffset(n: nat)
    | JoinSelect(fields: seq<AccountGroupColumn>)
    | JoinAddLock(lock: Lock)
    | WithAccount(account: seq<AccountStep>)
    | WithGroup(group: seq<LeafStep>)

  datatype LeafStep =
    | LeafWhere(p: LeafRow -> bool)
    | LeafOrder(o: LeafRow -> int)
    | LeafLimit(n: nat)
    | LeafOffset(n: nat)
    | LeafSelect(fields: seq<LeafColumn>)
    | LeafAddLock(lock: Lock)

  const NEW_LEAF := LeafQ(Selection([], [], [], None, None), [])
  const NEW_ACCOUNT := AccountQ(Selection([], [], [], None, None), [], NO_ACCOUNT_EDGES)
  const NEW_JOIN := AccountGroupQ(Selection([], [], [], None, None), [], AccountGroupEdgesQ(None, None))

  function LeafStepped(q: LeafQ, s: LeafStep): LeafQ {
    match s
    case LeafWhere(p) => q.(sel := q.sel.Where(p))
    case LeafOrder(o) => q.(sel := q.sel.(order := q.sel.order + [o]))
    case LeafLimit(n) => q.(sel := q.sel.(limit := Some(n)))
    case LeafOffset(n) => q.(sel := q.sel.(offset := Some(n)))
    case LeafSelect(fields) => q.(sel := q.sel.(fields := q.sel.fields + fields))
    case LeafAddLock(lock) => q.(locks := q.locks + [lock])
  }

  function LeafAfter(q: LeafQ, steps: seq<LeafStep>): LeafQ {
    if steps == [] then q else LeafStepped(LeafAfter(q, steps[..|steps| - 1]), steps[|steps| - 1])
  }

  function Stepped(q: AccountQ, s: AccountStep): AccountQ
    decreases s
  {
    match s
    case Where(p) => q.(sel := q.sel.Where(p))
    case Order(o) => q.(sel := q.sel.(order := q.sel.order + [o]))
    case Limit(n) => q.(sel := q.sel.(limit := Some(n)))
    case Offset(n) => q.(sel := q.sel.(offset := Some(n)))
    case Select(fields) => q.(sel := q.sel.(fields := q.sel.fields + fields))
    case AddLock(lock) => q.(locks := q.locks + [lock])
    case WithGroups(steps) => q.(edges := q.edges.(groups := Some(LeafAfter(NEW_LEAF, steps))))
    case WithProxy(steps) => q.(edges := q.edges.(proxy := Some(LeafAfter(NEW_LEAF, steps))))
    case WithParent(steps) => q.(edges := q.edges.(parent := Some(After(NEW_ACCOUNT, steps))))
    case WithChildren(steps) => q.(edges := q.edges.(children := Some(After(NEW_ACCOUNT, steps))))
    case WithUsageLogs(steps) => q.(edges := q.edges.(usageLogs := Some(LeafAfter(NEW_LEAF, steps))))
    case WithAccountGroups(steps) => q.(edges := q.edges.(accountGroups := Some(JoinAfter(NEW_JOIN, steps))))
  }

  /** The query a builder stands for after a list of steps. */
  function After(q: AccountQ, steps: seq<AccountStep>): AccountQ
    decreases steps
  {
    if steps == [] then q else Stepped(After(q, steps[..|steps| - 1]), steps[|steps| - 1])
  }

  function JoinStepped(q: AccountGroupQ, s: JoinStep): AccountGroupQ
    decreases s
  {
    match s
    case JoinWhere(p) => q.(sel := q.sel.Where(p))
    case JoinOrder(o) => q.(sel := q.sel.(order := q.sel.order + [o]))
    case JoinLimit(n) => q.(sel := q.sel.(limit := Some(n)))
    case JoinOffset(n) => q.(sel := q.sel.(offset := Some(n)))
    case JoinSelect(fields) => q.(sel := q.sel.(fields := q.sel.fields + fields))
    case JoinAddLock(lock) => q.(locks := q.locks + [lock])
    case WithAccount(steps) => q.(edges := q.edges.(account := Some(After(NEW_ACCOUNT, steps))))
    case WithGroup(steps) => q.(edges := q.edges.(group := Some(LeafAfter(NEW_LEAF, steps))))
  }

  function JoinAfter(q: AccountGroupQ, steps: seq<JoinStep>): AccountGroupQ
    decreases steps
  {
    if steps == [] then q else JoinStepped(JoinAfter(q, steps[..|steps| - 1]), steps[|steps| - 1])
  }

  // ---- the steps on the objects ----

  method NewLeaf(steps: seq<LeafStep>) returns (q: LeafQuery)
    ensures fresh(q.Parts()) && q.Denote() == LeafAfter(NEW_LEAF, steps)
  {
    var ctx := new QueryContext([], None, None);
    q := new LeafQuery(ctx);
    for i := 0 to |steps|
      invariant q.Denote() == LeafAfter(NEW_LEAF, steps[..i])
    {
      assert steps[..i + 1][..i] == steps[..i];
      match steps[i]
      case LeafWhere(p) => q.Where(p);
      case LeafOrder(o) => q.Order(o);
      case LeafLimit(n) => q.Limit(n);
      case LeafOffset(n) => q.Offset(n);
      case LeafSelect(fields) => q.Select(fields);
      case LeafAddLock(lock) => q.AddLock(lock);
    }
    assert steps[..|steps|] == steps;
  }

  method NewAccounts(steps: seq<AccountStep>) returns (q: AccountQuery)
    ensures q.Valid() && fresh(q.Repr) && q.value == After(NEW_ACCOUNT, steps)
    decreases steps, 1
  {
    hide AccountQuery.Valid, AccountGroupQuery.Valid;
    var ctx := new QueryContext([], None, None);
    q := new AccountQuery(ctx, [], []);
    ApplyAll(q, steps);
  }

  method ApplyAll(q: AccountQuery, steps: seq<AccountStep>)
    requires q.Valid()
    modifies q.Repr
    ensures q.Valid() && fresh(q.Repr - old(q.Repr)) && q.value == After(old(q.value), steps)
    decreases steps, 0
  {
    hide AccountQuery.Valid, AccountGroupQuery.Valid, Stepped;
    for i := 0 to |steps|
      invariant q.Valid() && fresh(q.Repr - old(q.Repr)) && q.value == After(old(q.value), steps[..i])
    {
      assert steps[..i + 1][..i] == steps[..i];
      Apply(q, steps[i]);
    }
    assert steps[..|steps|] == steps;
  }

  method Apply(q: AccountQuery, s: AccountStep)
    requires q.Valid()
    modifies q.Repr
    ensures q.Valid() && fresh(q.Repr - old(q.Repr)) && q.value == Stepped(old(q.value), s)
    decreases s, 1
  {
    hide AccountQuery.Valid, AccountGroupQuery.Valid, After, JoinAfter, LeafAfter;
    match s
    case Where(p) => q.Where(p);
    case Order(o) => q.Order(o);
    case Limit(n) => q.Limit(n);
    case Offset(n) => q.Offset(n);
    case Select(fields) => q.Select(fields);
    case AddLock(lock) => q.AddLock(lock);
    case _ => ApplyEdge(q, s);
  }

  method ApplyEdge(q: AccountQuery, s: AccountStep)
    requires q.Valid()
    requires s.WithGroups? || s.WithProxy? || s.WithParent? || s.WithChildren? || s.WithUsageLogs?
             || s.WithAccountGroups?
    modifies q.Repr
    ensures q.Valid() && fresh(q.Repr - old(q.Repr)) && q.value == Stepped(old(q.value), s)
    decreases s, 0
  {
    hide AccountQuery.Valid, AccountGroupQuery.Valid, After, JoinAfter, LeafAfter;
    match s
    case WithGroups(steps) =>
      var query := NewLeaf(steps);
      q.WithGroups(query);
    case WithProxy(steps) =>
      var query := NewLeaf(steps);
      q.WithProxy(query);
    case WithParent(steps) =>
      var query := NewAccounts(steps);
      q.WithParent(query);
    case WithChildren(steps) =>
      var query := NewAccounts(steps);
      q.WithChildren(query);
    case WithUsageLogs(steps) =>
      var query := NewLeaf(steps);
      q.WithUsageLogs(query);
    case WithAccountGroups(steps) =>
      var query := NewJoins(steps);
      q.WithAccountGroups(query);
  }

  method NewJoins(steps: seq<JoinStep>) returns (q: AccountGroupQuery)
    ensures q.Valid() && fresh(q.Repr) && q.value == JoinAfter(NEW_JOIN, steps)
    decreases steps, 1
  {
    hide AccountQuery.Valid, AccountGroupQuery.Valid;
    var ctx := new QueryContext([], None, None);
    q := new AccountGroupQuery(ctx, [], []);
    ApplyAllJoins(q, steps);
  }

  method ApplyAllJoins(q: AccountGroupQuery, steps: seq<JoinStep>)
    requires q.Valid()
    modifies q.Repr
    ensures q.Valid() && fresh(q.Repr - old(q.Repr)) && q.value == JoinAfter(old(q.value), steps)
    decreases steps, 0
  {
    hide AccountQuery.Valid, AccountGroupQuery.Valid, JoinStepped;
    for i := 0 to |steps|
      invariant q.Valid() && fresh(q.Repr - old(q.Repr)) && q.value == JoinAfter(old(q.value), steps[..i])
    {
      assert steps[..i + 1][..i] == steps[..i];
      ApplyJoin(q, steps[i]);
    }
    assert steps[..|steps|] == steps;
  }

  method ApplyJoin(q: AccountGroupQuery, s: JoinStep)
    requires q.Valid()
    modifies q.Repr
    ensures q.Valid() && fresh(q.Repr - old(q.Repr)) && q.value == JoinStepped(old(q.value), s)
    decreases s
  {
    hide AccountQuery.Valid, AccountGroupQuery.Valid, After, JoinAfter, LeafAfter;
    match s
    case JoinWhere(p) => q.Where(p);
    case JoinOrder(o) => q.Order(o);
    case JoinLimit(n) => q.Limit(n);
    case JoinOffset(n) => q.Offset(n);
    case JoinSelect(fields) => q.Select(fields);
    case JoinAddLock(lock) => q.AddLock(lock);
    case WithAccount(steps) =>
      var query := NewAccounts(steps);
      q.WithAccount(query);
    case WithGroup(steps) =>
      var query := NewLeaf(steps);
      q.WithGroup(query);
  }

  // ======== going separate ways ========

  /** A step on the copy, or on the original. */
  datatype Move = OnCopy(step: AccountStep) | OnOriginal(step: AccountStep)

  function StepsOf(moves: seq<Move>, copy: bool): seq<AccountStep> {
    if moves == [] then []
    else
      var last := moves[|moves| - 1];
      if last.OnCopy? == copy then StepsOf(moves[..|moves| - 1], copy) + [last.step]
        else StepsOf(moves[..|moves| - 1], copy)
  }

  /** However steps on a builder and on its copy alternate, each ends up as if the other had never been touched. */
  method SeparateWays(q: AccountQuery, moves: seq<Move>) returns (c: AccountQuery)
    requires q.Valid()
    modifies q.Repr
    ensures q.Valid() && c.Valid() && q.Repr !! c.Repr
    ensures q.value == After(old(q.value), StepsOf(moves, false))
    ensures c.value == After(Unlocked(old(q.value)), StepsOf(moves, true))
  {
    hide AccountQuery.Valid, AccountGroupQuery.Valid, Stepped, Unlocked;
    c := q.Clone();
    for i := 0 to |moves|
      invariant q.Valid() && c.Valid() && q.Repr !! c.Repr
      invariant fresh(c.Repr) && fresh(q.Repr - old(q.Repr))
      invariant q.value == After(old(q.value), StepsOf(moves[..i], false))
      invariant c.value == After(Unlocked(old(q.value)), StepsOf(moves[..i], true))
    {
      ghost var ours, theirs := StepsOf(moves[..i], false), StepsOf(moves[..i], true);
      assert moves[..i + 1][..i] == moves[..i];
      match moves[i]
      case OnCopy(step) =>
        AfterSnoc(Unlocked(old(q.value)), theirs, step);
        Apply(c, step);
      case OnOriginal(step) =>
        AfterSnoc(old(q.value), ours, step);
        Apply(q, step);
    }
    assert moves[..|moves|] == moves;
  }

  lemma {:induction false} AfterSnoc(q: AccountQ, steps: seq<AccountStep>, s: AccountStep)
    ensures After(q, steps + [s]) == Stepped(After(q, steps), s)
  {
    assert (steps + [s])[..|steps|] == steps;
  }

  /** A builder with a lock on a nested edge query, and a copy that no longer stands for the same query. */
  method CopyLosesLock() returns (q: AccountQuery, c: AccountQuery)
    ensures q.Valid() && c.Valid() && !LockFree(q.value) && c.value != q.value
  {
    hide AccountQuery.Valid, AccountGroupQuery.Valid;
    var inner := [AddLock(ForUpdate([SkipLocked]))];
    q := NewAccounts([WithParent(inner)]);
    AfterSnoc(NEW_ACCOUNT, [], WithParent(inner));
    AfterSnoc(NEW_ACCOUNT, [], AddLock(ForUpdate([SkipLocked])));
    assert [] + [WithParent(inner)] == [WithParent(inner)] && [] + inner == inner;
    c := q.Clone();
    assert q.value.edges.parent.value.locks == [] + [ForUpdate([SkipLocked])];
    assert !LockFree(q.value.edges.parent.value);
    CopyCompleteExactly(q.value);
  }
}
