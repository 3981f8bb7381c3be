/** The row description sent to the database on creation, the entity returned with it, and the row read back. */
module AccountSpec {
  import opened Basics
  import opened AccountEntity
  import opened AccountScan
  import opened EagerModel
  import opened Nodes
  import opened AccountCreate

  // ======== specs ========

  datatype Relation = M2M | M2O | O2M

  datatype EdgeSpec = EdgeSpec(
    rel: Relation, inverse: bool, table: string, columns: seq<string>, nodes: seq<int>,
    fields: seq<(AccountGroupColumn, int)>)

  class CreateSpec {
    var id: Option<int>
    var fields: seq<(Column, Value)>
    var edges: seq<EdgeSpec>

    constructor ()
      ensures id == None && fields == [] && edges == []
    {
      id, fields, edges := None, [], [];
    }

    method SetField(c: Column, v: Value)
      modifies `fields
      ensures fields == old(fields) + [(c, v)]
    {
      fields := fields + [(c, v)];
    }
  }

  /** The columns createSpec copies from the mutation, in its order. */
  const SPECIFIED: seq<Column> := [
    TimeColumn(CreatedAt), TimeColumn(UpdatedAt), TimeColumn(DeletedAt), StringColumn(Name),
    StringColumn(Notes), StringColumn(Platform), StringColumn(Type), JsonColumn(Credentials),
    JsonColumn(Extra), Int64Column(ProxyFallbackOriginID), Int64Column(Concurrency), Int64Column(LoadFactor),
    Int64Column(Priority), RateMultiplier, StringColumn(Status), StringColumn(ErrorMessage),
    TimeColumn(LastUsedAt), TimeColumn(ExpiresAt), BoolColumn(AutoPauseOnExpired), BoolColumn(Schedulable),
    TimeColumn(RateLimitedAt), TimeColumn(RateLimitResetAt), TimeColumn(OverloadUntil),
    TimeColumn(TempUnschedulableUntil), StringColumn(TempUnschedulableReason), TimeColumn(SessionWindowStart),
    TimeColumn(SessionWindowEnd), StringColumn(SessionWindowStatus), StringColumn(QuotaDimension)]

  function Put(row: AccountRow, c: Column, v: Value): AccountRow {
    match (c, v)
    case (Int64Column(f), Number(n)) => StoreInt64(row, f, n)
    case (TimeColumn(f), Instant(t)) => StoreTime(row, f, t)
    case (StringColumn(f), Text(s)) => StoreString(row, f, s)
    case (BoolColumn(f), Flag(b)) => StoreBool(row, f, b)
    case (JsonColumn(f), Json(d)) => StoreJson(row, f, d)
    case (RateMultiplier, Rate(r)) => row.(rateMultiplier := r)
    case _ => row
  }

  /** The settings among the first k columns. */
  function SpecFields(d: Draft, k: nat): seq<(Column, Value)>
    requires k <= |SPECIFIED|
  {
    if k == 0 then []
    else
      var c := SPECIFIED[k - 1];
      if Setting(d, c).Some? then SpecFields(d, k - 1) + [(c, Setting(d, c).value)] else SpecFields(d, k - 1)
  }

  /** The entity with the first k columns copied. */
  function NodeRow(d: Draft, k: nat): AccountRow
    requires k <= |SPECIFIED|
  {
    if k == 0 then ZERO_ROW
    else
      var c := SPECIFIED[k - 1];
      if Setting(d, c).Some? then Put(NodeRow(d, k - 1), c, Setting(d, c).value) else NodeRow(d, k - 1)
  }

  ghost predicate Written(d: Draft, node: Account, spec: CreateSpec, k: nat)
    requires k <= |SPECIFIED|
    reads node`row, spec`fields
  {
    node.row == NodeRow(d, k) && spec.fields == SpecFields(d, k)
  }

  method CopyInt(m: AccountMutation, node: Account, spec: CreateSpec, f: Int64Field, ghost k: nat)
    requires k < |SPECIFIED| && SPECIFIED[k] == Int64Column(f) && Written(m.draft, node, spec, k)
    modifies node`row, spec`fields
    ensures Written(m.draft, node, spec, k + 1)
  {
    if f in m.draft.ints {
      spec.SetField(Int64Column(f), Number(m.draft.ints[f]));
      node.row := StoreInt64(node.row, f, m.draft.ints[f]);
    }
  }

  method CopyTime(m: AccountMutation, node: Account, spec: CreateSpec, f: TimeField, ghost k: nat)
    requires k < |SPECIFIED| && SPECIFIED[k] == TimeColumn(f) && Written(m.draft, node, spec, k)
    modifies node`row, spec`fields
    ensures Written(m.draft, node, spec, k + 1)
  {
    if f in m.draft.instants {
      spec.SetField(TimeColumn(f), Instant(m.draft.instants[f]));
      node.row := StoreTime(node.row, f, m.draft.instants[f]);
    }
  }

  method CopyText(m: AccountMutation, node: Account, spec: CreateSpec, f: StringField, ghost k: nat)
    requires k < |SPECIFIED| && SPECIFIED[k] == StringColumn(f) && Written(m.draft, node, spec, k)
    modifies node`row, spec`fields
    ensures Written(m.draft, node, spec, k + 1)
  {
    if f in m.draft.texts {
      spec.SetField(StringColumn(f), Text(m.draft.texts[f]));
      node.row := StoreString(node.row, f, m.draft.texts[f]);
    }
  }

  method CopyFlag(m: AccountMutation, node: Account, spec: CreateSpec, f: BoolField, ghost k: nat)
    requires k < |SPECIFIED| && SPECIFIED[k] == BoolColumn(f) && Written(m.draft, node, spec, k)
    modifies node`row, spec`fields
    ensures Written(m.draft, node, spec, k + 1)
  {
    if f in m.draft.flags {
      spec.SetField(BoolColumn(f), Flag(m.draft.flags[f]));
      node.row := StoreBool(node.row, f, m.draft.flags[f]);
    }
  }

  method CopyDocument(m: AccountMutation, node: Account, spec: CreateSpec, f: JsonField, ghost k: nat)
    requires k < |SPECIFIED| && SPECIFIED[k] == JsonColumn(f) && Written(m.draft, node, spec, k)
    modifies node`row, spec`fields
    ensures Written(m.draft, node, spec, k + 1)
  {
    if f in m.draft.documents {
      spec.SetField(JsonColumn(f), Json(m.draft.documents[f]));
      node.row := StoreJson(node.row, f, m.draft.documents[f]);
    }
  }

  method CopyRate(m: AccountMutation, node: Account, spec: CreateSpec, ghost k: nat)
    requires k < |SPECIFIED| && SPECIFIED[k] == RateMultiplier && Written(m.draft, node, spec, k)
    modifies node`row, spec`fields
    ensures Written(m.draft, node, spec, k + 1)
  {
    if m.draft.rate.Some? {
      spec.SetField(RateMultiplier, Rate(m.draft.rate.value));
      node.row := node.row.(rateMultiplier := m.draft.rate.value);
    }
  }

  // ---- createSpec ----

  const GROUPS_TABLE := "account_groups"
  const ACCOUNTS_TABLE := "accounts"
  const USAGE_LOGS_TABLE := "usage_logs"
  const PROXY_COLUMN := "proxy_id"
  const PARENT_COLUMN := "parent_account_id"

  function GroupsEdge(d: Draft, rt: Runtime): EdgeSpec {
    EdgeSpec(M2M, false, GROUPS_TABLE, ["account_id", "group_id"], d.groups,
             [(PriorityField, rt.joinPriority), (CreatedAtField, rt.joinCreatedAt)])
  }

  function ProxyEdge(id: int): EdgeSpec {
    EdgeSpec(M2O, false, ACCOUNTS_TABLE, [PROXY_COLUMN], [id], [])
  }

  function ParentEdge(id: int): EdgeSpec {
    EdgeSpec(M2O, true, ACCOUNTS_TABLE, [PARENT_COLUMN], [id], [])
  }

  function ChildrenEdge(ids: seq<int>): EdgeSpec {
    EdgeSpec(O2M, false, ACCOUNTS_TABLE, [PARENT_COLUMN], ids, [])
  }

  function UsageLogsEdge(ids: seq<int>): EdgeSpec {
    EdgeSpec(O2M, false, USAGE_LOGS_TABLE, ["account_id"], ids, [])
  }

  /** One edge spec for every edge that has ids, in the order groups, proxy, parent, children, usage logs. */
  function SpecEdges(d: Draft, rt: Runtime): seq<EdgeSpec> {
    (if d.groups != [] then [GroupsEdge(d, rt)] else [])
    + (if d.proxy.Some? then [ProxyEdge(d.proxy.value)] else [])
    + (if d.parent.Some? then [ParentEdge(d.parent.value)] else [])
    + (if d.children != [] then [ChildrenEdge(d.children)] else [])
    + (if d.usageLogs != [] then [UsageLogsEdge(d.usageLogs)] else [])
  }

  function CreatedRow(d: Draft): AccountRow {
    NodeRow(d, |SPECIFIED|).(proxyID := d.proxy, parentAccountID := d.parent)
  }

  /** The node and the spec, column by column and then edge by edge. */
  method Describe(m: AccountMutation, rt: Runtime) returns (node: Account, spec: CreateSpec)
    ensures fresh(node) && fresh(spec)
    ensures node.row == CreatedRow(m.draft) && node.loaded == [false, false, false, false, false, false]
    ensures spec.id == None && spec.fields == SpecFields(m.draft, |SPECIFIED|) && spec.edges == SpecEdges(m.draft, rt)
  {
    hide NodeRow, SpecFields;
    node := new Account([false, false, false, false, false, false]);
    spec := new CreateSpec();
    NothingWritten(m.draft);
    DescribeIdentity(m, node, spec);
    DescribeSettings(m, node, spec);
    DescribeStates(m, node, spec);
    DescribeEdges(m, rt, node, spec);
  }

  method DescribeIdentity(m: AccountMutation, node: Account, spec: CreateSpec)
    requires Written(m.draft, node, spec, 0)
    modifies node`row, spec`fields
    ensures Written(m.draft, node, spec, 9)
  {
    hide *;
    IdentityOrder();
    CopyTime(m, node, spec, CreatedAt, 0);
    CopyTime(m, node, spec, UpdatedAt, 1);
    CopyTime(m, node, spec, DeletedAt, 2);
    CopyText(m, node, spec, Name, 3);
    CopyText(m, node, spec, Notes, 4);
    CopyText(m, node, spec, Platform, 5);
    CopyText(m, node, spec, Type, 6);
    CopyDocument(m, node, spec, Credentials, 7);
    CopyDocument(m, node, spec, Extra, 8);
  }

  method DescribeSettings(m: AccountMutation, node: Account, spec: CreateSpec)
    requires Written(m.draft, node, spec, 9)
    modifies node`row, spec`fields
    ensures Written(m.draft, node, spec, 20)
  {
    hide *;
    SettingsOrder();
    CopyInt(m, node, spec, ProxyFallbackOriginID, 9);
    CopyInt(m, node, spec, Concurrency, 10);
    CopyInt(m, node, spec, LoadFactor, 11);
    CopyInt(m, node, spec, Priority, 12);
    CopyRate(m, node, spec, 13);
    CopyText(m, node, spec, Status, 14);
    CopyText(m, node, spec, ErrorMessage, 15);
    CopyTime(m, node, spec, LastUsedAt, 16);
    CopyTime(m, node, spec, ExpiresAt, 17);
    CopyFlag(m, node, spec, AutoPauseOnExpired, 18);
    CopyFlag(m, node, spec, Schedulable, 19);
  }

  method DescribeStates(m: AccountMutation, node: Account, spec: CreateSpec)
    requires Written(m.draft, node, spec, 20)
    modifies node`row, spec`fields
    ensures Written(m.draft, node, spec, |SPECIFIED|)
  {
    hide *;
    StatesOrder();
    CopyTime(m, node, spec, RateLimitedAt, 20);
    CopyTime(m, node, spec, RateLimitResetAt, 21);
    CopyTime(m, node, spec, OverloadUntil, 22);
    CopyTime(m, node, spec, TempUnschedulableUntil, 23);
    CopyText(m, node, spec, TempUnschedulableReason, 24);
    CopyTime(m, node, spec, SessionWindowStart, 25);
    CopyTime(m, node, spec, SessionWindowEnd, 26);
    CopyText(m, node, spec, SessionWindowStatus, 27);
    CopyText(m, node, spec, QuotaDimension, 28);
  }

  lemma {:induction false} IdentityOrder()
    ensures |SPECIFIED| == 29
    ensures SPECIFIED[0] == TimeColumn(CreatedAt) && SPECIFIED[1] == TimeColumn(UpdatedAt)
            && SPECIFIED[2] == TimeColumn(DeletedAt)
    ensures SPECIFIED[3] == StringColumn(Name) && SPECIFIED[4] == StringColumn(Notes)
            && SPECIFIED[5] == StringColumn(Platform)
    ensures SPECIFIED[6] == StringColumn(Type) && SPECIFIED[7] == JsonColumn(Credentials)
            && SPECIFIED[8] == JsonColumn(Extra)
  {
  }

  lemma {:induction false} SettingsOrder()
    ensures |SPECIFIED| == 29
    ensures SPECIFIED[9] == Int64Column(ProxyFallbackOriginID) && SPECIFIED[10] == Int64Column(Concurrency)
            && SPECIFIED[11] == Int64Column(LoadFactor)
    ensures SPECIFIED[12] == Int64Column(Priority) && SPECIFIED[13] == RateMultiplier
            && SPECIFIED[14] == StringColumn(Status)
    ensures SPECIFIED[15] == StringColumn(ErrorMessage) && SPECIFIED[16] == TimeColumn(LastUsedAt)
            && SPECIFIED[17] == TimeColumn(ExpiresAt)
    ensures SPECIFIED[18] == BoolColumn(AutoPauseOnExpired) && SPECIFIED[19] == BoolColumn(Schedulable)
  {
  }

  lemma {:induction false} StatesOrder()
    ensures |SPECIFIED| == 29
    ensures SPECIFIED[20] == TimeColumn(RateLimitedAt) && SPECIFIED[21] == TimeColumn(RateLimitResetAt)
            && SPECIFIED[22] == TimeColumn(OverloadUntil)
    ensures SPECIFIED[23] == TimeColumn(TempUnschedulableUntil)
            && SPECIFIED[24] == StringColumn(TempUnschedulableReason) && SPECIFIED[25] == TimeColumn(SessionWindowStart)
    ensures SPECIFIED[26] == TimeColumn(SessionWindowEnd) && SPECIFIED[27] == StringColumn(SessionWindowStatus)
            && SPECIFIED[28] == StringColumn(QuotaDimension)
  {
  }

  method DescribeEdges(m: AccountMutation, rt: Runtime, node: Account, spec: CreateSpec)
    requires node.row.proxyID == None && node.row.parentAccountID == None && spec.edges == []
    modifies node`row, spec`edges
    ensures node.row == old(node.row).(proxyID := m.draft.proxy, parentAccountID := m.draft.parent)
    ensures spec.edges == SpecEdges(m.draft, rt)
  {
    hide GroupsEdge, ProxyEdge, ParentEdge, ChildrenEdge, UsageLogsEdge;
    if |m.draft.groups| > 0 {
      spec.edges := [GroupsEdge(m.draft, rt)];
    }
    ghost var one := spec.edges;
    if m.draft.proxy.Some? {
      node.row := node.row.(proxyID := m.draft.proxy);
      spec.edges := spec.edges + [ProxyEdge(m.draft.proxy.value)];
    }
    ghost var two := one + (if m.draft.proxy.Some? then [ProxyEdge(m.draft.proxy.value)] else []);
    assert spec.edges == two;
    if m.draft.parent.Some? {
      node.row := node.row.(parentAccountID := m.draft.parent);
      spec.edges := spec.edges + [ParentEdge(m.draft.parent.value)];
    }
    ghost var three := two + (if m.draft.parent.Some? then [ParentEdge(m.draft.parent.value)] else []);
    assert spec.edges == three;
    DescribeToMany(m, spec);
  }

  method DescribeToMany(m: AccountMutation, spec: CreateSpec)
    modifies spec`edges
    ensures spec.edges == old(spec.edges) + (if m.draft.children != [] then [ChildrenEdge(m.draft.children)] else [])
                          + (if m.draft.usageLogs != [] then [UsageLogsEdge(m.draft.usageLogs)] else [])
  {
    ghost var before := spec.edges;
    if |m.draft.children| > 0 {
      spec.edges := spec.edges + [ChildrenEdge(m.draft.children)];
    } else {
      assert before + [] == before;
    }
    ghost var middle := spec.edges;
    if |m.draft.usageLogs| > 0 {
      spec.edges := spec.edges + [UsageLogsEdge(m.draft.usageLogs)];
    } else {
      assert middle + [] == middle;
    }
  }

  lemma {:induction false} NothingWritten(d: Draft)
    ensures NodeRow(d, 0) == ZERO_ROW && SpecFields(d, 0) == []
    ensures NodeRow(d, |SPECIFIED|).proxyID == None && NodeRow(d, |SPECIFIED|).parentAccountID == None
  {
    NodeCell(d, |SPECIFIED|, Int64Column(ProxyID));
    NodeCell(d, |SPECIFIED|, Int64Column(ParentAccountID));
  }

  // ======== reading the row back ========

  lemma {:induction false} PutLens(row: AccountRow, d: Draft, c: Column, other: Column)
    requires Setting(d, c).Some?
    ensures Cell(Put(row, c, Setting(d, c).value), other) == if other == c then Bind(Setting(d, c).value)
              else Cell(row, other)
  {
    match c {
      case Int64Column(f) => StoreInt64Lens(row, f, d.ints[f], other);
      case TimeColumn(f) => StoreTimeLens(row, f, d.instants[f], other);
      case StringColumn(f) => StoreStringLens(row, f, d.texts[f], other);
      case BoolColumn(f) => StoreBoolLens(row, f, d.flags[f], other);
      case JsonColumn(f) => StoreJsonLens(row, f, d.documents[f], other);
      case RateMultiplier =>
    }
  }

  /** The entity shows every setting that was copied, and the zero value elsewhere. */
  lemma {:induction false} NodeCell(d: Draft, k: nat, c: Column)
    requires k <= |SPECIFIED|
    ensures Cell(NodeRow(d, k), c)
         == if c in SPECIFIED[..k] && Setting(d, c).Some? then Bind(Setting(d, c).value) else Cell(ZERO_ROW, c)
  {
    hide Setting, Put, Cell, SPECIFIED;
    if k > 0 {
      NodeCell(d, k - 1, c);
      SpecifiedStep(k, c);
      if Setting(d, SPECIFIED[k - 1]).Some? {
        PutLens(NodeRow(d, k - 1), d, SPECIFIED[k - 1], c);
      }
    }
  }

  function Lookup(fields: seq<(Column, Value)>, c: Column): Option<Value> {
    if fields == [] then None
    else
      var n := |fields| - 1;
      if fields[n].0 == c then Some(fields[n].1) else Lookup(fields[..n], c)
  }

  lemma {:induction false} LookupSnoc(fields: seq<(Column, Value)>, last: (Column, Value), c: Column)
    ensures Lookup(fields + [last], c) == if last.0 == c then Some(last.1) else Lookup(fields, c)
  {
    assert (fields + [last])[..|fields|] == fields;
  }

  lemma {:induction false} SpecifiedStep(k: nat, c: Column)
    requires 0 < k <= |SPECIFIED|
    ensures c in SPECIFIED[..k] <==> c in SPECIFIED[..k - 1] || c == SPECIFIED[k - 1]
  {
    hide SPECIFIED;
    assert SPECIFIED[..k] == SPECIFIED[..k - 1] + [SPECIFIED[k - 1]];
  }

  lemma {:induction false} LookupField(d: Draft, k: nat, c: Column)
    requires k <= |SPECIFIED|
    ensures Lookup(SpecFields(d, k), c) == if c in SPECIFIED[..k] then Setting(d, c) else None
  {
    hide Setting, Lookup, SPECIFIED;
    if k == 0 {
      NothingToLookUp(c);
    } else {
      LookupField(d, k - 1, c);
      SpecifiedStep(k, c);
      var at := SPECIFIED[k - 1];
      if Setting(d, at).Some? {
        LookupSnoc(SpecFields(d, k - 1), (at, Setting(d, at).value), c);
      }
    }
  }

  lemma {:induction false} NothingToLookUp(c: Column)
    ensures Lookup([], c) == None
  {
  }

  /** The id a many-to-one edge spec writes into a foreign key column of the row itself. */
  function ForeignKey(edges: seq<EdgeSpec>, column: string): Option<int> {
    if edges == [] then None
    else
      var e := edges[|edges| - 1];
      if e.rel == M2O && e.columns == [column] && e.nodes != [] then Some(e.nodes[0])
      else ForeignKey(edges[..|edges| - 1], column)
  }

  lemma {:induction false} ForeignKeyConcat(a: seq<EdgeSpec>, b: seq<EdgeSpec>, column: string)
    ensures ForeignKey(a + b, column) == if ForeignKey(b, column).Some? then ForeignKey(b, column)
              else ForeignKey(a, column)
  {
    if b == [] {
      assert a + b == a;
    } else {
      var n := |b| - 1;
      ForeignKeyConcat(a, b[..n], column);
      assert (a + b)[..|a| + n] == a + b[..n];
    }
  }

  lemma {:induction false} ForeignKeyOfAll(a: seq<EdgeSpec>, b: seq<EdgeSpec>, c: seq<EdgeSpec>, d: seq<EdgeSpec>,
                                           e: seq<EdgeSpec>, column: string)
    requires ForeignKey(a, column) == ForeignKey(d, column) == ForeignKey(e, column) == None
    ensures ForeignKey(a + b + c + d + e, column)
            == if ForeignKey(c, column).Some? then ForeignKey(c, column) else ForeignKey(b, column)
  {
    hide ForeignKey;
    ForeignKeyConcat(a + b + c + d, e, column);
    ForeignKeyConcat(a + b + c, d, column);
    ForeignKeyConcat(a + b, c, column);
    ForeignKeyConcat(a, b, column);
  }

  lemma {:induction false} ForeignKeys(d: Draft, rt: Runtime)
    ensures ForeignKey(SpecEdges(d, rt), PROXY_COLUMN) == d.proxy
    ensures ForeignKey(SpecEdges(d, rt), PARENT_COLUMN) == d.parent
  {
    hide SpecEdges, PROXY_COLUMN, PARENT_COLUMN;
    DifferentColumns();
    ForeignKeyIn(d, rt, PROXY_COLUMN);
    ForeignKeyIn(d, rt, PARENT_COLUMN);
  }

  lemma {:induction false} ForeignKeyIn(d: Draft, rt: Runtime, column: string)
    requires PROXY_COLUMN != PARENT_COLUMN
    ensures ForeignKey(SpecEdges(d, rt), column)
            == if column == PROXY_COLUMN then d.proxy else if column == PARENT_COLUMN then d.parent else None
  {
    hide ForeignKey, PROXY_COLUMN, PARENT_COLUMN, GroupsEdge, ProxyEdge, ParentEdge, ChildrenEdge, UsageLogsEdge;
    var groups := if d.groups != [] then [GroupsEdge(d, rt)] else [];
    var proxy := if d.proxy.Some? then [ProxyEdge(d.proxy.value)] else [];
    var parent := if d.parent.Some? then [ParentEdge(d.parent.value)] else [];
    var children := if d.children != [] then [ChildrenEdge(d.children)] else [];
    var usageLogs := if d.usageLogs != [] then [UsageLogsEdge(d.usageLogs)] else [];
    ForeignKeyOfOne(groups, column);
    ForeignKeyOfOne(proxy, column);
    ForeignKeyOfOne(parent, column);
    ForeignKeyOfOne(children, column);
    ForeignKeyOfOne(usageLogs, column);
    EdgeKinds(d, rt);
    ForeignKeyOfAll(groups, proxy, parent, children, usageLogs, column);
  }

  /** Only the edges to the proxy and to the parent write to the row itself. */
  lemma {:induction false} EdgeKinds(d: Draft, rt: Runtime)
    ensures GroupsEdge(d, rt).rel == M2M && ChildrenEdge(d.children).rel == O2M
    ensures UsageLogsEdge(d.usageLogs).rel == O2M
    ensures d.proxy.Some? ==>
              var e := ProxyEdge(d.proxy.value);
              e.rel == M2O && e.columns == [PROXY_COLUMN] && e.nodes == [d.proxy.value]
    ensures d.parent.Some? ==>
              var e := ParentEdge(d.parent.value);
              e.rel == M2O && e.columns == [PARENT_COLUMN] && e.nodes == [d.parent.value]
  {
  }

  lemma {:induction false} DifferentColumns()
    ensures PROXY_COLUMN != PARENT_COLUMN
  {
    assert PROXY_COLUMN[1] != PARENT_COLUMN[1];
  }

  lemma {:induction false} ForeignKeyOfOne(edges: seq<EdgeSpec>, column: string)
    requires |edges| <= 1
    ensures ForeignKey(edges, column)
         == if edges != [] && edges[0].rel == M2O && edges[0].columns == [column] && edges[0].nodes != []
            then Some(edges[0].nodes[0]) else None
  {
    if edges != [] {
      assert edges[..0] == [];
    }
  }

  /** The stored row: the id from the database, foreign keys from the edge specs, settings from the fields, and
      NULL in every column the spec does not mention. */
  function Stored(id: int, fields: seq<(Column, Value)>, edges: seq<EdgeSpec>): Column -> Holder {
    (c: Column) =>
      if c == Int64Column(ID) then NullInt64(true, id)
      else if c == Int64Column(ProxyID) then IntHolder(ForeignKey(edges, PROXY_COLUMN))
      else if c == Int64Column(ParentAccountID) then IntHolder(ForeignKey(edges, PARENT_COLUMN))
      else match Lookup(fields, c)
        case Some(v) => Bind(v)
        case None => EmptyHolder(KindOf(c))
  }

  lemma {:induction false} SpecifiedPosition(c: Column) returns (k: nat)
    requires ValidColumn(c) && c !in {Int64Column(ID), Int64Column(ProxyID), Int64Column(ParentAccountID)}
    ensures k < |SPECIFIED| && SPECIFIED[k] == c
  {
    match c {
      case Int64Column(f) =>
        match f {
          case ProxyFallbackOriginID => k := 9; case Concurrency => k := 10; case LoadFactor => k := 11;
          case Priority => k := 12;
        }
      case TimeColumn(f) =>
        match f {
          case CreatedAt => k := 0; case UpdatedAt => k := 1; case DeletedAt => k := 2;
          case LastUsedAt => k := 16; case ExpiresAt => k := 17; case RateLimitedAt => k := 20;
          case RateLimitResetAt => k := 21; case OverloadUntil => k := 22;
          case TempUnschedulableUntil => k := 23; case SessionWindowStart => k := 25;
          case SessionWindowEnd => k := 26;
        }
      case StringColumn(f) =>
        match f {
          case Name => k := 3; case Notes => k := 4; case Platform => k := 5; case Type => k := 6;
          case Status => k := 14; case ErrorMessage => k := 15; case TempUnschedulableReason => k := 24;
          case SessionWindowStatus => k := 27; case QuotaDimension => k := 28;
        }
      case BoolColumn(f) =>
        match f {
          case AutoPauseOnExpired => k := 18; case Schedulable => k := 19;
        }
      case JsonColumn(f) =>
        match f {
          case Credentials => k := 7; case Extra => k := 8;
        }
      case RateMultiplier => k := 13;
    }
  }

  /** What the row that createSpec describes shows in a column. */
  lemma {:induction false} StoredCell(d: Draft, rt: Runtime, id: int, c: Column)
    requires ValidColumn(c)
    ensures var h := Stored(id, SpecFields(d, |SPECIFIED|), SpecEdges(d, rt))(c);
            h.Kind() == KindOf(c) && !AccountScan.Undecodable(c, h)
            && After(Some(Cell(ZERO_ROW, c)), c, h) == Some(Cell(CreatedRow(d).(id := id), c))
  {
    hide NodeRow, SpecFields, SpecEdges, Lookup, ForeignKey;
    if c in {Int64Column(ID), Int64Column(ProxyID), Int64Column(ParentAccountID)} {
      ForeignKeys(d, rt);
    } else {
      var k := SpecifiedPosition(c);
      KeyFieldsApart(NodeRow(d, |SPECIFIED|), id, d.proxy, d.parent, c);
      SettingStored(d, c);
    }
  }

  lemma {:induction false} SettingStored(d: Draft, c: Column)
    requires ValidColumn(c) && c in SPECIFIED && c != Int64Column(ID)
    ensures var h := match Lookup(SpecFields(d, |SPECIFIED|), c)
                     case Some(v) => Bind(v)
                     case None => EmptyHolder(KindOf(c));
            h.Kind() == KindOf(c) && !AccountScan.Undecodable(c, h)
            && After(Some(Cell(ZERO_ROW, c)), c, h) == Some(Cell(NodeRow(d, |SPECIFIED|), c))
  {
    hide NodeRow, SpecFields, Lookup;
    LookupField(d, |SPECIFIED|, c);
    NodeCell(d, |SPECIFIED|, c);
    assert SPECIFIED[..|SPECIFIED|] == SPECIFIED;
    ZeroReads(d, c);
  }

  /** Over a zero entity, a stored value shows as itself and NULL shows as the zero value. */
  lemma {:induction false} ZeroReads(d: Draft, c: Column)
    requires ValidColumn(c) && c != Int64Column(ID)
    ensures var h := match Setting(d, c) case Some(v) => Bind(v) case None => EmptyHolder(KindOf(c));
            h.Kind() == KindOf(c) && !AccountScan.Undecodable(c, h)
            && After(Some(Cell(ZERO_ROW, c)), c, h) == Some(if Setting(d, c).Some? then h else Cell(ZERO_ROW, c))
  {
    assert forall m: map<string, string> :: map[] + m == m;
  }

  lemma {:induction false} KeyFieldsApart(row: AccountRow, id: int, proxy: Option<int>, parent: Option<int>, c: Column)
    requires c !in {Int64Column(ID), Int64Column(ProxyID), Int64Column(ParentAccountID)}
    ensures Cell(row.(proxyID := proxy, parentAccountID := parent).(id := id), c) == Cell(row, c)
  {
  }

  /** The round trip: whatever was set, the row described by the spec, read in full, is the entity createSpec
      returned, but for the id, which is the database's. */
  lemma {:induction false} WriteReadRoundTrip(d: Draft, rt: Runtime, id: int, columns: seq<Column>)
    requires forall c :: c in columns <==> ValidColumn(c)
    ensures var stored := Stored(id, SpecFields(d, |SPECIFIED|), SpecEdges(d, rt));
            AssignAll(BLANK, columns, Map(stored, columns)) == Ok(Scanned(CreatedRow(d).(id := id), map[]))
  {
    hide CreatedRow, SpecFields, SpecEdges, Stored, AssignAll, Get, After;
    var stored := Stored(id, SpecFields(d, |SPECIFIED|), SpecEdges(d, rt));
    forall i | 0 <= i < |columns|
      ensures stored(columns[i]).Kind() == KindOf(columns[i])
              && !AccountScan.Undecodable(columns[i], stored(columns[i])) {
      assert columns[i] in columns;
      StoredCell(d, rt, id, columns[i]);
    }
    OnlyJsonCanFail(BLANK, columns, Map(stored, columns));
    var a, b := AssignAll(BLANK, columns, Map(stored, columns)).value, Scanned(CreatedRow(d).(id := id), map[]);
    forall c ensures Get(a, c) == Get(b, c) {
      AssignAllGet(BLANK, columns, stored, c);
      ReadBack(d, rt, id, c);
    }
    CellsDetermineEntity(a, b);
  }

  lemma {:induction false} ReadBack(d: Draft, rt: Runtime, id: int, c: Column)
    ensures var stored := Stored(id, SpecFields(d, |SPECIFIED|), SpecEdges(d, rt));
            Get(Scanned(CreatedRow(d).(id := id), map[]), c)
            == if ValidColumn(c) then After(Get(BLANK, c), c, stored(c)) else Get(BLANK, c)
  {
    hide CreatedRow, SpecFields, SpecEdges, Stored, After;
    if ValidColumn(c) {
      StoredCell(d, rt, id, c);
    }
  }
}
