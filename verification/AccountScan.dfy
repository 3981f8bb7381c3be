/** What scanning and assigning columns amounts to: assignment is a well-behaved update of one column,
    so the outcome depends only on which columns were read and what they held. */
module AccountScan {
  import opened Basics
  import opened AccountEntity

  // ---- storing one column leaves the others alone ----

  lemma {:induction false} StoreInt64Lens(row: AccountRow, f: Int64Field, v: int, other: Column)
    ensures other != Int64Column(f) ==> Cell(StoreInt64(row, f, v), other) == Cell(row, other)
    ensures Int64Value(StoreInt64(row, f, v), f) == Some(v)
  {
  }

  lemma {:induction false} StoreTimeLens(row: AccountRow, f: TimeField, v: Time, other: Column)
    ensures other != TimeColumn(f) ==> Cell(StoreTime(row, f, v), other) == Cell(row, other)
    ensures TimeValue(StoreTime(row, f, v), f) == Some(v)
  {
  }

  lemma {:induction false} StoreStringLens(row: AccountRow, f: StringField, v: string, other: Column)
    ensures other != StringColumn(f) ==> Cell(StoreString(row, f, v), other) == Cell(row, other)
    ensures StringValue(StoreString(row, f, v), f) == Some(v)
  {
  }

  lemma {:induction false} StoreBoolLens(row: AccountRow, f: BoolField, v: bool, other: Column)
    ensures other != BoolColumn(f) ==> Cell(StoreBool(row, f, v), other) == Cell(row, other)
    ensures BoolValue(StoreBool(row, f, v), f) == v
  {
  }

  lemma {:induction false} StoreJsonLens(row: AccountRow, f: JsonField, v: Document, other: Column)
    ensures other != JsonColumn(f) ==> Cell(StoreJson(row, f, v), other) == Cell(row, other)
    ensures JsonValue(StoreJson(row, f, v), f) == v
  {
  }

  // ---- reading and writing one column ----

  /** The value an entity shows for a column; None for a value that was never selected. */
  function Get(s: Scanned, c: Column): Option<Holder> {
    if c.Other? then (if c.name in s.selectValues then Some(s.selectValues[c.name]) else None)
    else Some(Cell(s.row, c))
  }

  /** What a column that showed `before` shows after a holder of its kind was assigned to it: the new value if
      there is one, except that a JSON object joins the members already there and an id is never null. */
  function After(before: Option<Holder>, c: Column, h: Holder): Option<Holder> {
    match h
    case NullInt64(_, n) => if c == Int64Column(ID) then Some(NullInt64(true, n)) else if h.valid then Some(h)
      else before
    case RawBytes(NoBytes) => before
    case RawBytes(Object(added)) =>
      if before.Some? && before.value.RawBytes? && before.value.blob.Object?
      then Some(RawBytes(Object(before.value.blob.members + added))) else Some(h)
    case RawBytes(_) => Some(h)
    case UnknownType(_) => Some(h)
    case _ => if h.valid then Some(h) else before
  }

  /** Assigning a column changes that column as After says, and no other. */
  lemma {:induction false} AssignColumnLens(s: Scanned, c: Column, h: Holder, other: Column)
    requires h.Kind() == KindOf(c) && AssignColumn(s, c, h).Ok?
    ensures Get(AssignColumn(s, c, h).value, other) == if other == c then After(Get(s, c), c, h) else Get(s, other)
  {
    match c {
      case Int64Column(f) => StoreInt64Lens(s.row, f, h.number, other);
      case TimeColumn(f) => StoreTimeLens(s.row, f, h.time, other);
      case StringColumn(f) => StoreStringLens(s.row, f, h.text, other);
      case BoolColumn(f) => StoreBoolLens(s.row, f, h.flag, other);
      case JsonColumn(f) =>
        assert forall m: map<string, string> :: map[] + m == m;
        if !h.blob.NoBytes? {
          StoreJsonLens(s.row, f, Unmarshal(JsonValue(s.row, f), h.blob).value, other);
        }
      case RateMultiplier =>
      case Other(_) =>
    }
  }

  /** An entity is determined by what its columns show. */
  lemma {:induction false} CellsDetermineEntity(a: Scanned, b: Scanned)
    requires forall c :: Get(a, c) == Get(b, c)
    ensures a == b
  {
    forall f: Int64Field ensures Int64Value(a.row, f) == Int64Value(b.row, f) {
      assert Get(a, Int64Column(f)) == Get(b, Int64Column(f));
    }
    forall f: TimeField ensures TimeValue(a.row, f) == TimeValue(b.row, f) {
      assert Get(a, TimeColumn(f)) == Get(b, TimeColumn(f));
    }
    forall f: StringField ensures StringValue(a.row, f) == StringValue(b.row, f) {
      assert Get(a, StringColumn(f)) == Get(b, StringColumn(f));
    }
    forall f: BoolField ensures BoolValue(a.row, f) == BoolValue(b.row, f) {
      assert Get(a, BoolColumn(f)) == Get(b, BoolColumn(f));
    }
    forall f: JsonField ensures JsonValue(a.row, f) == JsonValue(b.row, f) {
      assert Get(a, JsonColumn(f)) == Get(b, JsonColumn(f));
    }
    assert Get(a, RateMultiplier) == Get(b, RateMultiplier);
    ValuesDetermineRow(a.row, b.row);
    forall n: string ensures n in a.selectValues <==> n in b.selectValues
                     ensures n in a.selectValues ==> a.selectValues[n] == b.selectValues[n] {
      assert Get(a, Other(n)) == Get(b, Other(n));
    }
  }

  lemma {:induction false} Int64ValuesDetermineFields(a: AccountRow, b: AccountRow)
    requires forall f :: Int64Value(a, f) == Int64Value(b, f)
    ensures a.id == b.id && a.proxyID == b.proxyID && a.proxyFallbackOriginID == b.proxyFallbackOriginID
    ensures a.concurrency == b.concurrency && a.loadFactor == b.loadFactor && a.priority == b.priority
    ensures a.parentAccountID == b.parentAccountID
  {
    assert Int64Value(a, ID) == Int64Value(b, ID) && Int64Value(a, ProxyID) == Int64Value(b, ProxyID);
    assert Int64Value(a, ProxyFallbackOriginID) == Int64Value(b, ProxyFallbackOriginID)
           && Int64Value(a, Concurrency) == Int64Value(b, Concurrency);
    assert Int64Value(a, LoadFactor) == Int64Value(b, LoadFactor) && Int64Value(a, Priority) == Int64Value(b, Priority);
    assert Int64Value(a, ParentAccountID) == Int64Value(b, ParentAccountID);
  }

  lemma {:induction false} TimeValuesDetermineFields(a: AccountRow, b: AccountRow)
    requires forall f :: TimeValue(a, f) == TimeValue(b, f)
    ensures a.createdAt == b.createdAt && a.updatedAt == b.updatedAt && a.deletedAt == b.deletedAt
    ensures a.lastUsedAt == b.lastUsedAt && a.expiresAt == b.expiresAt && a.rateLimitedAt == b.rateLimitedAt
    ensures a.rateLimitResetAt == b.rateLimitResetAt && a.overloadUntil == b.overloadUntil
            && a.tempUnschedulableUntil == b.tempUnschedulableUntil
    ensures a.sessionWindowStart == b.sessionWindowStart && a.sessionWindowEnd == b.sessionWindowEnd
  {
    assert TimeValue(a, CreatedAt) == TimeValue(b, CreatedAt) && TimeValue(a, UpdatedAt) == TimeValue(b, UpdatedAt);
    assert TimeValue(a, DeletedAt) == TimeValue(b, DeletedAt) && TimeValue(a, LastUsedAt) == TimeValue(b, LastUsedAt);
    assert TimeValue(a, ExpiresAt) == TimeValue(b, ExpiresAt)
           && TimeValue(a, RateLimitedAt) == TimeValue(b, RateLimitedAt);
    assert TimeValue(a, RateLimitResetAt) == TimeValue(b, RateLimitResetAt)
           && TimeValue(a, OverloadUntil) == TimeValue(b, OverloadUntil);
    assert TimeValue(a, TempUnschedulableUntil) == TimeValue(b, TempUnschedulableUntil)
           && TimeValue(a, SessionWindowStart) == TimeValue(b, SessionWindowStart);
    assert TimeValue(a, SessionWindowEnd) == TimeValue(b, SessionWindowEnd);
  }

  lemma {:induction false} StringValuesDetermineFields(a: AccountRow, b: AccountRow)
    requires forall f :: StringValue(a, f) == StringValue(b, f)
    ensures a.name == b.name && a.notes == b.notes && a.platform == b.platform
    ensures a.kind == b.kind && a.status == b.status && a.errorMessage == b.errorMessage
    ensures a.tempUnschedulableReason == b.tempUnschedulableReason && a.sessionWindowStatus == b.sessionWindowStatus
            && a.quotaDimension == b.quotaDimension
  {
    assert StringValue(a, Name) == StringValue(b, Name) && StringValue(a, Notes) == StringValue(b, Notes);
    assert StringValue(a, Platform) == StringValue(b, Platform) && StringValue(a, Type) == StringValue(b, Type);
    assert StringValue(a, Status) == StringValue(b, Status)
           && StringValue(a, ErrorMessage) == StringValue(b, ErrorMessage);
    assert StringValue(a, TempUnschedulableReason) == StringValue(b, TempUnschedulableReason)
           && StringValue(a, SessionWindowStatus) == StringValue(b, SessionWindowStatus);
    assert StringValue(a, QuotaDimension) == StringValue(b, QuotaDimension);
  }

  lemma {:induction false} BoolValuesDetermineFields(a: AccountRow, b: AccountRow)
    requires forall f :: BoolValue(a, f) == BoolValue(b, f)
    ensures a.autoPauseOnExpired == b.autoPauseOnExpired && a.schedulable == b.schedulable
  {
    assert BoolValue(a, AutoPauseOnExpired) == BoolValue(b, AutoPauseOnExpired)
           && BoolValue(a, Schedulable) == BoolValue(b, Schedulable);
  }

  lemma {:induction false} JsonValuesDetermineFields(a: AccountRow, b: AccountRow)
    requires forall f :: JsonValue(a, f) == JsonValue(b, f)
    ensures a.credentials == b.credentials && a.extra == b.extra
  {
    assert JsonValue(a, Credentials) == JsonValue(b, Credentials) && JsonValue(a, Extra) == JsonValue(b, Extra);
  }

  lemma {:induction false} ValuesDetermineRow(a: AccountRow, b: AccountRow)
    requires forall f :: Int64Value(a, f) == Int64Value(b, f)
    requires forall f :: TimeValue(a, f) == TimeValue(b, f)
    requires forall f :: StringValue(a, f) == StringValue(b, f)
    requires forall f :: BoolValue(a, f) == BoolValue(b, f)
    requires forall f :: JsonValue(a, f) == JsonValue(b, f)
    requires a.rateMultiplier == b.rateMultiplier
    ensures a == b
  {
    Int64ValuesDetermineFields(a, b);
    TimeValuesDetermineFields(a, b);
    StringValuesDetermineFields(a, b);
    BoolValuesDetermineFields(a, b);
    JsonValuesDetermineFields(a, b);
  }

  // ---- whole column lists ----

  /** Holders as scanValues makes them and a driver fills them: each of the kind of its column. */
  predicate Conform(columns: seq<Column>, values: seq<Holder>) {
    |columns| <= |values| && forall i :: 0 <= i < |columns| ==> values[i].Kind() == KindOf(columns[i])
  }

  predicate Undecodable(c: Column, h: Holder) {
    c.JsonColumn? && h.RawBytes? && h.blob.Undecodable?
  }

  /** For every column list, unknown and repeated columns included, the only error assignment can report over
      conforming holders is a JSON column that does not decode, and it reports one exactly when there is one. */
  lemma {:induction false} OnlyJsonCanFail(s: Scanned, columns: seq<Column>, values: seq<Holder>)
    requires Conform(columns, values)
    ensures AssignAll(s, columns, values).Err?
       <==> exists i :: 0 <= i < |columns| && Undecodable(columns[i], values[i])
    ensures AssignAll(s, columns, values).Err? ==> AssignAll(s, columns, values).error.BadJson?
  {
    if columns != [] {
      var n := |columns| - 1;
      var init := columns[..n];
      OnlyJsonCanFail(s, init, values);
      assert forall i :: 0 <= i < n ==> init[i] == columns[i];
    }
  }

  /** When every occurrence of a column holds the same value, each column shows what that value makes of it. */
  lemma {:induction false} AssignAllGet(s: Scanned, columns: seq<Column>, held: Column -> Holder, c: Column)
    requires Conform(columns, Map(held, columns)) && AssignAll(s, columns, Map(held, columns)).Ok?
    ensures Get(AssignAll(s, columns, Map(held, columns)).value, c)
         == if c in columns then After(Get(s, c), c, held(c)) else Get(s, c)
  {
    if columns != [] {
      var n := |columns| - 1;
      var init := columns[..n];
      var values := Map(held, columns);
      assert columns == init + [columns[n]];
      AssignAllPrefix(s, init, Map(held, init), values);
      AssignAllGet(s, init, held, c);
      AssignColumnLens(AssignAll(s, init, values).value, columns[n], values[n], c);
      AfterTwice(Get(s, c), c, held(c));
    }
  }

  lemma {:induction false} AssignAllPrefix(s: Scanned, columns: seq<Column>, a: seq<Holder>, b: seq<Holder>)
    requires |columns| <= |a| && |columns| <= |b|
    requires forall i :: 0 <= i < |columns| ==> a[i] == b[i]
    ensures AssignAll(s, columns, a) == AssignAll(s, columns, b)
  {
    if columns != [] {
      AssignAllPrefix(s, columns[..|columns| - 1], a, b);
    }
  }

  lemma {:induction false} AfterTwice(before: Option<Holder>, c: Column, h: Holder)
    ensures After(After(before, c, h), c, h) == After(before, c, h)
  {
    if h.RawBytes? && h.blob.Object? && before.Some? && before.value.RawBytes? && before.value.blob.Object? {
      var was, added := before.value.blob.members, h.blob.members;
      assert was + added + added == was + added;
    } else if h.RawBytes? && h.blob.Object? {
      assert h.blob.members + h.blob.members == h.blob.members;
    }
  }

  /** The entity a scan builds depends on which columns were read, not on their order or repetition. */
  lemma {:induction false} ColumnOrderIrrelevant(s: Scanned, columns: seq<Column>, others: seq<Column>,
                                                 held: Column -> Holder)
    requires forall c :: c in columns <==> c in others
    requires forall c :: held(c).Kind() == KindOf(c)
    ensures AssignAll(s, columns, Map(held, columns)).Ok? <==> AssignAll(s, others, Map(held, others)).Ok?
    ensures AssignAll(s, columns, Map(held, columns)).Ok?
        ==> AssignAll(s, columns, Map(held, columns)) == AssignAll(s, others, Map(held, others))
  {
    var a, b := AssignAll(s, columns, Map(held, columns)), AssignAll(s, others, Map(held, others));
    SameUndecodable(s, columns, others, held);
    SameUndecodable(s, others, columns, held);
    if a.Ok? {
      forall c ensures Get(a.value, c) == Get(b.value, c) {
        AssignAllGet(s, columns, held, c);
        AssignAllGet(s, others, held, c);
      }
      CellsDetermineEntity(a.value, b.value);
    }
  }

  lemma {:induction false} SameUndecodable(s: Scanned, columns: seq<Column>, others: seq<Column>,
                                           held: Column -> Holder)
    requires forall c :: c in columns ==> c in others
    requires forall c :: held(c).Kind() == KindOf(c)
    ensures AssignAll(s, columns, Map(held, columns)).Err? ==> AssignAll(s, others, Map(held, others)).Err?
  {
    OnlyJsonCanFail(s, columns, Map(held, columns));
    OnlyJsonCanFail(s, others, Map(held, others));
    if i :| 0 <= i < |columns| && Undecodable(columns[i], Map(held, columns)[i]) {
      assert columns[i] in others;
      var j :| 0 <= j < |others| && others[j] == columns[i];
      assert Undecodable(others[j], Map(held, others)[j]);
    }
  }

  // ---- scanning a stored row ----

  function Cells(row: AccountRow): Column -> Holder {
    (c: Column) => Cell(row, c)
  }

  /** The entity obtained by reading the given columns of a stored row. */
  function ScanRow(columns: seq<Column>, row: AccountRow): AccountRow {
    match AssignAll(BLANK, columns, Map(Cells(row), columns))
    case Ok(s) => s.row
    case Err(_) => ZERO_ROW
  }

  /** Reading a stored row never fails. */
  lemma {:induction false} ScanRowSucceeds(columns: seq<Column>, row: AccountRow)
    ensures Conform(columns, Map(Cells(row), columns))
    ensures AssignAll(BLANK, columns, Map(Cells(row), columns)).Ok?
  {
    OnlyJsonCanFail(BLANK, columns, Map(Cells(row), columns));
  }

  /** A column that was read shows the stored value; the others keep the zero value of the struct. */
  lemma {:induction false} ScanRowCell(columns: seq<Column>, row: AccountRow, c: Column)
    requires ValidColumn(c)
    ensures Cell(ScanRow(columns, row), c) == Cell(if c in columns then row else ZERO_ROW, c)
  {
    ScanRowSucceeds(columns, row);
    AssignAllGet(BLANK, columns, Cells(row), c);
  }

  /** Reading every column reproduces the row. */
  lemma {:induction false} ScanAllColumns(columns: seq<Column>, row: AccountRow)
    requires forall i :: 0 <= i < |ALL_COLUMNS| ==> ALL_COLUMNS[i] in columns
    ensures ScanRow(columns, row) == row
  {
    var a, b := Scanned(ScanRow(columns, row), map[]), Scanned(row, map[]);
    forall c ensures Get(a, c) == Get(b, c) {
      if ValidColumn(c) {
        var i := ColumnPosition(c);
        ScanRowCell(columns, row, c);
      }
    }
    CellsDetermineEntity(a, b);
  }

  /** The list of columns misses no column of the table. */
  lemma {:induction false} ColumnPosition(c: Column) returns (i: nat)
    requires ValidColumn(c)
    ensures i < |ALL_COLUMNS| && ALL_COLUMNS[i] == c
  {
    match c {
      case Int64Column(f) =>
        match f {
          case ID => i := 0; case ProxyID => i := 10; case ProxyFallbackOriginID => i := 11;
          case Concurrency => i := 12; case LoadFactor => i := 13; case Priority => i := 14;
          case ParentAccountID => i := 30;
        }
      case TimeColumn(f) =>
        match f {
          case CreatedAt => i := 1; case UpdatedAt => i := 2; case DeletedAt => i := 3;
          case LastUsedAt => i := 18; case ExpiresAt => i := 19; case RateLimitedAt => i := 22;
          case RateLimitResetAt => i := 23; case OverloadUntil => i := 24;
          case TempUnschedulableUntil => i := 25; case SessionWindowStart => i := 27;
          case SessionWindowEnd => i := 28;
        }
      case StringColumn(f) =>
        match f {
          case Name => i := 4; case Notes => i := 5; case Platform => i := 6; case Type => i := 7;
          case Status => i := 16; case ErrorMessage => i := 17; case TempUnschedulableReason => i := 26;
          case SessionWindowStatus => i := 29; case QuotaDimension => i := 31;
        }
      case BoolColumn(f) =>
        match f {
          case AutoPauseOnExpired => i := 20; case Schedulable => i := 21;
        }
      case JsonColumn(f) =>
        match f {
          case Credentials => i := 8; case Extra => i := 9;
        }
      case RateMultiplier => i := 15;
    }
  }
}
