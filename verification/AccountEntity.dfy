/** The accounts table as the query builders see it: columns, typed rows, the holders a scan fills, and
    the assignment of scanned holders to an entity. */
module AccountEntity {
  import opened Basics

  // Instants are abstract; only their identity matters here.
  type Time = int

  // A decoded JSON object column; None is the nil map.
  type Document = Option<map<string, string>>

  // The columns, grouped by the kind of holder scanValues gives them.
  datatype Int64Field =
    ID | ProxyID | ProxyFallbackOriginID | Concurrency | LoadFactor | Priority | ParentAccountID

  datatype TimeField =
    CreatedAt | UpdatedAt | DeletedAt | LastUsedAt | ExpiresAt | RateLimitedAt | RateLimitResetAt |
    OverloadUntil | TempUnschedulableUntil | SessionWindowStart | SessionWindowEnd

  datatype StringField =
    Name | Notes | Platform | Type | Status | ErrorMessage | TempUnschedulableReason |
    SessionWindowStatus | QuotaDimension

  datatype BoolField =
    AutoPauseOnExpired | Schedulable

  datatype JsonField =
    Credentials | Extra

  datatype Column =
    | Int64Column(int64: Int64Field)
    | TimeColumn(instant: TimeField)
    | StringColumn(text: StringField)
    | BoolColumn(flag: BoolField)
    | JsonColumn(json: JsonField)
    | RateMultiplier
    | Other(name: string)

  const ALL_COLUMNS: seq<Column> := [
    Int64Column(ID), TimeColumn(CreatedAt), TimeColumn(UpdatedAt), TimeColumn(DeletedAt),
    StringColumn(Name), StringColumn(Notes), StringColumn(Platform), StringColumn(Type),
    JsonColumn(Credentials), JsonColumn(Extra), Int64Column(ProxyID), Int64Column(ProxyFallbackOriginID),
    Int64Column(Concurrency), Int64Column(LoadFactor), Int64Column(Priority), RateMultiplier,
    StringColumn(Status), StringColumn(ErrorMessage), TimeColumn(LastUsedAt), TimeColumn(ExpiresAt),
    BoolColumn(AutoPauseOnExpired), BoolColumn(Schedulable), TimeColumn(RateLimitedAt),
    TimeColumn(RateLimitResetAt), TimeColumn(OverloadUntil), TimeColumn(TempUnschedulableUntil),
    StringColumn(TempUnschedulableReason), TimeColumn(SessionWindowStart), TimeColumn(SessionWindowEnd),
    StringColumn(SessionWindowStatus), Int64Column(ParentAccountID), StringColumn(QuotaDimension)]

  predicate ValidColumn(c: Column) {
    !c.Other?
  }

  datatype AccountRow = AccountRow(
    id: int, createdAt: Time, updatedAt: Time, deletedAt: Option<Time>, name: string,
    notes: Option<string>, platform: string, kind: string, credentials: Document, extra: Document,
    proxyID: Option<int>, proxyFallbackOriginID: Option<int>, concurrency: int, loadFactor: Option<int>,
    priority: int, rateMultiplier: real, status: string, errorMessage: Option<string>,
    lastUsedAt: Option<Time>, expiresAt: Option<Time>, autoPauseOnExpired: bool, schedulable: bool,
    rateLimitedAt: Option<Time>, rateLimitResetAt: Option<Time>, overloadUntil: Option<Time>,
    tempUnschedulableUntil: Option<Time>, tempUnschedulableReason: Option<string>,
    sessionWindowStart: Option<Time>, sessionWindowEnd: Option<Time>, sessionWindowStatus: Option<string>,
    parentAccountID: Option<int>, quotaDimension: string)

  const ZERO_ROW := AccountRow(
    0, 0, 0, None, "", None, "", "", None, None, None, None, 0, None, 0, 0.0, "", None, None, None, false,
    false, None, None, None, None, None, None, None, None, None, "")

  // What a JSON column may hold, as far as decoding into a map tells the cases apart.
  datatype Blob = NoBytes | NullDocument | Object(members: map<string, string>) | Undecodable

  datatype HolderKind = Int64Kind | StringKind | TimeKind | BoolKind | Float64Kind | BytesKind | UnknownKind

  /** One scan destination. */
  datatype Holder =
    | NullInt64(valid: bool, number: int)
    | NullString(valid: bool, text: string)
    | NullTime(valid: bool, time: Time)
    | NullBool(valid: bool, flag: bool)
    | NullFloat64(valid: bool, decimal: real)
    | RawBytes(blob: Blob)
    | UnknownType(raw: string)
  {
    function Kind(): HolderKind {
      match this
      case NullInt64(_, _) => Int64Kind
      case NullString(_, _) => StringKind
      case NullTime(_, _) => TimeKind
      case NullBool(_, _) => BoolKind
      case NullFloat64(_, _) => Float64Kind
      case RawBytes(_) => BytesKind
      case UnknownType(_) => UnknownKind
    }
  }

  function KindOf(c: Column): HolderKind {
    match c
    case Int64Column(_) => Int64Kind
    case TimeColumn(_) => TimeKind
    case StringColumn(_) => StringKind
    case BoolColumn(_) => BoolKind
    case JsonColumn(_) => BytesKind
    case RateMultiplier => Float64Kind
    case Other(_) => UnknownKind
  }

  function EmptyHolder(kind: HolderKind): Holder {
    match kind
    case Int64Kind => NullInt64(false, 0)
    case StringKind => NullString(false, "")
    case TimeKind => NullTime(false, 0)
    case BoolKind => NullBool(false, false)
    case Float64Kind => NullFloat64(false, 0.0)
    case BytesKind => RawBytes(NoBytes)
    case UnknownKind => UnknownType("")
  }

  // ---- encoding of values as the database delivers them ----

  function IntHolder(v: Option<int>): Holder {
    if v.None? then NullInt64(false, 0) else NullInt64(true, v.value)
  }

  function StringHolder(v: Option<string>): Holder {
    if v.None? then NullString(false, "") else NullString(true, v.value)
  }

  function TimeHolder(v: Option<Time>): Holder {
    if v.None? then NullTime(false, 0) else NullTime(true, v.value)
  }

  // json.Marshal of a map: the nil map is the document null.
  function Marshal(d: Document): Blob {
    if d.None? then NullDocument else Object(d.value)
  }

  /** json.Unmarshal into an existing map: an object adds its members to the map that is there,
      null makes the map nil, anything else is an error. */
  function Unmarshal(target: Document, b: Blob): Option<Document> {
    match b
    case NullDocument => Some(None)
    case Object(members) => Some(Some((if target.Some? then target.value else map[]) + members))
    case NoBytes | Undecodable => None
  }

  function Int64Value(row: AccountRow, f: Int64Field): Option<int> {
    match f
    case ID => Some(row.id)
    case ProxyID => row.proxyID
    case ProxyFallbackOriginID => row.proxyFallbackOriginID
    case Concurrency => Some(row.concurrency)
    case LoadFactor => row.loadFactor
    case Priority => Some(row.priority)
    case ParentAccountID => row.parentAccountID
  }

  function TimeValue(row: AccountRow, f: TimeField): Option<Time> {
    match f
    case CreatedAt => Some(row.createdAt)
    case UpdatedAt => Some(row.updatedAt)
    case DeletedAt => row.deletedAt
    case LastUsedAt => row.lastUsedAt
    case ExpiresAt => row.expiresAt
    case RateLimitedAt => row.rateLimitedAt
    case RateLimitResetAt => row.rateLimitResetAt
    case OverloadUntil => row.overloadUntil
    case TempUnschedulableUntil => row.tempUnschedulableUntil
    case SessionWindowStart => row.sessionWindowStart
    case SessionWindowEnd => row.sessionWindowEnd
  }

  function StringValue(row: AccountRow, f: StringField): Option<string> {
    match f
    case Name => Some(row.name)
    case Notes => row.notes
    case Platform => Some(row.platform)
    case Type => Some(row.kind)
    case Status => Some(row.status)
    case ErrorMessage => row.errorMessage
    case TempUnschedulableReason => row.tempUnschedulableReason
    case SessionWindowStatus => row.sessionWindowStatus
    case QuotaDimension => Some(row.quotaDimension)
  }

  function BoolValue(row: AccountRow, f: BoolField): bool {
    match f
    case AutoPauseOnExpired => row.autoPauseOnExpired
    case Schedulable => row.schedulable
  }

  function JsonValue(row: AccountRow, f: JsonField): Document {
    match f
    case Credentials => row.credentials
    case Extra => row.extra
  }

  /** The holder a scan of column c of this row fills. */
  function Cell(row: AccountRow, c: Column): Holder {
    match c
    case Int64Column(f) => IntHolder(Int64Value(row, f))
    case TimeColumn(f) => TimeHolder(TimeValue(row, f))
    case StringColumn(f) => StringHolder(StringValue(row, f))
    case BoolColumn(f) => NullBool(true, BoolValue(row, f))
    case JsonColumn(f) => RawBytes(Marshal(JsonValue(row, f)))
    case RateMultiplier => NullFloat64(true, row.rateMultiplier)
    case Other(_) => UnknownType("")
  }

  // ---- assignment ----

  datatype AssignError = CountMismatch(values: nat, columns: nat) | TypeMismatch(column: Column)
    | BadJson(field: JsonField)

  /** An entity under construction: its columns, and the values selected beside them. */
  datatype Scanned = Scanned(row: AccountRow, selectValues: map<string, Holder>)

  const BLANK := Scanned(ZERO_ROW, map[])

  function StoreInt64(row: AccountRow, f: Int64Field, v: int): AccountRow {
    match f
    case ID => row.(id := v)
    case ProxyID => row.(proxyID := Some(v))
    case ProxyFallbackOriginID => row.(proxyFallbackOriginID := Some(v))
    case Concurrency => row.(concurrency := v)
    case LoadFactor => row.(loadFactor := Some(v))
    case Priority => row.(priority := v)
    case ParentAccountID => row.(parentAccountID := Some(v))
  }

  function StoreTime(row: AccountRow, f: TimeField, v: Time): AccountRow {
    match f
    case CreatedAt => row.(createdAt := v)
    case UpdatedAt => row.(updatedAt := v)
    case DeletedAt => row.(deletedAt := Some(v))
    case LastUsedAt => row.(lastUsedAt := Some(v))
    case ExpiresAt => row.(expiresAt := Some(v))
    case RateLimitedAt => row.(rateLimitedAt := Some(v))
    case RateLimitResetAt => row.(rateLimitResetAt := Some(v))
    case OverloadUntil => row.(overloadUntil := Some(v))
    case TempUnschedulableUntil => row.(tempUnschedulableUntil := Some(v))
    case SessionWindowStart => row.(sessionWindowStart := Some(v))
    case SessionWindowEnd => row.(sessionWindowEnd := Some(v))
  }

  function StoreString(row: AccountRow, f: StringField, v: string): AccountRow {
    match f
    case Name => row.(name := v)
    case Notes => row.(notes := Some(v))
    case Platform => row.(platform := v)
    case Type => row.(kind := v)
    case Status => row.(status := v)
    case ErrorMessage => row.(errorMessage := Some(v))
    case TempUnschedulableReason => row.(tempUnschedulableReason := Some(v))
    case SessionWindowStatus => row.(sessionWindowStatus := Some(v))
    case QuotaDimension => row.(quotaDimension := v)
  }

  function StoreBool(row: AccountRow, f: BoolField, v: bool): AccountRow {
    match f
    case AutoPauseOnExpired => row.(autoPauseOnExpired := v)
    case Schedulable => row.(schedulable := v)
  }

  function StoreJson(row: AccountRow, f: JsonField, v: Document): AccountRow {
    match f
    case Credentials => row.(credentials := v)
    case Extra => row.(extra := v)
  }

  function AssignJson(s: Scanned, f: JsonField, blob: Blob): Result<Scanned, AssignError> {
    if blob.NoBytes? then Ok(s)
    else
      match Unmarshal(JsonValue(s.row, f), blob)
      case None => Err(BadJson(f))
      case Some(d) => Ok(s.(row := StoreJson(s.row, f, d)))
  }

  /** One turn of the switch in assignValues. */
  function AssignColumn(s: Scanned, c: Column, h: Holder): Result<Scanned, AssignError> {
    if c.Other? then Ok(s.(selectValues := s.selectValues[c.name := h]))
    else if h.Kind() != KindOf(c) then Err(TypeMismatch(c))
    else match c
      case Int64Column(f) => Ok(if f == ID || h.valid then s.(row := StoreInt64(s.row, f, h.number)) else s)
      case TimeColumn(f) => Ok(if h.valid then s.(row := StoreTime(s.row, f, h.time)) else s)
      case StringColumn(f) => Ok(if h.valid then s.(row := StoreString(s.row, f, h.text)) else s)
      case BoolColumn(f) => Ok(if h.valid then s.(row := StoreBool(s.row, f, h.flag)) else s)
      case JsonColumn(f) => AssignJson(s, f, h.blob)
      case RateMultiplier => Ok(if h.valid then s.(row := s.row.(rateMultiplier := h.decimal)) else s)
  }

  /** The columns from left to right, stopping at the first error. */
  function AssignAll(s: Scanned, columns: seq<Column>, values: seq<Holder>): Result<Scanned, AssignError>
    requires |columns| <= |values|
  {
    if columns == [] then Ok(s)
    else
      var n := |columns| - 1;
      match AssignAll(s, columns[..n], values)
      case Err(e) => Err(e)
      case Ok(s') => AssignColumn(s', columns[n], values[n])
  }
}
