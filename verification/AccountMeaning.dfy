/** What the columns of an account are, field by field: which field a column read fills, which field a setting of a
    new account ends up in, and what one assignment does. */
module AccountMeaning {
  import opened Basics
  import opened AccountEntity
  import opened AccountScan
  import opened AccountCreate
  import opened AccountSpec

  // ======== reading columns ========

  /** Where a field comes from: the stored row if its column was selected, or else an entity of zero values. */
  function Source(selected: Column -> bool, c: Column, row: AccountRow): AccountRow {
    if selected(c) then row else ZERO_ROW
  }

  predicate IntsRead(selected: Column -> bool, row: AccountRow, shown: AccountRow) {
    && shown.id == Source(selected, Int64Column(ID), row).id
    && shown.proxyID == Source(selected, Int64Column(ProxyID), row).proxyID
    && shown.proxyFallbackOriginID == Source(selected, Int64Column(ProxyFallbackOriginID), row).proxyFallbackOriginID
    && shown.concurrency == Source(selected, Int64Column(Concurrency), row).concurrency
    && shown.loadFactor == Source(selected, Int64Column(LoadFactor), row).loadFactor
    && shown.priority == Source(selected, Int64Column(Priority), row).priority
    && shown.parentAccountID == Source(selected, Int64Column(ParentAccountID), row).parentAccountID
  }

  predicate TimesRead(selected: Column -> bool, row: AccountRow, shown: AccountRow) {
    && shown.createdAt == Source(selected, TimeColumn(CreatedAt), row).createdAt
    && shown.updatedAt == Source(selected, TimeColumn(UpdatedAt), row).updatedAt
    && shown.deletedAt == Source(selected, TimeColumn(DeletedAt), row).deletedAt
    && shown.lastUsedAt == Source(selected, TimeColumn(LastUsedAt), row).lastUsedAt
    && shown.expiresAt == Source(selected, TimeColumn(ExpiresAt), row).expiresAt
    && shown.rateLimitedAt == Source(selected, TimeColumn(RateLimitedAt), row).rateLimitedAt
  }

  predicate LateTimesRead(selected: Column -> bool, row: AccountRow, shown: AccountRow) {
    && shown.rateLimitResetAt == Source(selected, TimeColumn(RateLimitResetAt), row).rateLimitResetAt
    && shown.overloadUntil == Source(selected, TimeColumn(OverloadUntil), row).overloadUntil
    && shown.tempUnschedulableUntil == Source(selected, TimeColumn(TempUnschedulableUntil), row).tempUnschedulableUntil
    && shown.sessionWindowStart == Source(selected, TimeColumn(SessionWindowStart), row).sessionWindowStart
    && shown.sessionWindowEnd == Source(selected, TimeColumn(SessionWindowEnd), row).sessionWindowEnd
  }

  predicate TextsRead(selected: Column -> bool, row: AccountRow, shown: AccountRow) {
    && shown.name == Source(selected, StringColumn(Name), row).name
    && shown.notes == Source(selected, StringColumn(Notes), row).notes
    && shown.platform == Source(selected, StringColumn(Platform), row).platform
    && shown.kind == Source(selected, StringColumn(Type), row).kind
    && shown.status == Source(selected, StringColumn(Status), row).status
    && shown.errorMessage == Source(selected, StringColumn(ErrorMessage), row).errorMessage
    && shown.tempUnschedulableReason
       == Source(selected, StringColumn(TempUnschedulableReason), row).tempUnschedulableReason
    && shown.sessionWindowStatus == Source(selected, StringColumn(SessionWindowStatus), row).sessionWindowStatus
    && shown.quotaDimension == Source(selected, StringColumn(QuotaDimension), row).quotaDimension
  }

  predicate OthersRead(selected: Column -> bool, row: AccountRow, shown: AccountRow) {
    && shown.credentials == Source(selected, JsonColumn(Credentials), row).credentials
    && shown.extra == Source(selected, JsonColumn(Extra), row).extra
    && shown.rateMultiplier == Source(selected, RateMultiplier, row).rateMultiplier
    && shown.autoPauseOnExpired == Source(selected, BoolColumn(AutoPauseOnExpired), row).autoPauseOnExpired
    && shown.schedulable == Source(selected, BoolColumn(Schedulable), row).schedulable
  }

  /** Every field shows the stored value if its own column was selected, and else the zero value. */
  predicate FieldsRead(selected: Column -> bool, row: AccountRow, shown: AccountRow) {
    && IntsRead(selected, row, shown) && TimesRead(selected, row, shown) && LateTimesRead(selected, row, shown)
    && TextsRead(selected, row, shown) && OthersRead(selected, row, shown)
  }

  lemma {:induction false} ZeroValues()
    ensures ZERO_ROW.id == 0 && ZERO_ROW.proxyID == None
    ensures ZERO_ROW.proxyFallbackOriginID == None && ZERO_ROW.concurrency == 0
    ensures ZERO_ROW.loadFactor == None && ZERO_ROW.priority == 0
    ensures ZERO_ROW.parentAccountID == None
    ensures ZERO_ROW.createdAt == 0 && ZERO_ROW.updatedAt == 0
    ensures ZERO_ROW.deletedAt == None && ZERO_ROW.lastUsedAt == None
    ensures ZERO_ROW.expiresAt == None && ZERO_ROW.rateLimitedAt == None
    ensures ZERO_ROW.rateLimitResetAt == None && ZERO_ROW.overloadUntil == None
    ensures ZERO_ROW.tempUnschedulableUntil == None && ZERO_ROW.sessionWindowStart == None
    ensures ZERO_ROW.sessionWindowEnd == None
    ensures ZERO_ROW.name == "" && ZERO_ROW.notes == None
    ensures ZERO_ROW.platform == "" && ZERO_ROW.kind == ""
    ensures ZERO_ROW.status == "" && ZERO_ROW.errorMessage == None
    ensures ZERO_ROW.tempUnschedulableReason == None && ZERO_ROW.sessionWindowStatus == None
    ensures ZERO_ROW.quotaDimension == ""
    ensures ZERO_ROW.credentials == None && ZERO_ROW.extra == None
    ensures ZERO_ROW.rateMultiplier == 0.0 && ZERO_ROW.autoPauseOnExpired == false
    ensures ZERO_ROW.schedulable == false
  {
  }

  function Among(columns: seq<Column>): Column -> bool {
    (c: Column) => c in columns
  }

  /** Scanning a row over a list of columns fills these fields and no others. */
  lemma {:induction false} ScanRowReads(columns: seq<Column>, row: AccountRow)
    ensures FieldsRead(Among(columns), row, ScanRow(columns, row))
  {
    hide ScanRow, Among, Cell, IntsRead, TimesRead, LateTimesRead, TextsRead, OthersRead;
    var shown := ScanRow(columns, row);
    forall c | ValidColumn(c) ensures Cell(shown, c) == Cell(Source(Among(columns), c, row), c) {
      ScanRowCell(columns, row, c);
      AmongMeans(columns, c);
    }
    CellsAreInts(Among(columns), row, shown);
    CellsAreTimes(Among(columns), row, shown);
    CellsAreLateTimes(Among(columns), row, shown);
    CellsAreTexts(Among(columns), row, shown);
    CellsAreOthers(Among(columns), row, shown);
  }

  lemma {:induction false} AmongMeans(columns: seq<Column>, c: Column)
    ensures Among(columns)(c) <==> c in columns
  {
  }

  lemma {:induction false} ReadInt64Value(selected: Column -> bool, row: AccountRow, shown: AccountRow, f: Int64Field)
    requires forall c :: ValidColumn(c) ==> Cell(shown, c) == Cell(Source(selected, c, row), c)
    ensures Int64Value(shown, f) == Int64Value(Source(selected, Int64Column(f), row), f)
  {
    hide Int64Value, Source;
    assert Cell(shown, Int64Column(f)) == Cell(Source(selected, Int64Column(f), row), Int64Column(f));
  }

  lemma {:induction false} ReadTimeValue(selected: Column -> bool, row: AccountRow, shown: AccountRow, f: TimeField)
    requires forall c :: ValidColumn(c) ==> Cell(shown, c) == Cell(Source(selected, c, row), c)
    ensures TimeValue(shown, f) == TimeValue(Source(selected, TimeColumn(f), row), f)
  {
    hide TimeValue, Source;
    assert Cell(shown, TimeColumn(f)) == Cell(Source(selected, TimeColumn(f), row), TimeColumn(f));
  }

  lemma {:induction false} ReadStringValue(selected: Column -> bool, row: AccountRow, shown: AccountRow, f: StringField)
    requires forall c :: ValidColumn(c) ==> Cell(shown, c) == Cell(Source(selected, c, row), c)
    ensures StringValue(shown, f) == StringValue(Source(selected, StringColumn(f), row), f)
  {
    hide StringValue, Source;
    assert Cell(shown, StringColumn(f)) == Cell(Source(selected, StringColumn(f), row), StringColumn(f));
  }

  lemma {:induction false} CellsAreInts(selected: Column -> bool, row: AccountRow, shown: AccountRow)
    requires forall c :: ValidColumn(c) ==> Cell(shown, c) == Cell(Source(selected, c, row), c)
    ensures IntsRead(selected, row, shown)
  {
    hide Cell, Source;
    ReadInt64Value(selected, row, shown, ID);
    ReadInt64Value(selected, row, shown, ProxyID);
    ReadInt64Value(selected, row, shown, ProxyFallbackOriginID);
    ReadInt64Value(selected, row, shown, Concurrency);
    ReadInt64Value(selected, row, shown, LoadFactor);
    ReadInt64Value(selected, row, shown, Priority);
    ReadInt64Value(selected, row, shown, ParentAccountID);
  }

  lemma {:induction false} CellsAreTimes(selected: Column -> bool, row: AccountRow, shown: AccountRow)
    requires forall c :: ValidColumn(c) ==> Cell(shown, c) == Cell(Source(selected, c, row), c)
    ensures TimesRead(selected, row, shown)
  {
    hide Cell, Source;
    ReadTimeValue(selected, row, shown, CreatedAt);
    ReadTimeValue(selected, row, shown, UpdatedAt);
    ReadTimeValue(selected, row, shown, DeletedAt);
    ReadTimeValue(selected, row, shown, LastUsedAt);
    ReadTimeValue(selected, row, shown, ExpiresAt);
    ReadTimeValue(selected, row, shown, RateLimitedAt);
  }

  lemma {:induction false} CellsAreLateTimes(selected: Column -> bool, row: AccountRow, shown: AccountRow)
    requires forall c :: ValidColumn(c) ==> Cell(shown, c) == Cell(Source(selected, c, row), c)
    ensures LateTimesRead(selected, row, shown)
  {
    hide Cell, Source;
    ReadTimeValue(selected, row, shown, RateLimitResetAt);
    ReadTimeValue(selected, row, shown, OverloadUntil);
    ReadTimeValue(selected, row, shown, TempUnschedulableUntil);
    ReadTimeValue(selected, row, shown, SessionWindowStart);
    ReadTimeValue(selected, row, shown, SessionWindowEnd);
  }

  lemma {:induction false} CellsAreTexts(selected: Column -> bool, row: AccountRow, shown: AccountRow)
    requires forall c :: ValidColumn(c) ==> Cell(shown, c) == Cell(Source(selected, c, row), c)
    ensures TextsRead(selected, row, shown)
  {
    hide Cell, Source;
    ReadStringValue(selected, row, shown, Name);
    ReadStringValue(selected, row, shown, Notes);
    ReadStringValue(selected, row, shown, Platform);
    ReadStringValue(selected, row, shown, Type);
    ReadStringValue(selected, row, shown, Status);
    ReadStringValue(selected, row, shown, ErrorMessage);
    ReadStringValue(selected, row, shown, TempUnschedulableReason);
    ReadStringValue(selected, row, shown, SessionWindowStatus);
    ReadStringValue(selected, row, shown, QuotaDimension);
  }

  lemma {:induction false} CellsAreOthers(selected: Column -> bool, row: AccountRow, shown: AccountRow)
    requires forall c :: ValidColumn(c) ==> Cell(shown, c) == Cell(Source(selected, c, row), c)
    ensures OthersRead(selected, row, shown)
  {
    hide Source;
    assert Cell(shown, JsonColumn(Credentials))
           == Cell(Source(selected, JsonColumn(Credentials), row), JsonColumn(Credentials));
    assert Cell(shown, JsonColumn(Extra))
           == Cell(Source(selected, JsonColumn(Extra), row), JsonColumn(Extra));
    assert Cell(shown, RateMultiplier)
           == Cell(Source(selected, RateMultiplier, row), RateMultiplier);
    assert Cell(shown, BoolColumn(AutoPauseOnExpired))
           == Cell(Source(selected, BoolColumn(AutoPauseOnExpired), row), BoolColumn(AutoPauseOnExpired));
    assert Cell(shown, BoolColumn(Schedulable))
           == Cell(Source(selected, BoolColumn(Schedulable), row), BoolColumn(Schedulable));
  }

  // ======== settings of a new account ========

  function Held<K, V>(settings: map<K, V>, k: K, zero: V): V {
    if k in settings then settings[k] else zero
  }

  function HeldIfSet<K, V>(settings: map<K, V>, k: K): Option<V> {
    if k in settings then Some(settings[k]) else None
  }

  predicate IntsCreated(d: Draft, row: AccountRow) {
    && row.id == 0 && row.proxyID == d.proxy && row.parentAccountID == d.parent
    && row.proxyFallbackOriginID == HeldIfSet(d.ints, ProxyFallbackOriginID)
    && row.concurrency == Held(d.ints, Concurrency, 0)
    && row.loadFactor == HeldIfSet(d.ints, LoadFactor)
    && row.priority == Held(d.ints, Priority, 0)
  }

  predicate TimesCreated(d: Draft, row: AccountRow) {
    && row.createdAt == Held(d.instants, CreatedAt, 0)
    && row.updatedAt == Held(d.instants, UpdatedAt, 0)
    && row.deletedAt == HeldIfSet(d.instants, DeletedAt)
    && row.lastUsedAt == HeldIfSet(d.instants, LastUsedAt)
    && row.expiresAt == HeldIfSet(d.instants, ExpiresAt)
    && row.rateLimitedAt == HeldIfSet(d.instants, RateLimitedAt)
  }

  predicate LateTimesCreated(d: Draft, row: AccountRow) {
    && row.rateLimitResetAt == HeldIfSet(d.instants, RateLimitResetAt)
    && row.overloadUntil == HeldIfSet(d.instants, OverloadUntil)
    && row.tempUnschedulableUntil == HeldIfSet(d.instants, TempUnschedulableUntil)
    && row.sessionWindowStart == HeldIfSet(d.instants, SessionWindowStart)
    && row.sessionWindowEnd == HeldIfSet(d.instants, SessionWindowEnd)
  }

  predicate TextsCreated(d: Draft, row: AccountRow) {
    && row.name == Held(d.texts, Name, "")
    && row.notes == HeldIfSet(d.texts, Notes)
    && row.platform == Held(d.texts, Platform, "")
    && row.kind == Held(d.texts, Type, "")
    && row.status == Held(d.texts, Status, "")
    && row.errorMessage == HeldIfSet(d.texts, ErrorMessage)
    && row.tempUnschedulableReason == HeldIfSet(d.texts, TempUnschedulableReason)
    && row.sessionWindowStatus == HeldIfSet(d.texts, SessionWindowStatus)
    && row.quotaDimension == Held(d.texts, QuotaDimension, "")
  }

  predicate OthersCreated(d: Draft, row: AccountRow) {
    && row.credentials == Held(d.documents, Credentials, None)
    && row.extra == Held(d.documents, Extra, None)
    && row.rateMultiplier == (if d.rate.Some? then d.rate.value else 0.0)
    && row.autoPauseOnExpired == Held(d.flags, AutoPauseOnExpired, false)
    && row.schedulable == Held(d.flags, Schedulable, false)
  }

  /** The node createSpec returns has every setting in its own field, and the zero value where nothing was set. */
  lemma {:induction false} CreatedFields(d: Draft)
    ensures IntsCreated(d, CreatedRow(d)) && TimesCreated(d, CreatedRow(d)) && LateTimesCreated(d, CreatedRow(d))
    ensures TextsCreated(d, CreatedRow(d)) && OthersCreated(d, CreatedRow(d))
  {
    hide CreatedRow, IntsCreated, TimesCreated, LateTimesCreated, TextsCreated, OthersCreated;
    CreatedInts(d);
    CreatedTimes(d);
    CreatedLateTimes(d);
    CreatedTexts(d);
    CreatedOthers(d);
  }

  lemma {:induction false} CreatedInt64Value(d: Draft, f: Int64Field)
    requires f !in {ID, ProxyID, ParentAccountID}
    ensures Int64Value(CreatedRow(d), f) == if f in d.ints then Some(d.ints[f]) else Int64Value(ZERO_ROW, f)
  {
    hide CreatedRow, Int64Value;
    CreatedCell(d, Int64Column(f));
  }

  lemma {:induction false} CreatedInts(d: Draft)
    ensures IntsCreated(d, CreatedRow(d))
  {
    hide CreatedRow;
    CreatedWithoutKey(d);
    CreatedInt64Value(d, ProxyFallbackOriginID);
    CreatedInt64Value(d, Concurrency);
    CreatedInt64Value(d, LoadFactor);
    CreatedInt64Value(d, Priority);
  }

  lemma {:induction false} CreatedTimeValue(d: Draft, f: TimeField)
    ensures TimeValue(CreatedRow(d), f) == if f in d.instants then Some(d.instants[f]) else TimeValue(ZERO_ROW, f)
  {
    hide CreatedRow, TimeValue;
    CreatedCell(d, TimeColumn(f));
  }

  lemma {:induction false} CreatedTimes(d: Draft)
    ensures TimesCreated(d, CreatedRow(d))
  {
    hide CreatedRow;
    CreatedTimeValue(d, CreatedAt);
    CreatedTimeValue(d, UpdatedAt);
    CreatedTimeValue(d, DeletedAt);
    CreatedTimeValue(d, LastUsedAt);
    CreatedTimeValue(d, ExpiresAt);
    CreatedTimeValue(d, RateLimitedAt);
  }

  lemma {:induction false} CreatedLateTimes(d: Draft)
    ensures LateTimesCreated(d, CreatedRow(d))
  {
    hide CreatedRow;
    CreatedTimeValue(d, RateLimitResetAt);
    CreatedTimeValue(d, OverloadUntil);
    CreatedTimeValue(d, TempUnschedulableUntil);
    CreatedTimeValue(d, SessionWindowStart);
    CreatedTimeValue(d, SessionWindowEnd);
  }

  lemma {:induction false} CreatedStringValue(d: Draft, f: StringField)
    ensures StringValue(CreatedRow(d), f) == if f in d.texts then Some(d.texts[f]) else StringValue(ZERO_ROW, f)
  {
    hide CreatedRow, StringValue;
    CreatedCell(d, StringColumn(f));
  }

  lemma {:induction false} CreatedTexts(d: Draft)
    ensures TextsCreated(d, CreatedRow(d))
  {
    hide CreatedRow;
    CreatedStringValue(d, Name);
    CreatedStringValue(d, Notes);
    CreatedStringValue(d, Platform);
    CreatedStringValue(d, Type);
    CreatedStringValue(d, Status);
    CreatedStringValue(d, ErrorMessage);
    CreatedStringValue(d, TempUnschedulableReason);
    CreatedStringValue(d, SessionWindowStatus);
    CreatedStringValue(d, QuotaDimension);
  }

  lemma {:induction false} CreatedOthers(d: Draft)
    ensures OthersCreated(d, CreatedRow(d))
  {
    hide CreatedRow;
    CreatedCell(d, JsonColumn(Credentials));
    CreatedCell(d, JsonColumn(Extra));
    CreatedCell(d, RateMultiplier);
    CreatedCell(d, BoolColumn(AutoPauseOnExpired));
    CreatedCell(d, BoolColumn(Schedulable));
  }

  lemma {:induction false} CreatedWithoutKey(d: Draft)
    ensures CreatedRow(d).id == 0 && CreatedRow(d).proxyID == d.proxy && CreatedRow(d).parentAccountID == d.parent
  {
    hide NodeRow;
    NodeCell(d, |SPECIFIED|, Int64Column(ID));
  }

  lemma {:induction false} CreatedCell(d: Draft, c: Column)
    requires ValidColumn(c) && c !in {Int64Column(ID), Int64Column(ProxyID), Int64Column(ParentAccountID)}
    ensures Cell(CreatedRow(d), c) == if Setting(d, c).Some? then Bind(Setting(d, c).value) else Cell(ZERO_ROW, c)
  {
    hide NodeRow;
    var k := SpecifiedPosition(c);
    assert SPECIFIED[..|SPECIFIED|] == SPECIFIED;
    NodeCell(d, |SPECIFIED|, c);
    KeyFieldsApart(NodeRow(d, |SPECIFIED|), NodeRow(d, |SPECIFIED|).id, d.proxy, d.parent, c);
  }

  // ======== the description sent to the database ========

  /** What the draft holds for a column, said map by map. */
  predicate Holds(d: Draft, c: Column, v: Value) {
    match (c, v)
    case (Int64Column(f), Number(n)) => f in d.ints && n == d.ints[f]
    case (TimeColumn(f), Instant(t)) => f in d.instants && t == d.instants[f]
    case (StringColumn(f), Text(s)) => f in d.texts && s == d.texts[f]
    case (BoolColumn(f), Flag(b)) => f in d.flags && b == d.flags[f]
    case (JsonColumn(f), Json(j)) => f in d.documents && j == d.documents[f]
    case (RateMultiplier, Rate(r)) => d.rate == Some(r)
    case _ => false
  }

  /** The fields of the spec are what the draft holds, but for the keys. */
  lemma {:induction false} SpecFieldsExactly(d: Draft, c: Column, v: Value)
    ensures (c, v) in SpecFields(d, |SPECIFIED|)
       <==> ValidColumn(c) && c !in {Int64Column(ID), Int64Column(ProxyID), Int64Column(ParentAccountID)}
            && Holds(d, c, v)
  {
    hide SpecFields, SPECIFIED;
    SpecFieldsUpTo(d, |SPECIFIED|, c, v);
    assert SPECIFIED[..|SPECIFIED|] == SPECIFIED;
    SpecifiedExactly(c);
  }

  lemma {:induction false} SpecFieldsUpTo(d: Draft, k: nat, c: Column, v: Value)
    requires k <= |SPECIFIED|
    ensures (c, v) in SpecFields(d, k) <==> c in SPECIFIED[..k] && Setting(d, c) == Some(v)
  {
    hide Setting, SPECIFIED;
    if k > 0 {
      SpecFieldsUpTo(d, k - 1, c, v);
      SpecifiedStep(k, c);
    }
  }

  lemma {:induction false} SpecifiedExactly(c: Column)
    ensures c in SPECIFIED
       <==> ValidColumn(c) && c !in {Int64Column(ID), Int64Column(ProxyID), Int64Column(ParentAccountID)}
  {
    if ValidColumn(c) && c !in {Int64Column(ID), Int64Column(ProxyID), Int64Column(ParentAccountID)} {
      var k := SpecifiedPosition(c);
    } else {
      IDNotSpecified();
      ProxyNotSpecified();
      ParentNotSpecified();
      if c.Other? {
        OtherNotSpecified(c.name);
      }
    }
  }

  lemma {:induction false} IDNotSpecified()
    ensures Int64Column(ID) !in SPECIFIED
  {
  }

  lemma {:induction false} ProxyNotSpecified()
    ensures Int64Column(ProxyID) !in SPECIFIED
  {
  }

  lemma {:induction false} ParentNotSpecified()
    ensures Int64Column(ParentAccountID) !in SPECIFIED
  {
  }

  lemma {:induction false} OtherNotSpecified(name: string)
    ensures Other(name) !in SPECIFIED
  {
  }

  // ======== one assignment ========

  /** A holder the driver left as it was: NULL. */
  predicate IsNull(h: Holder) {
    match h
    case NullInt64(valid, _) => !valid
    case NullString(valid, _) => !valid
    case NullTime(valid, _) => !valid
    case NullBool(valid, _) => !valid
    case NullFloat64(valid, _) => !valid
    case RawBytes(blob) => blob == NoBytes
    case UnknownType(_) => false
  }

  /** A holder of the wrong kind is an error that names the column; NULL leaves the entity as it was, except that the
      id is always taken over; a column of another name is kept beside the entity. */
  lemma {:induction false} AssignExactly(s: Scanned, c: Column, h: Holder)
    ensures ValidColumn(c) ==> (h.Kind() != KindOf(c) <==> AssignColumn(s, c, h) == Err(TypeMismatch(c)))
    ensures ValidColumn(c) && h.Kind() == KindOf(c) && IsNull(h) && c != Int64Column(ID) ==>
              AssignColumn(s, c, h) == Ok(s)
    ensures c == Int64Column(ID) && h.NullInt64? ==> AssignColumn(s, c, h) == Ok(s.(row := s.row.(id := h.number)))
    ensures c.Other? ==> AssignColumn(s, c, h) == Ok(s.(selectValues := s.selectValues[c.name := h]))
  {
  }

  /** A JSON object joins the members already there, and wins over them; null makes the document nil. */
  lemma {:induction false} AssignObject(s: Scanned, f: JsonField, members: map<string, string>)
    ensures AssignColumn(s, JsonColumn(f), RawBytes(Object(members))).Ok?
    ensures var d := JsonValue(AssignColumn(s, JsonColumn(f), RawBytes(Object(members))).value.row, f);
            && d.Some?
            && (forall k :: k in members ==> k in d.value && d.value[k] == members[k])
            && (forall k :: k in d.value && k !in members ==>
                  JsonValue(s.row, f).Some? && k in JsonValue(s.row, f).value
                  && d.value[k] == JsonValue(s.row, f).value[k])
            && (JsonValue(s.row, f).Some? ==> forall k :: k in JsonValue(s.row, f).value ==> k in d.value)
    ensures AssignColumn(s, JsonColumn(f), RawBytes(NullDocument)).Ok?
    ensures JsonValue(AssignColumn(s, JsonColumn(f), RawBytes(NullDocument)).value.row, f) == None
  {
  }
}
