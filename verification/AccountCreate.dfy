/** Creating an account: the values collected by a mutation, the defaults filled in before saving, the checks, the
    row description sent to the database, and reading that row back. */
module AccountCreate {
  import opened Basics
  import opened AccountEntity
  import opened Nodes

  // ======== the state of a mutation ========

  /** The fields and edges that were set; a field that is absent was not set. */
  datatype Draft = Draft(
    ints: map<Int64Field, int>, instants: map<TimeField, Time>, texts: map<StringField, string>,
    flags: map<BoolField, bool>, documents: map<JsonField, Document>, rate: Option<real>,
    groups: seq<int>, proxy: Option<int>, parent: Option<int>, children: seq<int>, usageLogs: seq<int>)

  class AccountMutation {
    var draft: Draft
    var id: Account?  // the node whose id the mutation points to
    var done: bool

    constructor (draft: Draft)
      ensures this.draft == draft && id == null && !done
    {
      this.draft, id, done := draft, null, false;
    }
  }

  /** A value as the mutation holds it. */
  datatype Value = Number(n: int) | Instant(t: Time) | Text(s: string) | Flag(b: bool) | Json(d: Document)
    | Rate(r: real)

  /** How the driver stores it. */
  function Bind(v: Value): Holder {
    match v
    case Number(n) => NullInt64(true, n)
    case Instant(t) => NullTime(true, t)
    case Text(s) => NullString(true, s)
    case Flag(b) => NullBool(true, b)
    case Json(d) => RawBytes(Marshal(d))
    case Rate(r) => NullFloat64(true, r)
  }

  function Setting(d: Draft, c: Column): Option<Value> {
    match c
    case Int64Column(f) => if f in d.ints then Some(Number(d.ints[f])) else None
    case TimeColumn(f) => if f in d.instants then Some(Instant(d.instants[f])) else None
    case StringColumn(f) => if f in d.texts then Some(Text(d.texts[f])) else None
    case BoolColumn(f) => if f in d.flags then Some(Flag(d.flags[f])) else None
    case JsonColumn(f) => if f in d.documents then Some(Json(d.documents[f])) else None
    case RateMultiplier => if d.rate.Some? then Some(Rate(d.rate.value)) else None
    case Other(_) => None
  }

  // ======== defaults and checks ========

  datatype CreateError = Uninitialized(column: Column) | Missing(column: Column) | Refused(column: Column)

  /** What the runtime package installs: default functions, which are nil when it was not imported, the n-th
      reading of the clock, default constants, and validators. */
  datatype Runtime = Runtime(
    createdAt: Option<nat -> Time>, updatedAt: Option<nat -> Time>, credentials: Option<Document>,
    extra: Option<Document>,
    concurrency: int, priority: int, rateMultiplier: real, status: string, autoPauseOnExpired: bool, schedulable: bool,
    nameValid: string -> bool, platformValid: string -> bool, typeValid: string -> bool, statusValid: string -> bool,
    windowStatusValid: string -> bool, joinPriority: int, joinCreatedAt: Time)

  const GLOBAL := "global"
  const SPARK := "spark"

  predicate QuotaDimensionValid(s: string) {
    s == GLOBAL || s == SPARK
  }

  /** The settings defaults fills in, in its order; a nil default function is None. */
  function DefaultOf(rt: Runtime, n: nat, c: Column): Option<Value> {
    match c
    case TimeColumn(CreatedAt) => if rt.createdAt.None? then None else Some(Instant(rt.createdAt.value(n)))
    case TimeColumn(UpdatedAt) => if rt.updatedAt.None? then None else Some(Instant(rt.updatedAt.value(n)))
    case JsonColumn(Credentials) => if rt.credentials.None? then None else Some(Json(rt.credentials.value))
    case JsonColumn(Extra) => if rt.extra.None? then None else Some(Json(rt.extra.value))
    case Int64Column(Concurrency) => Some(Number(rt.concurrency))
    case Int64Column(Priority) => Some(Number(rt.priority))
    case RateMultiplier => Some(Rate(rt.rateMultiplier))
    case StringColumn(Status) => Some(Text(rt.status))
    case BoolColumn(AutoPauseOnExpired) => Some(Flag(rt.autoPauseOnExpired))
    case BoolColumn(Schedulable) => Some(Flag(rt.schedulable))
    case StringColumn(QuotaDimension) => Some(Text(GLOBAL))
    case _ => None
  }

  const DEFAULTED: seq<Column> := [
    TimeColumn(CreatedAt), TimeColumn(UpdatedAt), JsonColumn(Credentials), JsonColumn(Extra), Int64Column(Concurrency),
    Int64Column(Priority), RateMultiplier, StringColumn(Status), BoolColumn(AutoPauseOnExpired),
    BoolColumn(Schedulable),
    StringColumn(QuotaDimension)]

  function Set(d: Draft, c: Column, v: Value): Draft {
    match (c, v)
    case (Int64Column(f), Number(n)) => d.(ints := d.ints[f := n])
    case (TimeColumn(f), Instant(t)) => d.(instants := d.instants[f := t])
    case (StringColumn(f), Text(s)) => d.(texts := d.texts[f := s])
    case (BoolColumn(f), Flag(b)) => d.(flags := d.flags[f := b])
    case (JsonColumn(f), Json(j)) => d.(documents := d.documents[f := j])
    case (RateMultiplier, Rate(r)) => d.(rate := Some(r))
    case _ => d
  }

  /** The columns of DEFAULTED from position k on: each is set if it was not, up to the first nil function. */
  function Defaulted(rt: Runtime, n: nat, d: Draft, k: nat): (r: (Draft, Option<CreateError>))
    requires k <= |DEFAULTED|
    decreases |DEFAULTED| - k
  {
    if k == |DEFAULTED| then (d, None)
    else
      var c := DEFAULTED[k];
      if Setting(d, c).Some? then Defaulted(rt, n, d, k + 1)
      else
        match DefaultOf(rt, n, c)
        case None => (d, Some(Uninitialized(c)))
        case Some(v) => Defaulted(rt, n, Set(d, c, v), k + 1)
  }

  lemma {:induction false} SetThenGet(d: Draft, rt: Runtime, n: nat, c: Column, other: Column)
    requires DefaultOf(rt, n, c).Some?
    ensures Setting(Set(d, c, DefaultOf(rt, n, c).value), other) == if other == c then DefaultOf(rt, n, c)
              else Setting(d, other)
  {
  }

  /** defaults on the mutation, setting by setting. */
  method Defaults(m: AccountMutation, rt: Runtime, n: nat) returns (err: Option<CreateError>)
    modifies m`draft
    ensures (m.draft, err) == Defaulted(rt, n, old(m.draft), 0)
  {
    err := DefaultTimes(m, rt, n);
    if err.Some? {
      return;
    }
    err := DefaultDocuments(m, rt, n);
    if err.Some? {
      return;
    }
    DefaultConstants(m, rt, n);
  }

  method DefaultTimes(m: AccountMutation, rt: Runtime, n: nat) returns (err: Option<CreateError>)
    modifies m`draft
    ensures err.Some? ==> (m.draft, err) == Defaulted(rt, n, old(m.draft), 0)
    ensures err.None? ==> Defaulted(rt, n, m.draft, 2) == Defaulted(rt, n, old(m.draft), 0)
  {
    if CreatedAt !in m.draft.instants {
      if rt.createdAt.None? {
        return Some(Uninitialized(TimeColumn(CreatedAt)));
      }
      m.draft := m.draft.(instants := m.draft.instants[CreatedAt := rt.createdAt.value(n)]);
    }
    assert Defaulted(rt, n, m.draft, 1) == Defaulted(rt, n, old(m.draft), 0);
    if UpdatedAt !in m.draft.instants {
      if rt.updatedAt.None? {
        return Some(Uninitialized(TimeColumn(UpdatedAt)));
      }
      m.draft := m.draft.(instants := m.draft.instants[UpdatedAt := rt.updatedAt.value(n)]);
    }
    return None;
  }

  method DefaultDocuments(m: AccountMutation, rt: Runtime, n: nat) returns (err: Option<CreateError>)
    modifies m`draft
    ensures err.Some? ==> (m.draft, err) == Defaulted(rt, n, old(m.draft), 2)
    ensures err.None? ==> Defaulted(rt, n, m.draft, 4) == Defaulted(rt, n, old(m.draft), 2)
  {
    if Credentials !in m.draft.documents {
      if rt.credentials.None? {
        return Some(Uninitialized(JsonColumn(Credentials)));
      }
      m.draft := m.draft.(documents := m.draft.documents[Credentials := rt.credentials.value]);
    }
    assert Defaulted(rt, n, m.draft, 3) == Defaulted(rt, n, old(m.draft), 2);
    if Extra !in m.draft.documents {
      if rt.extra.None? {
        return Some(Uninitialized(JsonColumn(Extra)));
      }
      m.draft := m.draft.(documents := m.draft.documents[Extra := rt.extra.value]);
    }
    return None;
  }

  method DefaultConstants(m: AccountMutation, rt: Runtime, n: nat)
    modifies m`draft
    ensures (m.draft, None) == Defaulted(rt, n, old(m.draft), 4)
  {
    hide Defaulted;
    DefaultNumbers(m, rt, n);
    DefaultFlags(m, rt, n);
    DefaultsDone(rt, n, m.draft);
  }

  method DefaultNumbers(m: AccountMutation, rt: Runtime, n: nat)
    modifies m`draft
    ensures Defaulted(rt, n, m.draft, 7) == Defaulted(rt, n, old(m.draft), 4)
  {
    hide Defaulted;
    ghost var d := m.draft;
    DefaultStep(rt, n, m.draft, 4);
    if Concurrency !in m.draft.ints {
      m.draft := m.draft.(ints := m.draft.ints[Concurrency := rt.concurrency]);
    }
    assert Defaulted(rt, n, m.draft, 5) == Defaulted(rt, n, d, 4);
    DefaultStep(rt, n, m.draft, 5);
    if Priority !in m.draft.ints {
      m.draft := m.draft.(ints := m.draft.ints[Priority := rt.priority]);
    }
    assert Defaulted(rt, n, m.draft, 6) == Defaulted(rt, n, d, 4);
    DefaultStep(rt, n, m.draft, 6);
    if m.draft.rate.None? {
      m.draft := m.draft.(rate := Some(rt.rateMultiplier));
    }
  }

  method DefaultFlags(m: AccountMutation, rt: Runtime, n: nat)
    modifies m`draft
    ensures Defaulted(rt, n, m.draft, 11) == Defaulted(rt, n, old(m.draft), 7)
  {
    hide Defaulted;
    ghost var d := m.draft;
    DefaultStep(rt, n, m.draft, 7);
    if Status !in m.draft.texts {
      m.draft := m.draft.(texts := m.draft.texts[Status := rt.status]);
    }
    assert Defaulted(rt, n, m.draft, 8) == Defaulted(rt, n, d, 7);
    DefaultStep(rt, n, m.draft, 8);
    if AutoPauseOnExpired !in m.draft.flags {
      m.draft := m.draft.(flags := m.draft.flags[AutoPauseOnExpired := rt.autoPauseOnExpired]);
    }
    assert Defaulted(rt, n, m.draft, 9) == Defaulted(rt, n, d, 7);
    DefaultStep(rt, n, m.draft, 9);
    if Schedulable !in m.draft.flags {
      m.draft := m.draft.(flags := m.draft.flags[Schedulable := rt.schedulable]);
    }
    assert Defaulted(rt, n, m.draft, 10) == Defaulted(rt, n, d, 7);
    DefaultStep(rt, n, m.draft, 10);
    if QuotaDimension !in m.draft.texts {
      m.draft := m.draft.(texts := m.draft.texts[QuotaDimension := GLOBAL]);
    }
  }

  lemma {:induction false} DefaultStep(rt: Runtime, n: nat, d: Draft, k: nat)
    requires 4 <= k < |DEFAULTED|
    ensures var c := DEFAULTED[k];
            DefaultOf(rt, n, c).Some? &&
            Defaulted(rt, n, d, k)
            == Defaulted(rt, n, if Setting(d, c).Some? then d else Set(d, c, DefaultOf(rt, n, c).value), k + 1)
  {
  }

  lemma {:induction false} DefaultsDone(rt: Runtime, n: nat, d: Draft)
    ensures Defaulted(rt, n, d, |DEFAULTED|) == (d, None)
  {
  }

  // ---- what defaults amounts to ----

  /** Defaults never change what was set, and leave a column unset only if it stopped before it. */
  lemma {:induction false} DefaultedSetting(rt: Runtime, n: nat, d: Draft, k: nat, c: Column)
    requires k <= |DEFAULTED|
    ensures var (d', err) := Defaulted(rt, n, d, k);
            && (Setting(d, c).Some? ==> Setting(d', c) == Setting(d, c))
            && (Setting(d, c).None? && c !in DEFAULTED[k..] ==> Setting(d', c).None?)
            && (Setting(d, c).None? && c in DEFAULTED[k..] && err.None? ==>
                  DefaultOf(rt, n, c).Some? && Setting(d', c) == DefaultOf(rt, n, c))
    decreases |DEFAULTED| - k
  {
    hide DefaultOf, Setting, Set;
    if k < |DEFAULTED| {
      var at := DEFAULTED[k];
      TailOfDefaulted(k, c);
      if Setting(d, at).Some? {
        DefaultedSetting(rt, n, d, k + 1, c);
      } else if DefaultOf(rt, n, at).Some? {
        SetThenGet(d, rt, n, at, c);
        DefaultedSetting(rt, n, Set(d, at, DefaultOf(rt, n, at).value), k + 1, c);
      }
    }
  }

  lemma {:induction false} TailOfDefaulted(k: nat, c: Column)
    requires k < |DEFAULTED|
    ensures c in DEFAULTED[k..] <==> c == DEFAULTED[k] || c in DEFAULTED[k + 1..]
  {
    assert DEFAULTED[k..] == [DEFAULTED[k]] + DEFAULTED[k + 1..];
  }

  /** An error of defaults names a column that is still unset afterwards. */
  lemma {:induction false} DefaultsStopped(rt: Runtime, n: nat, d: Draft, k: nat)
    requires k <= |DEFAULTED| && Defaulted(rt, n, d, k).1.Some?
    ensures var (d', err) := Defaulted(rt, n, d, k);
            err.value.Uninitialized? && err.value.column in DEFAULTED && Setting(d', err.value.column).None?
    decreases |DEFAULTED| - k
  {
    hide DefaultOf, Setting, Set;
    if k < |DEFAULTED| {
      var at := DEFAULTED[k];
      if Setting(d, at).Some? {
        DefaultsStopped(rt, n, d, k + 1);
      } else if DefaultOf(rt, n, at).Some? {
        DefaultsStopped(rt, n, Set(d, at, DefaultOf(rt, n, at).value), k + 1);
      }
    }
  }

  // ---- checks ----

  datatype Requirement = Required(column: Column) | Accepted(text: StringField)

  const REQUIREMENTS: seq<Requirement> := [
    Required(TimeColumn(CreatedAt)), Required(TimeColumn(UpdatedAt)), Required(StringColumn(Name)), Accepted(Name),
    Required(StringColumn(Platform)), Accepted(Platform), Required(StringColumn(Type)), Accepted(Type),
    Required(JsonColumn(Credentials)), Required(JsonColumn(Extra)), Required(Int64Column(Concurrency)),
    Required(Int64Column(Priority)), Required(RateMultiplier), Required(StringColumn(Status)), Accepted(Status),
    Required(BoolColumn(AutoPauseOnExpired)), Required(BoolColumn(Schedulable)), Accepted(SessionWindowStatus),
    Required(StringColumn(QuotaDimension)), Accepted(QuotaDimension)]

  predicate TextValid(rt: Runtime, f: StringField, s: string) {
    match f
    case Name => rt.nameValid(s)
    case Platform => rt.platformValid(s)
    case Type => rt.typeValid(s)
    case Status => rt.statusValid(s)
    case SessionWindowStatus => rt.windowStatusValid(s)
    case QuotaDimension => QuotaDimensionValid(s)
    case _ => true
  }

  /** A validator is asked only about a field that is set. */
  predicate Meets(rt: Runtime, d: Draft, r: Requirement) {
    match r
    case Required(c) => Setting(d, c).Some?
    case Accepted(f) => f in d.texts ==> TextValid(rt, f, d.texts[f])
  }

  function Complaint(r: Requirement): CreateError {
    match r
    case Required(c) => Missing(c)
    case Accepted(f) => Refused(StringColumn(f))
  }

  /** The first requirement from position k on that is not met. */
  function FirstComplaint(rt: Runtime, d: Draft, k: nat): Option<CreateError>
    requires k <= |REQUIREMENTS|
    decreases |REQUIREMENTS| - k
  {
    if k == |REQUIREMENTS| then None
    else if !Meets(rt, d, REQUIREMENTS[k]) then Some(Complaint(REQUIREMENTS[k]))
    else FirstComplaint(rt, d, k + 1)
  }

  method Check(m: AccountMutation, rt: Runtime) returns (err: Option<CreateError>)
    ensures err == FirstComplaint(rt, m.draft, 0)
  {
    hide FirstComplaint;
    err := CheckTimes(m, rt);
    if err.Some? {
      return;
    }
    err := CheckIdentity(m, rt);
    if err.Some? {
      return;
    }
    err := CheckSettings(m, rt);
    if err.Some? {
      return;
    }
    err := CheckStates(m, rt);
  }

  method CheckTimes(m: AccountMutation, rt: Runtime) returns (err: Option<CreateError>)
    ensures FirstComplaint(rt, m.draft, 0) == if err.Some? then err else FirstComplaint(rt, m.draft, 2)
  {
    hide FirstComplaint;
    ghost var d := m.draft;
    ComplaintSteps(rt, d, 0);
    if CreatedAt !in m.draft.instants {
      return Some(Missing(TimeColumn(CreatedAt)));
    }
    ComplaintSteps(rt, d, 1);
    if UpdatedAt !in m.draft.instants {
      return Some(Missing(TimeColumn(UpdatedAt)));
    }
    return None;
  }

  method CheckIdentity(m: AccountMutation, rt: Runtime) returns (err: Option<CreateError>)
    ensures FirstComplaint(rt, m.draft, 2) == if err.Some? then err else FirstComplaint(rt, m.draft, 6)
  {
    hide FirstComplaint;
    ghost var d := m.draft;
    ComplaintSteps(rt, d, 2);
    if Name !in m.draft.texts {
      return Some(Missing(StringColumn(Name)));
    }
    ComplaintSteps(rt, d, 3);
    if Name in m.draft.texts && !rt.nameValid(m.draft.texts[Name]) {
      return Some(Refused(StringColumn(Name)));
    }
    ComplaintSteps(rt, d, 4);
    if Platform !in m.draft.texts {
      return Some(Missing(StringColumn(Platform)));
    }
    ComplaintSteps(rt, d, 5);
    if Platform in m.draft.texts && !rt.platformValid(m.draft.texts[Platform]) {
      return Some(Refused(StringColumn(Platform)));
    }
    return None;
  }

  method CheckSettings(m: AccountMutation, rt: Runtime) returns (err: Option<CreateError>)
    ensures FirstComplaint(rt, m.draft, 6) == if err.Some? then err else FirstComplaint(rt, m.draft, 13)
  {
    hide FirstComplaint;
    ghost var d := m.draft;
    ComplaintSteps(rt, d, 6);
    if Type !in m.draft.texts {
      return Some(Missing(StringColumn(Type)));
    }
    ComplaintSteps(rt, d, 7);
    if Type in m.draft.texts && !rt.typeValid(m.draft.texts[Type]) {
      return Some(Refused(StringColumn(Type)));
    }
    ComplaintSteps(rt, d, 8);
    if Credentials !in m.draft.documents {
      return Some(Missing(JsonColumn(Credentials)));
    }
    ComplaintSteps(rt, d, 9);
    if Extra !in m.draft.documents {
      return Some(Missing(JsonColumn(Extra)));
    }
    ComplaintSteps(rt, d, 10);
    if Concurrency !in m.draft.ints {
      return Some(Missing(Int64Column(Concurrency)));
    }
    ComplaintSteps(rt, d, 11);
    if Priority !in m.draft.ints {
      return Some(Missing(Int64Column(Priority)));
    }
    ComplaintSteps(rt, d, 12);
    if m.draft.rate.None? {
      return Some(Missing(RateMultiplier));
    }
    return None;
  }

  method CheckStates(m: AccountMutation, rt: Runtime) returns (err: Option<CreateError>)
    ensures err == FirstComplaint(rt, m.draft, 13)
  {
    hide FirstComplaint;
    ghost var d := m.draft;
    ComplaintSteps(rt, d, 13);
    if Status !in m.draft.texts {
      return Some(Missing(StringColumn(Status)));
    }
    ComplaintSteps(rt, d, 14);
    if Status in m.draft.texts && !rt.statusValid(m.draft.texts[Status]) {
      return Some(Refused(StringColumn(Status)));
    }
    ComplaintSteps(rt, d, 15);
    if AutoPauseOnExpired !in m.draft.flags {
      return Some(Missing(BoolColumn(AutoPauseOnExpired)));
    }
    ComplaintSteps(rt, d, 16);
    if Schedulable !in m.draft.flags {
      return Some(Missing(BoolColumn(Schedulable)));
    }
    ComplaintSteps(rt, d, 17);
    if SessionWindowStatus in m.draft.texts && !rt.windowStatusValid(m.draft.texts[SessionWindowStatus]) {
      return Some(Refused(StringColumn(SessionWindowStatus)));
    }
    ComplaintSteps(rt, d, 18);
    if QuotaDimension !in m.draft.texts {
      return Some(Missing(StringColumn(QuotaDimension)));
    }
    ComplaintSteps(rt, d, 19);
    if QuotaDimension in m.draft.texts && !QuotaDimensionValid(m.draft.texts[QuotaDimension]) {
      return Some(Refused(StringColumn(QuotaDimension)));
    }
    return None;
  }

  lemma {:induction false} ComplaintSteps(rt: Runtime, d: Draft, k: nat)
    requires k < |REQUIREMENTS|
    ensures FirstComplaint(rt, d, k)
         == if Meets(rt, d, REQUIREMENTS[k]) then FirstComplaint(rt, d, k + 1) else Some(Complaint(REQUIREMENTS[k]))
    ensures FirstComplaint(rt, d, |REQUIREMENTS|) == None
  {
  }

  // ---- what the checks amount to ----

  lemma {:induction false} ChecksPass(rt: Runtime, d: Draft, k: nat)
    requires k <= |REQUIREMENTS|
    ensures FirstComplaint(rt, d, k).None? <==> forall j :: k <= j < |REQUIREMENTS| ==> Meets(rt, d, REQUIREMENTS[j])
    ensures FirstComplaint(rt, d, k).Some? ==>
              exists j :: k <= j < |REQUIREMENTS| && !Meets(rt, d, REQUIREMENTS[j])
                          && FirstComplaint(rt, d, k) == Some(Complaint(REQUIREMENTS[j]))
    decreases |REQUIREMENTS| - k
  {
    hide Meets;
    if k < |REQUIREMENTS| && Meets(rt, d, REQUIREMENTS[k]) {
      ChecksPass(rt, d, k + 1);
    }
  }

  predicate NamedAndTyped(rt: Runtime, d: Draft) {
    && Name in d.texts && rt.nameValid(d.texts[Name])
    && Platform in d.texts && rt.platformValid(d.texts[Platform])
    && Type in d.texts && rt.typeValid(d.texts[Type])
  }

  /** What a caller can see before saving: the own fields are there and accepted, and so will be the defaults. */
  predicate WillPass(rt: Runtime, d: Draft) {
    && NamedAndTyped(rt, d)
    && rt.statusValid(if Status in d.texts then d.texts[Status] else rt.status)
    && (SessionWindowStatus in d.texts ==> rt.windowStatusValid(d.texts[SessionWindowStatus]))
    && (QuotaDimension in d.texts ==> QuotaDimensionValid(d.texts[QuotaDimension]))
  }

  /** An error of defaults that is ignored is not lost: the check that follows fails as well. */
  lemma {:induction false} DefaultsErrorResurfaces(rt: Runtime, n: nat, d: Draft)
    ensures Defaulted(rt, n, d, 0).1.Some? ==> FirstComplaint(rt, Defaulted(rt, n, d, 0).0, 0).Some?
  {
    hide Defaulted, FirstComplaint, Meets;
    var (d', err) := Defaulted(rt, n, d, 0);
    if err.Some? {
      DefaultsStopped(rt, n, d, 0);
      var c := err.value.column;
      var j := RequiredAt(c);
      ChecksPass(rt, d', 0);
      RequiredMeans(rt, d', c);
    }
  }

  lemma {:induction false} RequiredMeans(rt: Runtime, d: Draft, c: Column)
    ensures Meets(rt, d, Required(c)) <==> Setting(d, c).Some?
  {
  }

  /** Every column with a default is required. */
  lemma {:induction false} RequiredAt(c: Column) returns (j: nat)
    requires c in DEFAULTED
    ensures j < |REQUIREMENTS| && REQUIREMENTS[j] == Required(c)
  {
    match c {
      case TimeColumn(f) => j := if f == CreatedAt then 0 else 1;
      case JsonColumn(f) => j := if f == Credentials then 8 else 9;
      case Int64Column(f) => j := if f == Concurrency then 10 else 11;
      case RateMultiplier => j := 12;
      case StringColumn(f) => j := if f == Status then 13 else 18;
      case BoolColumn(f) => j := if f == AutoPauseOnExpired then 15 else 16;
    }
  }

  /** When defaults succeeds, the check passes exactly for drafts whose name, platform and type are there and
      whose texts the validators accept; no other complaint is possible. */
  lemma {:induction false} ChecksAfterDefaults(rt: Runtime, n: nat, d: Draft)
    ensures var (d', err) := Defaulted(rt, n, d, 0);
            var e := FirstComplaint(rt, d', 0);
            err.None? ==>
              && (e.None? <==> WillPass(rt, d))
              && (e.Some? ==> e.value.Refused?
                              || e.value in {Missing(StringColumn(Name)), Missing(StringColumn(Platform)),
                                             Missing(StringColumn(Type))})
  {
    hide Defaulted, FirstComplaint, DefaultOf;
    var (d', err) := Defaulted(rt, n, d, 0);
    if err.None? {
      ChecksPass(rt, d', 0);
      DefaultedTexts(rt, n, d);
      forall j | 0 <= j < |REQUIREMENTS| && REQUIREMENTS[j].Required?
        ensures Meets(rt, d', REQUIREMENTS[j])
                || REQUIREMENTS[j].column in {StringColumn(Name), StringColumn(Platform), StringColumn(Type)} {
        DefaultedRequirement(rt, n, d, j);
      }
      PassMeansWillPass(rt, d, d');
    }
  }

  lemma {:induction false} DefaultedRequirement(rt: Runtime, n: nat, d: Draft, j: nat)
    requires Defaulted(rt, n, d, 0).1.None? && j < |REQUIREMENTS| && REQUIREMENTS[j].Required?
    ensures Meets(rt, Defaulted(rt, n, d, 0).0, REQUIREMENTS[j])
         || REQUIREMENTS[j].column in {StringColumn(Name), StringColumn(Platform), StringColumn(Type)}
  {
    hide Defaulted, DefaultOf, Setting;
    var c := REQUIREMENTS[j].column;
    DefaultedSetting(rt, n, d, 0, c);
    assert DEFAULTED[0..] == DEFAULTED;
    assert c in DEFAULTED || c in {StringColumn(Name), StringColumn(Platform), StringColumn(Type)};
  }

  /** The texts after a successful defaults: status and quota dimension are filled in, the rest is as it was. */
  lemma {:induction false} DefaultedTexts(rt: Runtime, n: nat, d: Draft)
    requires Defaulted(rt, n, d, 0).1.None?
    ensures var t, t' := d.texts, Defaulted(rt, n, d, 0).0.texts;
            && (forall f :: f in {Name, Platform, Type, SessionWindowStatus} ==>
                            (f in t' <==> f in t) && (f in t ==> t'[f] == t[f]))
            && Status in t' && t'[Status] == (if Status in t then t[Status] else rt.status)
            && QuotaDimension in t' && t'[QuotaDimension] == (if QuotaDimension in t then t[QuotaDimension] else GLOBAL)
  {
    hide Defaulted;
    assert DEFAULTED[0..] == DEFAULTED;
    forall f | f in {Name, Platform, Type, SessionWindowStatus, Status, QuotaDimension}
      ensures var t, t' := d.texts, Defaulted(rt, n, d, 0).0.texts;
              if f in t then f in t' && t'[f] == t[f]
              else if f == Status then f in t' && t'[f] == rt.status
              else if f == QuotaDimension then f in t' && t'[f] == GLOBAL
              else f !in t' {
      DefaultedSetting(rt, n, d, 0, StringColumn(f));
    }
  }

  lemma {:induction false} PassMeansWillPass(rt: Runtime, d: Draft, d': Draft)
    requires var t, t' := d.texts, d'.texts;
             && (forall f :: f in {Name, Platform, Type, SessionWindowStatus} ==>
                            (f in t' <==> f in t) && (f in t ==> t'[f] == t[f]))
             && Status in t' && t'[Status] == (if Status in t then t[Status] else rt.status)
             && QuotaDimension in t'
             && t'[QuotaDimension] == (if QuotaDimension in t then t[QuotaDimension] else GLOBAL)
    requires forall j :: 0 <= j < |REQUIREMENTS| && REQUIREMENTS[j].Required?
               ==> Meets(rt, d', REQUIREMENTS[j])
                   || REQUIREMENTS[j].column in {StringColumn(Name), StringColumn(Platform), StringColumn(Type)}
    ensures (forall j :: 0 <= j < |REQUIREMENTS| ==> Meets(rt, d', REQUIREMENTS[j])) <==> WillPass(rt, d)
  {
    TextRequirements();
    if WillPass(rt, d) {
      forall j | 0 <= j < |REQUIREMENTS| ensures Meets(rt, d', REQUIREMENTS[j]) {
        if REQUIREMENTS[j].Accepted? {
          assert REQUIREMENTS[j].text in {Name, Platform, Type, Status, SessionWindowStatus, QuotaDimension};
        }
      }
    }
  }

  lemma {:induction false} TextRequirements()
    ensures REQUIREMENTS[2] == Required(StringColumn(Name)) && REQUIREMENTS[3] == Accepted(Name)
    ensures REQUIREMENTS[4] == Required(StringColumn(Platform)) && REQUIREMENTS[5] == Accepted(Platform)
    ensures REQUIREMENTS[6] == Required(StringColumn(Type)) && REQUIREMENTS[7] == Accepted(Type)
    ensures REQUIREMENTS[14] == Accepted(Status) && REQUIREMENTS[17] == Accepted(SessionWindowStatus)
    ensures REQUIREMENTS[19] == Accepted(QuotaDimension)
    ensures forall j :: 0 <= j < |REQUIREMENTS| && REQUIREMENTS[j].Accepted?
              ==> REQUIREMENTS[j].text in {Name, Platform, Type, Status, SessionWindowStatus, QuotaDimension}
  {
  }

  /** Applying defaults again, at a later reading of the clock, changes nothing. */
  lemma {:induction false} DefaultsIdempotent(rt: Runtime, n: nat, n': nat, d: Draft, k: nat)
    requires k <= |DEFAULTED|
    requires forall j :: 0 <= j < k ==> Setting(d, DEFAULTED[j]).Some?
    ensures Defaulted(rt, n', Defaulted(rt, n, d, k).0, 0).0 == Defaulted(rt, n, d, k).0
    decreases |DEFAULTED| - k
  {
    hide DefaultOf, Setting, Set;
    if k == |DEFAULTED| {
      AlreadySet(rt, n', d, 0);
    } else {
      var c := DEFAULTED[k];
      if Setting(d, c).Some? {
        DefaultsIdempotent(rt, n, n', d, k + 1);
      } else if DefaultOf(rt, n, c).Some? {
        var d1 := Set(d, c, DefaultOf(rt, n, c).value);
        forall j | 0 <= j < k + 1 ensures Setting(d1, DEFAULTED[j]).Some? {
          SetThenGet(d, rt, n, c, DEFAULTED[j]);
        }
        DefaultsIdempotent(rt, n, n', d1, k + 1);
      } else {
        StopsAt(rt, n, n', d, k, 0);
      }
    }
  }

  lemma {:induction false} AlreadySet(rt: Runtime, n: nat, d: Draft, k: nat)
    requires k <= |DEFAULTED| && forall j :: k <= j < |DEFAULTED| ==> Setting(d, DEFAULTED[j]).Some?
    ensures Defaulted(rt, n, d, k) == (d, None)
    decreases |DEFAULTED| - k
  {
    if k < |DEFAULTED| {
      AlreadySet(rt, n, d, k + 1);
    }
  }

  lemma {:induction false} StopsAt(rt: Runtime, n: nat, n': nat, d: Draft, k: nat, from: nat)
    requires from <= k < |DEFAULTED| && Setting(d, DEFAULTED[k]).None? && DefaultOf(rt, n, DEFAULTED[k]).None?
    requires forall j :: from <= j < k ==> Setting(d, DEFAULTED[j]).Some?
    ensures Defaulted(rt, n', d, from).0 == d
    decreases k - from
  {
    hide Setting;
    if from < k {
      StopsAt(rt, n, n', d, k, from + 1);
    }
  }
}
