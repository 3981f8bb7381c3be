/** The defaults and the checks on a new account, setting by setting. */
module AccountRules {
  import opened Basics
  import opened AccountEntity
  import opened AccountMeaning
  import opened AccountCreate

  // ======== defaults ========

  /** After defaults the key holds what it held before, or the default. */
  predicate FilledIn<K, V(==)>(before: map<K, V>, after: map<K, V>, k: K, default: V) {
    k in after && after[k] == Held(before, k, default)
  }

  predicate Same<K, V(==)>(before: map<K, V>, after: map<K, V>, k: K) {
    (k in after <==> k in before) && (k in before ==> after[k] == before[k])
  }

  predicate TimesFilled(rt: Runtime, n: nat, d: Draft, d': Draft) {
    && (CreatedAt in d.instants || rt.createdAt.Some?) && (UpdatedAt in d.instants || rt.updatedAt.Some?)
    && (rt.createdAt.Some? ==> FilledIn(d.instants, d'.instants, CreatedAt, rt.createdAt.value(n)))
    && (rt.updatedAt.Some? ==> FilledIn(d.instants, d'.instants, UpdatedAt, rt.updatedAt.value(n)))
  }

  predicate DocumentsFilled(rt: Runtime, d: Draft, d': Draft) {
    && (Credentials in d.documents || rt.credentials.Some?) && (Extra in d.documents || rt.extra.Some?)
    && (rt.credentials.Some? ==> FilledIn(d.documents, d'.documents, Credentials, rt.credentials.value))
    && (rt.extra.Some? ==> FilledIn(d.documents, d'.documents, Extra, rt.extra.value))
  }

  predicate ConstantsFilled(rt: Runtime, d: Draft, d': Draft) {
    && FilledIn(d.ints, d'.ints, Concurrency, rt.concurrency) && FilledIn(d.ints, d'.ints, Priority, rt.priority)
    && d'.rate == Some(if d.rate.Some? then d.rate.value else rt.rateMultiplier)
    && FilledIn(d.texts, d'.texts, Status, rt.status) && FilledIn(d.texts, d'.texts, QuotaDimension, "global")
    && FilledIn(d.flags, d'.flags, AutoPauseOnExpired, rt.autoPauseOnExpired)
    && FilledIn(d.flags, d'.flags, Schedulable, rt.schedulable)
  }

  /** If defaults succeeds, each of these settings is as it was or has its own default. */
  lemma {:induction false} DefaultsExactly(rt: Runtime, n: nat, d: Draft)
    requires Defaulted(rt, n, d, 0).1.None?
    ensures TimesFilled(rt, n, d, Defaulted(rt, n, d, 0).0)
    ensures DocumentsFilled(rt, d, Defaulted(rt, n, d, 0).0)
    ensures ConstantsFilled(rt, d, Defaulted(rt, n, d, 0).0)
  {
    hide Defaulted, TimesFilled, DocumentsFilled, ConstantsFilled;
    TimesAreFilled(rt, n, d);
    DocumentsAreFilled(rt, n, d);
    ConstantsAreFilled(rt, n, d);
  }

  lemma {:induction false} IsFilled(rt: Runtime, n: nat, d: Draft, c: Column)
    requires Defaulted(rt, n, d, 0).1.None? && HasDefault(c)
    ensures var d' := Defaulted(rt, n, d, 0).0;
            && Setting(d', c) == (if Setting(d, c).Some? then Setting(d, c) else DefaultOf(rt, n, c))
            && Setting(d', c).Some?
  {
    hide Defaulted, DEFAULTED, Setting, DefaultOf;
    AllDefaulted(c);
    DefaultedSetting(rt, n, d, 0, c);
  }

  lemma {:induction false} TimesAreFilled(rt: Runtime, n: nat, d: Draft)
    requires Defaulted(rt, n, d, 0).1.None?
    ensures TimesFilled(rt, n, d, Defaulted(rt, n, d, 0).0)
  {
    hide Defaulted;
    IsFilled(rt, n, d, TimeColumn(CreatedAt));
    IsFilled(rt, n, d, TimeColumn(UpdatedAt));
  }

  lemma {:induction false} DocumentsAreFilled(rt: Runtime, n: nat, d: Draft)
    requires Defaulted(rt, n, d, 0).1.None?
    ensures DocumentsFilled(rt, d, Defaulted(rt, n, d, 0).0)
  {
    hide Defaulted;
    IsFilled(rt, n, d, JsonColumn(Credentials));
    IsFilled(rt, n, d, JsonColumn(Extra));
  }

  lemma {:induction false} ConstantsAreFilled(rt: Runtime, n: nat, d: Draft)
    requires Defaulted(rt, n, d, 0).1.None?
    ensures ConstantsFilled(rt, d, Defaulted(rt, n, d, 0).0)
  {
    hide Defaulted;
    IsFilled(rt, n, d, Int64Column(Concurrency));
    IsFilled(rt, n, d, Int64Column(Priority));
    IsFilled(rt, n, d, RateMultiplier);
    IsFilled(rt, n, d, StringColumn(Status));
    IsFilled(rt, n, d, StringColumn(QuotaDimension));
    IsFilled(rt, n, d, BoolColumn(AutoPauseOnExpired));
    IsFilled(rt, n, d, BoolColumn(Schedulable));
  }

  predicate HasDefault(c: Column) {
    c in {TimeColumn(CreatedAt), TimeColumn(UpdatedAt), JsonColumn(Credentials), JsonColumn(Extra),
          Int64Column(Concurrency), Int64Column(Priority), RateMultiplier, StringColumn(Status),
          BoolColumn(AutoPauseOnExpired), BoolColumn(Schedulable), StringColumn(QuotaDimension)}
  }

  lemma {:induction false} AllDefaulted(c: Column)
    requires HasDefault(c)
    ensures c in DEFAULTED[0..]
  {
    assert DEFAULTED[0..] == DEFAULTED;
  }

  /** Whether it succeeds or not, everything without a default stays as it was. */
  lemma {:induction false} DefaultsLeaveTheRest(rt: Runtime, n: nat, d: Draft)
    ensures var d' := Defaulted(rt, n, d, 0).0;
            && (forall f :: f !in {Concurrency, Priority} ==> Same(d.ints, d'.ints, f))
            && (forall f :: f !in {CreatedAt, UpdatedAt} ==> Same(d.instants, d'.instants, f))
            && (forall f :: f !in {Status, QuotaDimension} ==> Same(d.texts, d'.texts, f))
            && d'.groups == d.groups && d'.proxy == d.proxy && d'.parent == d.parent
            && d'.children == d.children && d'.usageLogs == d.usageLogs
  {
    hide Defaulted, DEFAULTED;
    var d' := Defaulted(rt, n, d, 0).0;
    forall c | ValidColumn(c) && !HasDefault(c) ensures Setting(d', c) == Setting(d, c) {
      OthersNotDefaulted(c);
      DefaultedSetting(rt, n, d, 0, c);
    }
    forall f: Int64Field ensures f !in {Concurrency, Priority} ==> Same(d.ints, d'.ints, f) {
      assert f !in {Concurrency, Priority} ==> Setting(d', Int64Column(f)) == Setting(d, Int64Column(f));
    }
    forall f: TimeField ensures f !in {CreatedAt, UpdatedAt} ==> Same(d.instants, d'.instants, f) {
      assert f !in {CreatedAt, UpdatedAt} ==> Setting(d', TimeColumn(f)) == Setting(d, TimeColumn(f));
    }
    forall f: StringField ensures f !in {Status, QuotaDimension} ==> Same(d.texts, d'.texts, f) {
      assert f !in {Status, QuotaDimension} ==> Setting(d', StringColumn(f)) == Setting(d, StringColumn(f));
    }
    EdgesStay(rt, n, d, 0);
  }

  lemma {:induction false} OthersNotDefaulted(c: Column)
    requires ValidColumn(c) && !HasDefault(c)
    ensures c !in DEFAULTED[0..]
  {
    assert DEFAULTED[0..] == DEFAULTED;
  }

  lemma {:induction false} EdgesStay(rt: Runtime, n: nat, d: Draft, k: nat)
    requires k <= |DEFAULTED|
    ensures var d' := Defaulted(rt, n, d, k).0;
            && d'.groups == d.groups && d'.proxy == d.proxy && d'.parent == d.parent
            && d'.children == d.children && d'.usageLogs == d.usageLogs
    decreases |DEFAULTED| - k
  {
    hide DefaultOf, Setting, DEFAULTED, Set;
    if k < |DEFAULTED| {
      var c := DEFAULTED[k];
      if Setting(d, c).Some? {
        EdgesStay(rt, n, d, k + 1);
      } else if DefaultOf(rt, n, c).Some? {
        SetKeepsEdges(d, c, DefaultOf(rt, n, c).value);
        EdgesStay(rt, n, Set(d, c, DefaultOf(rt, n, c).value), k + 1);
      }
    }
  }

  lemma {:induction false} SetKeepsEdges(d: Draft, c: Column, v: Value)
    ensures var d' := Set(d, c, v);
            && d'.groups == d.groups && d'.proxy == d.proxy && d'.parent == d.parent
            && d'.children == d.children && d'.usageLogs == d.usageLogs
  {
  }

  /** It fails at the first default function that is needed and nil, in this order. */
  lemma {:induction false} DefaultsErrorExactly(rt: Runtime, n: nat, d: Draft)
    ensures Defaulted(rt, n, d, 0).1
         == if CreatedAt !in d.instants && rt.createdAt.None? then Some(Uninitialized(TimeColumn(CreatedAt)))
            else if UpdatedAt !in d.instants && rt.updatedAt.None? then Some(Uninitialized(TimeColumn(UpdatedAt)))
            else if Credentials !in d.documents && rt.credentials.None?
            then Some(Uninitialized(JsonColumn(Credentials)))
            else if Extra !in d.documents && rt.extra.None? then Some(Uninitialized(JsonColumn(Extra)))
            else None
  {
    hide Defaulted, DefaultOf, Set;
    FromColumn(rt, n, d, 0);
  }

  /** The column at which defaults stops, from position k on. */
  function StopsAt(rt: Runtime, d: Draft, k: nat): Option<CreateError>
    decreases 4 - k
  {
    if k >= 4 then None
    else if k == 0 && CreatedAt !in d.instants && rt.createdAt.None? then Some(Uninitialized(TimeColumn(CreatedAt)))
    else if k == 1 && UpdatedAt !in d.instants && rt.updatedAt.None? then Some(Uninitialized(TimeColumn(UpdatedAt)))
    else if k == 2 && Credentials !in d.documents && rt.credentials.None?
    then Some(Uninitialized(JsonColumn(Credentials)))
    else if k == 3 && Extra !in d.documents && rt.extra.None? then Some(Uninitialized(JsonColumn(Extra)))
    else StopsAt(rt, d, k + 1)
  }

  lemma {:induction false} FromColumn(rt: Runtime, n: nat, d: Draft, k: nat)
    requires k <= |DEFAULTED|
    ensures Defaulted(rt, n, d, k).1 == StopsAt(rt, d, k)
    decreases |DEFAULTED| - k
  {
    hide DEFAULTED, Setting, DefaultOf, Set, StopsAt;
    DefaultedOrder();
    if k < |DEFAULTED| {
      var c := DEFAULTED[k];
      StopsHere(rt, n, d, k);
      if Setting(d, c).Some? {
        FromColumn(rt, n, d, k + 1);
      } else if DefaultOf(rt, n, c).Some? {
        FromColumn(rt, n, Set(d, c, DefaultOf(rt, n, c).value), k + 1);
        SetBefore(rt, n, d, k);
      }
    } else {
      NoStop(rt, d, k);
    }
  }

  lemma {:induction false} NoStop(rt: Runtime, d: Draft, k: nat)
    requires k >= 4
    ensures StopsAt(rt, d, k) == None
  {
  }

  lemma {:induction false} StopsHere(rt: Runtime, n: nat, d: Draft, k: nat)
    requires k < |DEFAULTED|
    ensures var c := DEFAULTED[k];
            StopsAt(rt, d, k)
            == if Setting(d, c).None? && DefaultOf(rt, n, c).None? then Some(Uninitialized(c))
               else StopsAt(rt, d, k + 1)
  {
    hide DEFAULTED;
    DefaultedOrder();
    if k >= 4 {
      NoStop(rt, d, k);
      NoStop(rt, d, k + 1);
    }
  }

  /** What was set at one column does not matter for the later ones. */
  lemma {:induction false} SetBefore(rt: Runtime, n: nat, d: Draft, k: nat)
    requires k < |DEFAULTED| && DefaultOf(rt, n, DEFAULTED[k]).Some?
    ensures StopsAt(rt, Set(d, DEFAULTED[k], DefaultOf(rt, n, DEFAULTED[k]).value), k + 1) == StopsAt(rt, d, k + 1)
  {
    hide DEFAULTED;
    DefaultedOrder();
    if k >= 3 {
      NoStop(rt, d, k + 1);
      NoStop(rt, Set(d, DEFAULTED[k], DefaultOf(rt, n, DEFAULTED[k]).value), k + 1);
    }
  }

  lemma {:induction false} DefaultedOrder()
    ensures |DEFAULTED| == 11
    ensures DEFAULTED[0] == TimeColumn(CreatedAt) && DEFAULTED[1] == TimeColumn(UpdatedAt)
    ensures DEFAULTED[2] == JsonColumn(Credentials) && DEFAULTED[3] == JsonColumn(Extra)
    ensures forall k :: 4 <= k < 11 ==> DEFAULTED[k] in {
              Int64Column(Concurrency), Int64Column(Priority), RateMultiplier, StringColumn(Status),
              BoolColumn(AutoPauseOnExpired), BoolColumn(Schedulable), StringColumn(QuotaDimension)}
  {
  }

  // ======== checks ========

  /** The quota dimension is one of two. */
  lemma {:induction false} QuotaDimensionExactly(s: string)
    ensures QuotaDimensionValid(s) <==> s == "global" || s == "spark"
  {
  }

  /** A text that is missing, or there and not accepted. */
  function TextComplaint(d: Draft, f: StringField, valid: string -> bool): Option<CreateError> {
    if f !in d.texts then Some(Missing(StringColumn(f)))
    else if !valid(d.texts[f]) then Some(Refused(StringColumn(f)))
    else None
  }

  function IfMissing(missing: bool, c: Column): Option<CreateError> {
    if missing then Some(Missing(c)) else None
  }

  function OrElse(a: Option<CreateError>, b: Option<CreateError>): Option<CreateError> {
    if a.Some? then a else b
  }

  function TimesComplaint(d: Draft): Option<CreateError> {
    OrElse(IfMissing(CreatedAt !in d.instants, TimeColumn(CreatedAt)),
           IfMissing(UpdatedAt !in d.instants, TimeColumn(UpdatedAt)))
  }

  function IdentityComplaint(rt: Runtime, d: Draft): Option<CreateError> {
    OrElse(TextComplaint(d, Name, rt.nameValid),
           OrElse(TextComplaint(d, Platform, rt.platformValid), TextComplaint(d, Type, rt.typeValid)))
  }

  function ContentsComplaint(d: Draft): Option<CreateError> {
    OrElse(OrElse(IfMissing(Credentials !in d.documents, JsonColumn(Credentials)),
                  IfMissing(Extra !in d.documents, JsonColumn(Extra))),
           OrElse(IfMissing(Concurrency !in d.ints, Int64Column(Concurrency)),
                  OrElse(IfMissing(Priority !in d.ints, Int64Column(Priority)),
                         IfMissing(d.rate.None?, RateMultiplier))))
  }

  function StateComplaint(rt: Runtime, d: Draft): Option<CreateError> {
    OrElse(TextComplaint(d, Status, rt.statusValid),
           OrElse(IfMissing(AutoPauseOnExpired !in d.flags, BoolColumn(AutoPauseOnExpired)),
                  IfMissing(Schedulable !in d.flags, BoolColumn(Schedulable))))
  }

  function QuotaComplaint(rt: Runtime, d: Draft): Option<CreateError> {
    OrElse(if SessionWindowStatus in d.texts && !rt.windowStatusValid(d.texts[SessionWindowStatus])
           then Some(Refused(StringColumn(SessionWindowStatus))) else None,
           TextComplaint(d, QuotaDimension, (s: string) => s == "global" || s == "spark"))
  }

  /** What the check complains about, in its order: what is required, and what the validators say of the texts. */
  lemma {:induction false} CheckExactly(rt: Runtime, d: Draft)
    ensures FirstComplaint(rt, d, 0)
         == OrElse(TimesComplaint(d),
                   OrElse(IdentityComplaint(rt, d),
                          OrElse(ContentsComplaint(d), OrElse(StateComplaint(rt, d), QuotaComplaint(rt, d)))))
  {
    hide FirstComplaint, TimesComplaint, IdentityComplaint, ContentsComplaint, StateComplaint, QuotaComplaint;
    TimesChecked(rt, d);
    IdentityChecked(rt, d);
    ContentsChecked(rt, d);
    StateChecked(rt, d);
    QuotaChecked(rt, d);
  }

  lemma {:induction false} OneCheck(rt: Runtime, d: Draft, k: nat)
    requires k < 20
    ensures |REQUIREMENTS| == 20
    ensures FirstComplaint(rt, d, k)
         == if Meets(rt, d, REQUIREMENTS[k]) then FirstComplaint(rt, d, k + 1) else Some(Complaint(REQUIREMENTS[k]))
  {
  }

  lemma {:induction false} TimesChecked(rt: Runtime, d: Draft)
    ensures FirstComplaint(rt, d, 0) == OrElse(TimesComplaint(d), FirstComplaint(rt, d, 2))
  {
    hide FirstComplaint;
    OneCheck(rt, d, 0);
    OneCheck(rt, d, 1);
  }

  lemma {:induction false} IdentityChecked(rt: Runtime, d: Draft)
    ensures FirstComplaint(rt, d, 2) == OrElse(IdentityComplaint(rt, d), FirstComplaint(rt, d, 8))
  {
    hide FirstComplaint;
    OneCheck(rt, d, 2);
    OneCheck(rt, d, 3);
    OneCheck(rt, d, 4);
    OneCheck(rt, d, 5);
    OneCheck(rt, d, 6);
    OneCheck(rt, d, 7);
  }

  lemma {:induction false} ContentsChecked(rt: Runtime, d: Draft)
    ensures FirstComplaint(rt, d, 8) == OrElse(ContentsComplaint(d), FirstComplaint(rt, d, 13))
  {
    hide FirstComplaint;
    OneCheck(rt, d, 8);
    OneCheck(rt, d, 9);
    OneCheck(rt, d, 10);
    OneCheck(rt, d, 11);
    OneCheck(rt, d, 12);
  }

  lemma {:induction false} StateChecked(rt: Runtime, d: Draft)
    ensures FirstComplaint(rt, d, 13) == OrElse(StateComplaint(rt, d), FirstComplaint(rt, d, 17))
  {
    hide FirstComplaint;
    OneCheck(rt, d, 13);
    OneCheck(rt, d, 14);
    OneCheck(rt, d, 15);
    OneCheck(rt, d, 16);
  }

  lemma {:induction false} QuotaChecked(rt: Runtime, d: Draft)
    ensures FirstComplaint(rt, d, 17) == QuotaComplaint(rt, d)
  {
    hide FirstComplaint;
    OneCheck(rt, d, 17);
    OneCheck(rt, d, 18);
    OneCheck(rt, d, 19);
    NoMoreChecks(rt, d);
    if QuotaDimension in d.texts {
      QuotaDimensionExactly(d.texts[QuotaDimension]);
    }
  }

  lemma {:induction false} NoMoreChecks(rt: Runtime, d: Draft)
    ensures |REQUIREMENTS| == 20 && FirstComplaint(rt, d, 20) == None
  {
  }
}
