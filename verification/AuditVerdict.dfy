/** From exceptions and findings to a verdict: the index, the deduplicating scan, and exactly when the gate passes. */
module AuditVerdict {
  import opened Basics
  import opened AuditText
  import opened AuditGate

  // ======== reports ========

  datatype Report =
    | MissingFields(package: string)
    | BadDate(package: string)
    | EmptyKey
    | Duplicate(package: string, listed: string)
    | NoAdvisory(name: Scalar, severity: string)
    | Mismatch(name: Scalar, advisory: Scalar, expected: string, got: string)
    | MissingHeader
    | Missing(name: Scalar, severity: string, advisory: Scalar, title: Scalar)
    | ExpiredHeader
    | Expired(name: Scalar, severity: string, advisory: Scalar, on: Date)

  type Key = (string, string)

  datatype IndexEntry = IndexEntry(severity: string, expires: Date)

  // ======== the index of exceptions ========

  const REQUIRED_FIELDS := ["package", "advisory", "severity", "mitigation", "expires_on"]

  function Get(e: Fields, field: string): string {
    if field in e then e[field] else ""
  }

  predicate Complete(e: Fields) {
    forall i :: 0 <= i < |REQUIRED_FIELDS| ==> Get(e, REQUIRED_FIELDS[i]) != ""
  }

  function PackageLabel(e: Fields): string {
    if "package" in e then e["package"] else "<unknown>"
  }

  function KeyOf(e: Fields): Key {
    (Package(Text(Get(e, "package"))), Advisory(Text(Get(e, "advisory"))))
  }

  function EntryOf(e: Fields, expires: Date): IndexEntry {
    IndexEntry(Lower(Strip(Get(e, "severity"))), expires)
  }

  predicate Usable(e: Fields) {
    Complete(e) && ParseDate(Get(e, "expires_on")).Some? && KeyOf(e).0 != "" && KeyOf(e).1 != ""
  }

  datatype Index = Index(entries: map<Key, IndexEntry>, errors: seq<Report>)

  function IndexOne(ix: Index, e: Fields): Index {
    if !Complete(e) then ix.(errors := ix.errors + [MissingFields(PackageLabel(e))])
    else
      match ParseDate(Get(e, "expires_on"))
      case None => ix.(errors := ix.errors + [BadDate(PackageLabel(e))])
      case Some(date) =>
        var key := KeyOf(e);
        if key.0 == "" || key.1 == "" then ix.(errors := ix.errors + [EmptyKey])
        else if key in ix.entries then ix.(errors := ix.errors + [Duplicate(key.0, Get(e, "advisory"))])
        else ix.(entries := ix.entries[key := EntryOf(e, date)])
  }

  function IndexAll(es: seq<Fields>): Index {
    if es == [] then Index(map[], []) else IndexOne(IndexAll(es[..|es| - 1]), es[|es| - 1])
  }

  method IndexExceptions(es: seq<Fields>) returns (ix: Index)
    ensures ix == IndexAll(es)
  {
    hide Complete, ParseDate, KeyOf, EntryOf;
    var entries: map<Key, IndexEntry> := map[];
    var errors: seq<Report> := [];
    for n := 0 to |es|
      invariant IndexAll(es[..n]) == Index(entries, errors)
    {
      assert es[..n + 1][..n] == es[..n];
      var e := es[n];
      if !Complete(e) {
        errors := errors + [MissingFields(PackageLabel(e))];
        continue;
      }
      var date := ParseDate(Get(e, "expires_on"));
      if date.None? {
        errors := errors + [BadDate(PackageLabel(e))];
        continue;
      }
      var key := KeyOf(e);
      if key.0 == "" || key.1 == "" {
        errors := errors + [EmptyKey];
        continue;
      }
      if key in entries {
        errors := errors + [Duplicate(key.0, Get(e, "advisory"))];
        continue;
      }
      entries := entries[key := EntryOf(e, date.value)];
    }
    assert es[..|es|] == es;
    ix := Index(entries, errors);
  }

  /** The index holds the first usable exception of every key, and nothing else. */
  lemma {:induction false} IndexHolds(es: seq<Fields>, key: Key)
    ensures key in IndexAll(es).entries <==> exists i :: 0 <= i < |es| && Usable(es[i]) && KeyOf(es[i]) == key
    ensures key in IndexAll(es).entries ==>
              exists i :: 0 <= i < |es| && Usable(es[i]) && KeyOf(es[i]) == key
                          && IndexAll(es).entries[key] == EntryOf(es[i], ParseDate(Get(es[i], "expires_on")).value)
                          && forall j :: 0 <= j < i ==> !(Usable(es[j]) && KeyOf(es[j]) == key)
  {
    hide Complete, ParseDate, KeyOf, EntryOf;
    if es != [] {
      var n := |es| - 1;
      IndexHolds(es[..n], key);
      assert forall i :: 0 <= i < n ==> es[..n][i] == es[i];
      var before, after := IndexAll(es[..n]), IndexAll(es);
      if key in before.entries {
        var i :| 0 <= i < n && Usable(es[..n][i]) && KeyOf(es[..n][i]) == key
                 && before.entries[key] == EntryOf(es[..n][i], ParseDate(Get(es[..n][i], "expires_on")).value)
                 && forall j :: 0 <= j < i ==> !(Usable(es[..n][j]) && KeyOf(es[..n][j]) == key);
        assert Usable(es[i]) && KeyOf(es[i]) == key;
      } else if key in after.entries {
        assert Usable(es[n]) && KeyOf(es[n]) == key;
      }
    }
  }

  predicate AllUsable(es: seq<Fields>) {
    forall i :: 0 <= i < |es| ==> Usable(es[i])
  }

  predicate DistinctKeys(es: seq<Fields>) {
    forall i, j :: 0 <= i < j < |es| ==> KeyOf(es[i]) != KeyOf(es[j])
  }

  /** Indexing reports nothing exactly if every exception is complete, has a real date and a key, and no key repeats. */
  lemma {:induction false} IndexCleanExactly(es: seq<Fields>)
    ensures IndexAll(es).errors == [] <==> AllUsable(es) && DistinctKeys(es)
  {
    hide Complete, ParseDate, KeyOf, EntryOf, IndexAll;
    if es == [] {
      IndexStep(es);
    } else {
      var n := |es| - 1;
      IndexCleanExactly(es[..n]);
      IndexStep(es);
      IndexHolds(es[..n], KeyOf(es[n]));
      assert forall i :: 0 <= i < n ==> es[..n][i] == es[i];
    }
  }

  lemma {:induction false} IndexStep(es: seq<Fields>)
    ensures es == [] ==> IndexAll(es) == Index(map[], [])
    ensures es != [] ==>
              var before := IndexAll(es[..|es| - 1]);
              IndexAll(es).errors == []
              <==> before.errors == [] && Usable(es[|es| - 1]) && KeyOf(es[|es| - 1]) !in before.entries
  {
    hide Complete, ParseDate, KeyOf, EntryOf;
  }

  // ======== the scan ========

  datatype Scan = Scan(seen: set<Key>, errors: seq<Report>, missing: seq<Report>, expired: seq<Report>)

  predicate Grave(severity: string) {
    severity == "high" || severity == "critical"
  }

  /** A finding the gate looks at. */
  predicate Relevant(f: Finding) {
    Severity(f.severity).Some? && Grave(Severity(f.severity).value) && f.name.Truthy()
  }

  function FindingKey(f: Finding): Key {
    (Package(f.name), Advisory(f.advisory))
  }

  /** A finding that is deduplicated. */
  predicate Keyed(f: Finding) {
    Relevant(f) && Advisory(f.advisory) != ""
  }

  /** One turn of the scan; None is the error of a severity that is a number. */
  function ScanOne(entries: map<Key, IndexEntry>, today: Date, st: Scan, f: Finding): Option<Scan> {
    match Severity(f.severity)
    case None => None
    case Some(sev) =>
      if !Grave(sev) || !f.name.Truthy() then Some(st)
      else if Advisory(f.advisory) == "" then Some(st.(errors := st.errors + [NoAdvisory(f.name, sev)]))
      else if FindingKey(f) in st.seen then Some(st)
      else Some(Judge(entries, today, st.(seen := st.seen + {FindingKey(f)}), f, sev))
  }

  /** The first finding of a key against its exception. */
  function Judge(entries: map<Key, IndexEntry>, today: Date, st: Scan, f: Finding, sev: string): Scan {
    var key := FindingKey(f);
    if key !in entries then st.(missing := st.missing + [Missing(f.name, sev, f.advisory, f.title)])
    else
      var e := entries[key];
      st.(errors := if e.severity != "" && e.severity != sev
                    then st.errors + [Mismatch(f.name, f.advisory, sev, e.severity)]
                    else st.errors,
          expired := if Earlier(e.expires, today)
                     then st.expired + [Expired(f.name, sev, f.advisory, e.expires)]
                     else st.expired)
  }

  const NOTHING_SEEN := Scan({}, [], [], [])

  function ScanAll(entries: map<Key, IndexEntry>, today: Date, fs: seq<Finding>): Option<Scan> {
    if fs == [] then Some(NOTHING_SEEN)
    else
      match ScanAll(entries, today, fs[..|fs| - 1])
      case None => None
      case Some(st) => ScanOne(entries, today, st, fs[|fs| - 1])
  }

  method ScanFindings(entries: map<Key, IndexEntry>, today: Date, fs: seq<Finding>) returns (st: Option<Scan>)
    ensures st == ScanAll(entries, today, fs)
  {
    hide FindingKey, Severity, Grave, Advisory;
    var seen: set<Key> := {};
    var errors: seq<Report>, missing: seq<Report>, expired: seq<Report> := [], [], [];
    for n := 0 to |fs|
      invariant ScanAll(entries, today, fs[..n]) == Some(Scan(seen, errors, missing, expired))
    {
      assert fs[..n + 1][..n] == fs[..n];
      var f := fs[n];
      var sev := Severity(f.severity);
      if sev.None? {
        ScanStops(entries, today, fs, n + 1);
        return None;
      }
      if !Grave(sev.value) || !f.name.Truthy() {
        continue;
      }
      if Advisory(f.advisory) == "" {
        errors := errors + [NoAdvisory(f.name, sev.value)];
        continue;
      }
      var key := FindingKey(f);
      if key in seen {
        continue;
      }
      seen := seen + {key};
      if key !in entries {
        missing := missing + [Missing(f.name, sev.value, f.advisory, f.title)];
        continue;
      }
      var e := entries[key];
      if e.severity != "" && e.severity != sev.value {
        errors := errors + [Mismatch(f.name, f.advisory, sev.value, e.severity)];
      }
      if Earlier(e.expires, today) {
        expired := expired + [Expired(f.name, sev.value, f.advisory, e.expires)];
      }
    }
    assert fs[..|fs|] == fs;
    st := Some(Scan(seen, errors, missing, expired));
  }

  lemma {:induction false} ScanStops(entries: map<Key, IndexEntry>, today: Date, fs: seq<Finding>, n: nat)
    requires n <= |fs| && ScanAll(entries, today, fs[..n]).None?
    ensures ScanAll(entries, today, fs).None?
  {
    hide ScanOne;
    if n < |fs| {
      assert fs[..|fs| - 1][..n] == fs[..n];
      ScanStops(entries, today, fs[..|fs| - 1], n);
    } else {
      assert fs[..n] == fs;
    }
  }

  // ---- exactly when the scan finds nothing ----

  predicate Clean(st: Option<Scan>) {
    st.Some? && st.value.errors == [] && st.value.missing == [] && st.value.expired == []
  }

  /** An unexpired exception for the key, of that severity or of none. */
  predicate Covered(entries: map<Key, IndexEntry>, today: Date, key: Key, severity: string) {
    key in entries && (entries[key].severity == "" || entries[key].severity == severity)
    && !Earlier(entries[key].expires, today)
  }

  /** The first keyed finding with its key. */
  predicate FirstOfKey(fs: seq<Finding>, i: nat)
    requires i < |fs|
  {
    forall j :: 0 <= j < i ==> !(Keyed(fs[j]) && FindingKey(fs[j]) == FindingKey(fs[i]))
  }

  predicate Acceptable(entries: map<Key, IndexEntry>, today: Date, fs: seq<Finding>, i: nat)
    requires i < |fs|
  {
    && Severity(fs[i].severity).Some?
    && (Relevant(fs[i]) ==>
          Advisory(fs[i].advisory) != ""
          && (FirstOfKey(fs, i) ==> Covered(entries, today, FindingKey(fs[i]), Severity(fs[i].severity).value)))
  }

  lemma {:induction false} SeenExactly(entries: map<Key, IndexEntry>, today: Date, fs: seq<Finding>, key: Key)
    requires ScanAll(entries, today, fs).Some?
    ensures key in ScanAll(entries, today, fs).value.seen
            <==> exists i :: 0 <= i < |fs| && Keyed(fs[i]) && FindingKey(fs[i]) == key
  {
    hide FindingKey, Severity, Grave, Advisory;
    if fs != [] {
      var n := |fs| - 1;
      SeenExactly(entries, today, fs[..n], key);
      assert forall i :: 0 <= i < n ==> fs[..n][i] == fs[i];
    }
  }

  /** The scan reports nothing exactly if every relevant finding has an advisory id, and the first finding of every
      key is covered by an exception. */
  lemma {:induction false} ScanCleanExactly(entries: map<Key, IndexEntry>, today: Date, fs: seq<Finding>)
    ensures Clean(ScanAll(entries, today, fs)) <==> forall i :: 0 <= i < |fs| ==> Acceptable(entries, today, fs, i)
  {
    hide FindingKey, Severity, Grave, Advisory, Covered, Acceptable, Keyed, ScanOne, ScanAll;
    if fs == [] {
      ScanStart(entries, today);
    } else {
      var n := |fs| - 1;
      ScanCleanExactly(entries, today, fs[..n]);
      forall i | 0 <= i < n ensures Acceptable(entries, today, fs[..n], i) <==> Acceptable(entries, today, fs, i) {
        AcceptablePrefix(entries, today, fs, n, i);
      }
      CleanStep(entries, today, fs);
    }
  }

  lemma {:induction false} ScanStart(entries: map<Key, IndexEntry>, today: Date)
    ensures Clean(ScanAll(entries, today, []))
  {
  }

  lemma {:induction false} AcceptablePrefix(entries: map<Key, IndexEntry>, today: Date, fs: seq<Finding>, n: nat,
                                            i: nat)
    requires i < n <= |fs|
    ensures Acceptable(entries, today, fs[..n], i) <==> Acceptable(entries, today, fs, i)
  {
    hide FindingKey, Severity, Grave, Advisory, Covered, Keyed;
    assert forall j :: 0 <= j < n ==> fs[..n][j] == fs[j];
  }

  lemma {:induction false} CleanStep(entries: map<Key, IndexEntry>, today: Date, fs: seq<Finding>)
    requires fs != []
    ensures Clean(ScanAll(entries, today, fs))
       <==> Clean(ScanAll(entries, today, fs[..|fs| - 1])) && Acceptable(entries, today, fs, |fs| - 1)
  {
    hide FindingKey, Severity, Grave, Advisory;
    var n := |fs| - 1;
    var before := ScanAll(entries, today, fs[..n]);
    assert forall j :: 0 <= j < n ==> fs[..n][j] == fs[j];
    if before.Some? {
      SeenExactly(entries, today, fs[..n], FindingKey(fs[n]));
      assert FindingKey(fs[n]) in before.value.seen <==> !FirstOfKey(fs, n);
    }
  }

  // ======== the verdict ========

  datatype Verdict = Passed | Failed(reports: seq<Report>) | Crashed

  function Reports(ix: Index, st: Scan): seq<Report> {
    ix.errors + st.errors
    + (if st.missing == [] then [] else [MissingHeader] + st.missing)
    + (if st.expired == [] then [] else [ExpiredHeader] + st.expired)
  }

  /** main, given the lines of the exception file, the parsed report and the date. */
  function Judgement(lines: seq<string>, audit: Audit, today: Date): Verdict {
    match Parse(lines)
    case None => Crashed
    case Some(es) =>
      var (findings, crashed) := Findings(audit);
      var ix := IndexAll(es);
      match ScanAll(ix.entries, today, findings)
      case None => Crashed
      case Some(st) => if crashed then Crashed else if Reports(ix, st) == [] then Passed else Failed(Reports(ix, st))
  }

  method Gate(lines: seq<string>, audit: Audit, today: Date) returns (v: Verdict)
    ensures v == Judgement(lines, audit, today)
  {
    hide Parse, IndexAll, ScanAll, Findings;
    var es := ParseExceptions(lines);
    if es.None? {
      return Crashed;
    }
    var ix := IndexExceptions(es.value);
    var findings, crashed := IterVulns(audit);
    var st := ScanFindings(ix.entries, today, findings);
    if st.None? || crashed {
      return Crashed;
    }
    var errors := ix.errors + st.value.errors;
    if st.value.missing != [] {
      errors := errors + [MissingHeader] + st.value.missing;
    }
    if st.value.expired != [] {
      errors := errors + [ExpiredHeader] + st.value.expired;
    }
    assert errors == Reports(ix, st.value);
    v := if errors == [] then Passed else Failed(errors);
  }

  // ---- exactly when the gate breaks off, and when it passes ----

  lemma {:induction false} ScanFailsExactly(entries: map<Key, IndexEntry>, today: Date, fs: seq<Finding>)
    ensures ScanAll(entries, today, fs).None? <==> exists i :: 0 <= i < |fs| && Severity(fs[i].severity).None?
  {
    hide Severity, Judge, Advisory, FindingKey;
    if fs != [] {
      var n := |fs| - 1;
      ScanFailsExactly(entries, today, fs[..n]);
      assert forall i :: 0 <= i < n ==> fs[..n][i] == fs[i];
    }
  }

  /** A severity that cannot be stripped. */
  predicate NumericSeverity(v: Scalar) {
    v.Number? && v.n != 0
  }

  predicate UnreadableFile(lines: seq<string>) {
    exists i :: 0 <= i < |lines| && BadItem(lines[i])
  }

  /** Something in the report ends the run with a type error: an advisory or a vulnerability that names an advisory,
      with a number for its severity, or titles that cannot be joined. */
  predicate UnreadableReport(audit: Audit) {
    || (audit.advisories.Some? && exists a :: a in audit.advisories.value && NumericSeverity(a.severity))
    || (audit.vulnerabilities.Some?
        && exists v :: v in audit.vulnerabilities.value
                       && (Unjoinable(v)
                           || (NumericSeverity(v.severity) && exists id :: id in ItemIDs(v.via) && id.Truthy())))
  }

  /** The gate breaks off exactly if the exception file has an item without a colon, or the report is unreadable. */
  lemma {:induction false} BreaksOffExactly(lines: seq<string>, audit: Audit, today: Date)
    ensures Judgement(lines, audit, today) == Crashed <==> UnreadableFile(lines) || UnreadableReport(audit)
  {
    hide Parse, ScanAll, Findings, IndexAll, BadItem, UnreadableReport;
    ParseFailsExactly(lines);
    if Parse(lines).Some? {
      var findings := Findings(audit).0;
      ScanFailsExactly(IndexAll(Parse(lines).value).entries, today, findings);
      ReportFailsExactly(audit);
    }
  }

  lemma {:induction false} ReportFailsExactly(audit: Audit)
    ensures UnreadableReport(audit)
       <==> Findings(audit).1
            || exists i :: 0 <= i < |Findings(audit).0| && Severity(Findings(audit).0[i].severity).None?
  {
    hide Findings, Unjoinable, FoundIn, FromAdvisory;
    FindingsBreakOffExactly(audit);
    if !Findings(audit).1 {
      var fs := Findings(audit).0;
      if i :| 0 <= i < |fs| && Severity(fs[i].severity).None? {
        assert fs[i] in fs;
        FindingsExactly(audit, fs[i]);
        BadFindingSource(audit, fs[i]);
      }
      if UnreadableReport(audit) {
        var f := BadFinding(audit);
        FindingsExactly(audit, f);
        var i :| 0 <= i < |fs| && fs[i] == f;
      }
    }
  }

  lemma {:induction false} BadFindingSource(audit: Audit, f: Finding)
    requires Severity(f.severity).None?
    requires || (audit.advisories.Some? && exists a :: a in audit.advisories.value && f == FromAdvisory(a))
             || (audit.vulnerabilities.Some? && exists v :: v in audit.vulnerabilities.value && FoundIn(f, v))
    ensures UnreadableReport(audit)
  {
    hide Unjoinable, ItemIDs, TitleOf, PickAdvisoryID;
  }

  lemma {:induction false} BadFinding(audit: Audit) returns (f: Finding)
    requires UnreadableReport(audit)
    requires audit.vulnerabilities.Some? ==> forall v :: v in audit.vulnerabilities.value ==> !Unjoinable(v)
    ensures Severity(f.severity).None?
    ensures || (audit.advisories.Some? && exists a :: a in audit.advisories.value && f == FromAdvisory(a))
            || (audit.vulnerabilities.Some? && exists v :: v in audit.vulnerabilities.value && FoundIn(f, v))
  {
    hide Unjoinable, ItemIDs, TitleOf, PickAdvisoryID;
    if audit.advisories.Some? && exists a :: a in audit.advisories.value && NumericSeverity(a.severity) {
      var a :| a in audit.advisories.value && NumericSeverity(a.severity);
      f := FromAdvisory(a);
    } else {
      var v :| v in audit.vulnerabilities.value && NumericSeverity(v.severity)
               && exists id :: id in ItemIDs(v.via) && id.Truthy();
      var id :| id in ItemIDs(v.via) && id.Truthy();
      TitleFailsExactly(v);
      f := Finding(Text(v.name), v.severity, id, Text(TitleOf(v).value));
    }
  }

  /** The gate passes exactly if file and report can be read, every exception is usable and no key repeats, and
      every finding is acceptable. */
  lemma {:induction false} PassesExactly(lines: seq<string>, audit: Audit, today: Date)
    ensures Judgement(lines, audit, today) == Passed
       <==> && !UnreadableFile(lines) && !UnreadableReport(audit)
            && Parse(lines).Some? && AllUsable(Parse(lines).value) && DistinctKeys(Parse(lines).value)
            && forall i :: 0 <= i < |Findings(audit).0| ==>
                 Acceptable(IndexAll(Parse(lines).value).entries, today, Findings(audit).0, i)
  {
    hide Parse, IndexAll, ScanAll, Findings, Acceptable, AllUsable, DistinctKeys, UnreadableFile, UnreadableReport;
    BreaksOffExactly(lines, audit, today);
    if Parse(lines).Some? {
      var es, findings := Parse(lines).value, Findings(audit).0;
      var ix := IndexAll(es);
      IndexCleanExactly(es);
      ScanCleanExactly(ix.entries, today, findings);
    }
  }

  const UNTITLED_ENTRY := Entry(Absent, Absent, Number(1234), Absent, Text("left-pad"), Absent)
  const UNTITLED_REPORT := Audit(None, Some([Vulnerability("left-pad", Text("low"), Items([UNTITLED_ENTRY]))]))

  /** For instance on a report with a numeric source and no title, url or advisory, whatever else it is given: even
      a harmless finding and a complete exception file do not help. */
  lemma {:induction false} NumericSourceBreaks(lines: seq<string>, today: Date)
    ensures Judgement(lines, UNTITLED_REPORT, today) == Crashed
  {
    hide Judgement;
    var v := UNTITLED_REPORT.vulnerabilities.value[0];
    var candidates := TitleCandidates(UNTITLED_ENTRY);
    assert candidates[3] == Number(1234) && forall j :: 0 <= j < 3 ==> !candidates[j].Truthy();
    assert NumericTitle(v.via.items[0]);
    assert v in UNTITLED_REPORT.vulnerabilities.value && Unjoinable(v);
    BreaksOffExactly(lines, UNTITLED_REPORT, today);
  }
}
