/** The verdict on a changed report: records added, repeated or in another order, and exactly when added advisories
    can make the gate pass. */
module AuditChanges {
  import opened Basics
  import opened AuditText
  import AuditRoundTrip
  import opened AuditGate
  import opened AuditVerdict
  import opened AuditStability

  function AdvisoryList(audit: Audit): seq<AuditAdvisory> {
    if audit.advisories.None? then [] else audit.advisories.value
  }

  function VulnerabilityList(audit: Audit): seq<Vulnerability> {
    if audit.vulnerabilities.None? then [] else audit.vulnerabilities.value
  }

  lemma {:induction false} FindingsOfLists(audit: Audit)
    ensures Findings(audit) == (FromAdvisories(AdvisoryList(audit)) + FromVulnerabilities(VulnerabilityList(audit)).0,
                                FromVulnerabilities(VulnerabilityList(audit)).1)
  {
  }

  // ======== which records there are ========

  ghost predicate Included(audit: Audit, other: Audit) {
    && (forall a :: a in AdvisoryList(audit) ==> a in AdvisoryList(other))
    && (forall v :: v in VulnerabilityList(audit) ==> v in VulnerabilityList(other))
  }

  lemma {:induction false} UnreadableStays(audit: Audit, other: Audit)
    requires Included(audit, other) && UnreadableReport(audit)
    ensures UnreadableReport(other)
  {
    hide Unjoinable, ItemIDs, NumericSeverity;
    if audit.advisories.Some? && exists a :: a in audit.advisories.value && NumericSeverity(a.severity) {
      var a :| a in audit.advisories.value && NumericSeverity(a.severity);
      assert a in AdvisoryList(audit) && a in AdvisoryList(other);
    } else {
      var v :| v in audit.vulnerabilities.value
               && (Unjoinable(v)
                   || (NumericSeverity(v.severity) && exists id :: id in ItemIDs(v.via) && id.Truthy()));
      assert v in VulnerabilityList(audit) && v in VulnerabilityList(other);
    }
  }

  lemma {:induction false} FindingSource(audit: Audit, f: Finding)
    requires !Findings(audit).1
    ensures f in Findings(audit).0
       <==> || (exists a :: a in AdvisoryList(audit) && f == FromAdvisory(a))
            || exists v :: v in VulnerabilityList(audit) && FoundIn(f, v)
  {
    hide Findings, FoundIn, FromAdvisory;
    FindingsExactly(audit, f);
  }

  lemma {:induction false} FewerFindings(audit: Audit, other: Audit)
    requires Included(audit, other) && !UnreadableReport(other)
    ensures !UnreadableReport(audit)
    ensures forall f :: f in Findings(audit).0 ==> f in Findings(other).0
  {
    hide Findings, FoundIn, FromAdvisory, UnreadableReport;
    if UnreadableReport(audit) {
      UnreadableStays(audit, other);
    }
    ReportFailsExactly(audit);
    ReportFailsExactly(other);
    forall f | f in Findings(audit).0 ensures f in Findings(other).0 {
      FindingSource(audit, f);
      FindingSource(other, f);
      if a :| a in AdvisoryList(audit) && f == FromAdvisory(a) {
        assert a in AdvisoryList(other);
      } else {
        var v :| v in VulnerabilityList(audit) && FoundIn(f, v);
        assert v in VulnerabilityList(other);
      }
    }
  }

  /** If severity is a matter of the key, further records never make the gate pass, wherever they stand. */
  lemma {:induction false} MoreRecordsNeverHelp(lines: seq<string>, audit: Audit, other: Audit, today: Date)
    requires Included(audit, other) && SeverityByKey(Findings(other).0)
    ensures Judgement(lines, other, today) == Passed ==> Judgement(lines, audit, today) == Passed
  {
    hide Findings, UnreadableReport, UnreadableFile, Parse, IndexAll, ScanAll, SeverityByKey, Settled, Included;
    if Judgement(lines, other, today) == Passed {
      PassesByScan(lines, audit, today);
      PassesByScan(lines, other, today);
      FewerFindings(audit, other);
      var fs, gs := Findings(audit).0, Findings(other).0;
      var entries := IndexAll(Parse(lines).value).entries;
      FewerAgree(gs, fs);
      CleanIfAllSettled(entries, today, fs);
      CleanIfAllSettled(entries, today, gs);
      SameMembersSettled(entries, today, gs, fs);
    }
  }

  lemma {:induction false} PassesByScan(lines: seq<string>, audit: Audit, today: Date)
    ensures Judgement(lines, audit, today) == Passed
       <==> && !UnreadableFile(lines) && !UnreadableReport(audit)
            && Parse(lines).Some? && AllUsable(Parse(lines).value) && DistinctKeys(Parse(lines).value)
            && Clean(ScanAll(IndexAll(Parse(lines).value).entries, today, Findings(audit).0))
  {
    hide Judgement, Parse, IndexAll, ScanAll, Findings, Acceptable, AllUsable, DistinctKeys, UnreadableFile,
         UnreadableReport;
    PassesExactly(lines, audit, today);
    if Parse(lines).Some? {
      ScanCleanExactly(IndexAll(Parse(lines).value).entries, today, Findings(audit).0);
    }
  }

  /** If severity is a matter of the key, a report with the same records in another order, or some of them repeated,
      is judged the same. */
  lemma {:induction false} SameRecordsSameVerdict(lines: seq<string>, audit: Audit, other: Audit, today: Date)
    requires Included(audit, other) && Included(other, audit)
    requires SeverityByKey(Findings(audit).0) && SeverityByKey(Findings(other).0)
    ensures Judgement(lines, audit, today) == Passed <==> Judgement(lines, other, today) == Passed
    ensures Judgement(lines, audit, today) == Crashed <==> Judgement(lines, other, today) == Crashed
  {
    hide Judgement, Findings, UnreadableReport, UnreadableFile, Included, SeverityByKey;
    MoreRecordsNeverHelp(lines, audit, other, today);
    MoreRecordsNeverHelp(lines, other, audit, today);
    BreaksOffExactly(lines, audit, today);
    BreaksOffExactly(lines, other, today);
    if !UnreadableReport(audit) {
      FewerFindings(other, audit);
    }
    if !UnreadableReport(other) {
      FewerFindings(audit, other);
    }
  }

  // ======== records put in at a place ========

  lemma {:induction false} VulnerabilitiesConcat(vs: seq<Vulnerability>, ws: seq<Vulnerability>)
    requires !FromVulnerabilities(vs + ws).1
    ensures !FromVulnerabilities(vs).1 && !FromVulnerabilities(ws).1
    ensures FromVulnerabilities(vs + ws).0 == FromVulnerabilities(vs).0 + FromVulnerabilities(ws).0
  {
    hide TitleOf, FromVulnerability;
    if ws == [] {
      assert vs + ws == vs;
    } else {
      var n := |ws| - 1;
      assert (vs + ws)[..|vs| + n] == vs + ws[..n];
      VulnerabilitiesConcat(vs, ws[..n]);
    }
  }

  /** Vulnerabilities added at the end never make the gate pass, whatever their severities. */
  lemma {:induction false} AddedVulnerabilitiesNeverHelp(lines: seq<string>, audit: Audit, more: seq<Vulnerability>,
                                                         today: Date)
    ensures var longer := audit.(vulnerabilities := Some(VulnerabilityList(audit) + more));
            Judgement(lines, longer, today) == Passed ==> Judgement(lines, audit, today) == Passed
  {
    hide Findings, UnreadableReport, UnreadableFile, Parse, IndexAll, ScanAll, Judgement, FromVulnerabilities;
    var longer := audit.(vulnerabilities := Some(VulnerabilityList(audit) + more));
    PassesByScan(lines, audit, today);
    PassesByScan(lines, longer, today);
    if Judgement(lines, longer, today) == Passed {
      FewerFindings(audit, longer);
      ReportFailsExactly(longer);
      FindingsOfLists(audit);
      FindingsOfLists(longer);
      VulnerabilitiesConcat(VulnerabilityList(audit), more);
      var first, second := FromAdvisories(AdvisoryList(audit)), FromVulnerabilities(VulnerabilityList(audit)).0;
      var third := FromVulnerabilities(more).0;
      assert first + (second + third) == (first + second) + third;
      MoreAtTheEndNeverHelps(IndexAll(Parse(lines).value).entries, today, first + second, third);
    }
  }

  function WithAdvisories(audit: Audit, k: nat, more: seq<AuditAdvisory>): Audit
    requires k <= |AdvisoryList(audit)|
  {
    audit.(advisories := Some(AdvisoryList(audit)[..k] + more + AdvisoryList(audit)[k..]))
  }

  /** The findings before and after the place where advisories are put in. */
  lemma {:induction false} FindingsAround(audit: Audit, k: nat, more: seq<AuditAdvisory>)
    requires k <= |AdvisoryList(audit)| <= |Findings(audit).0|
    ensures Findings(WithAdvisories(audit, k, more))
         == (Findings(audit).0[..k] + FromAdvisories(more) + Findings(audit).0[k..], Findings(audit).1)
  {
    hide FromAdvisory, FromVulnerabilities;
    var all := AdvisoryList(audit);
    var second := FromVulnerabilities(VulnerabilityList(audit)).0;
    FindingsOfLists(audit);
    FindingsOfLists(WithAdvisories(audit, k, more));
    assert FromAdvisories(all[..k] + more + all[k..])
        == FromAdvisories(all[..k]) + FromAdvisories(more) + FromAdvisories(all[k..]);
    assert Findings(audit).0[..k] == FromAdvisories(all[..k]);
    assert Findings(audit).0[k..] == FromAdvisories(all[k..]) + second;
    assert (FromAdvisories(all[..k]) + FromAdvisories(more) + FromAdvisories(all[k..])) + second
        == FromAdvisories(all[..k]) + FromAdvisories(more) + (FromAdvisories(all[k..]) + second);
  }

  /** Repeating records that came before keeps the kind of verdict, whatever their severities. */
  lemma {:induction false} RepeatedNeverMatter(entries: map<Key, IndexEntry>, today: Date, a: seq<Finding>,
                                               again: seq<Finding>, b: seq<Finding>)
    requires forall f :: f in again ==> f in a
    ensures Clean(ScanAll(entries, today, a + again + b)) <==> Clean(ScanAll(entries, today, a + b))
  {
    hide ScanAll, Acceptable;
    var fs, gs := a + again + b, a + b;
    ScanCleanExactly(entries, today, fs);
    ScanCleanExactly(entries, today, gs);
    assert fs[..|a|] == a && gs[..|a|] == a;
    forall i | 0 <= i < |a| ensures Acceptable(entries, today, fs, i) <==> Acceptable(entries, today, gs, i) {
      AcceptablePrefix(entries, today, fs, |a|, i);
      AcceptablePrefix(entries, today, gs, |a|, i);
    }
    if forall n :: 0 <= n < |fs| ==> Acceptable(entries, today, fs, n) {
      forall n | 0 <= n < |gs| ensures Acceptable(entries, today, gs, n) {
        if n >= |a| {
          SameStanding(entries, today, a, again, b, n - |a|);
        }
      }
    }
    if forall n :: 0 <= n < |gs| ==> Acceptable(entries, today, gs, n) {
      forall n | 0 <= n < |fs| ensures Acceptable(entries, today, fs, n) {
        if n >= |a| + |again| {
          SameStanding(entries, today, a, again, b, n - |a| - |again|);
        } else if n >= |a| {
          assert again[n - |a|] in a;
          var j :| 0 <= j < |a| && a[j] == again[n - |a|];
          assert Acceptable(entries, today, gs, j);
          RepeatedAcceptable(entries, today, fs, j, n);
        }
      }
    }
  }

  lemma {:induction false} RepeatedAcceptable(entries: map<Key, IndexEntry>, today: Date, fs: seq<Finding>, j: nat,
                                              n: nat)
    requires j < n < |fs| && fs[j] == fs[n] && Acceptable(entries, today, fs, j)
    ensures Acceptable(entries, today, fs, n)
  {
    hide FindingKey, Severity, Grave, Advisory, Covered;
  }

  lemma {:induction false} SameStanding(entries: map<Key, IndexEntry>, today: Date, a: seq<Finding>,
                                        again: seq<Finding>, b: seq<Finding>, i: nat)
    requires i < |b| && forall f :: f in again ==> f in a
    ensures Acceptable(entries, today, a + again + b, |a| + |again| + i)
       <==> Acceptable(entries, today, a + b, |a| + i)
  {
    hide FindingKey, Severity, Grave, Advisory, Covered, Keyed, Relevant;
    var fs, gs := a + again + b, a + b;
    var n, m := |a| + |again| + i, |a| + i;
    assert fs[n] == gs[m] == b[i];
    if j :| 0 <= j < n && Keyed(fs[j]) && FindingKey(fs[j]) == FindingKey(b[i]) {
      var k: nat;
      if j < |a| {
        k := j;
      } else if j < |a| + |again| {
        assert again[j - |a|] in a;
        k :| k < |a| && a[k] == again[j - |a|];
      } else {
        k := j - |again|;
      }
      assert k < m && gs[k] == fs[j];
    }
    if k :| 0 <= k < m && Keyed(gs[k]) && FindingKey(gs[k]) == FindingKey(b[i]) {
      assert fs[if k < |a| then k else k + |again|] == gs[k];
    }
  }

  /** The gate judges a report in which some advisories are repeated later as it does without the repetition. */
  lemma {:induction false} RepeatedAdvisories(lines: seq<string>, audit: Audit, k: nat, again: seq<AuditAdvisory>,
                                              today: Date)
    requires k <= |AdvisoryList(audit)| && forall a :: a in again ==> a in AdvisoryList(audit)[..k]
    ensures var repeated := WithAdvisories(audit, k, again);
            && (Judgement(lines, repeated, today) == Passed <==> Judgement(lines, audit, today) == Passed)
            && (Judgement(lines, repeated, today) == Crashed <==> Judgement(lines, audit, today) == Crashed)
  {
    hide Judgement, Findings, UnreadableReport, UnreadableFile, Parse, IndexAll, ScanAll, FromAdvisory;
    var repeated := WithAdvisories(audit, k, again);
    SameRecords(audit, k, again);
    ManyFindings(audit);
    PassesByScan(lines, audit, today);
    PassesByScan(lines, repeated, today);
    BreaksOffExactly(lines, audit, today);
    BreaksOffExactly(lines, repeated, today);
    UnreadableTogether(audit, repeated);
    FindingsAround(audit, k, again);
    if Parse(lines).Some? {
      var fs, more := Findings(audit).0, FromAdvisories(again);
      assert fs == fs[..k] + fs[k..];
      forall f | f in more ensures f in fs[..k] {
        AgainFound(audit, k, again, f);
      }
      RepeatedNeverMatter(IndexAll(Parse(lines).value).entries, today, fs[..k], more, fs[k..]);
    }
  }

  lemma {:induction false} ManyFindings(audit: Audit)
    ensures |AdvisoryList(audit)| <= |Findings(audit).0|
    ensures forall i :: 0 <= i < |AdvisoryList(audit)| ==> Findings(audit).0[i] == FromAdvisory(AdvisoryList(audit)[i])
  {
    hide FromAdvisory, FromVulnerabilities;
  }

  lemma {:induction false} AgainFound(audit: Audit, k: nat, again: seq<AuditAdvisory>, f: Finding)
    requires k <= |AdvisoryList(audit)| <= |Findings(audit).0| && f in FromAdvisories(again)
    requires forall a :: a in again ==> a in AdvisoryList(audit)[..k]
    ensures f in Findings(audit).0[..k]
  {
    hide FromAdvisory, Findings;
    ManyFindings(audit);
    var i :| 0 <= i < |again| && FromAdvisory(again[i]) == f;
    assert again[i] in AdvisoryList(audit)[..k];
    var j :| 0 <= j < k && AdvisoryList(audit)[j] == again[i];
    assert Findings(audit).0[..k][j] == f;
  }

  lemma {:induction false} SameRecords(audit: Audit, k: nat, again: seq<AuditAdvisory>)
    requires k <= |AdvisoryList(audit)| && forall a :: a in again ==> a in AdvisoryList(audit)[..k]
    ensures Included(audit, WithAdvisories(audit, k, again)) && Included(WithAdvisories(audit, k, again), audit)
  {
    var all := AdvisoryList(audit);
    assert all == all[..k] + all[k..];
  }

  lemma {:induction false} UnreadableTogether(audit: Audit, other: Audit)
    requires Included(audit, other) && Included(other, audit)
    ensures UnreadableReport(audit) <==> UnreadableReport(other)
  {
    hide UnreadableReport, Included;
    if UnreadableReport(audit) {
      UnreadableStays(audit, other);
    }
    if UnreadableReport(other) {
      UnreadableStays(other, audit);
    }
  }

  // ======== exactly when added advisories can help ========

  /** Nothing but the findings keeps the gate from passing. */
  predicate OtherwiseInOrder(lines: seq<string>, audit: Audit) {
    && !UnreadableFile(lines) && !UnreadableReport(audit)
    && Parse(lines).Some? && AllUsable(Parse(lines).value) && DistinctKeys(Parse(lines).value)
  }

  /** The first k findings are acceptable, and what follows can be kept from being reported. */
  predicate MendableFrom(entries: map<Key, IndexEntry>, today: Date, fs: seq<Finding>, k: nat) {
    && k <= |fs| && (forall i :: 0 <= i < k ==> Acceptable(entries, today, fs, i))
    && forall i :: k <= i < |fs| ==> Mendable(entries, today, fs[..k], fs[i])
  }

  /** Advisories can be put in at place k so that the gate passes, exactly if everything else is in order, the
      findings before that place are acceptable, and those after it are mendable. */
  lemma {:induction false} AddedAdvisoriesExactly(lines: seq<string>, audit: Audit, k: nat, today: Date)
    requires k <= |AdvisoryList(audit)|
    ensures (exists more :: Judgement(lines, WithAdvisories(audit, k, more), today) == Passed)
       <==> && OtherwiseInOrder(lines, audit)
            && MendableFrom(IndexAll(Parse(lines).value).entries, today, Findings(audit).0, k)
  {
    hide Judgement, OtherwiseInOrder, Findings, IndexAll, Parse, MendableFrom, WithAdvisories;
    ManyFindings(audit);
    if more :| Judgement(lines, WithAdvisories(audit, k, more), today) == Passed {
      PassedWith(lines, audit, k, more, today);
    }
    if OtherwiseInOrder(lines, audit) {
      InOrderParsed(lines, audit);
      if MendableFrom(IndexAll(Parse(lines).value).entries, today, Findings(audit).0, k) {
        PassesWithStandIns(lines, audit, k, today);
      }
    }
  }

  lemma {:induction false} InOrderParsed(lines: seq<string>, audit: Audit)
    requires OtherwiseInOrder(lines, audit)
    ensures Parse(lines).Some?
  {
    hide UnreadableFile, UnreadableReport, Parse, AllUsable, DistinctKeys;
  }

  lemma {:induction false} PassedWith(lines: seq<string>, audit: Audit, k: nat, more: seq<AuditAdvisory>, today: Date)
    requires k <= |AdvisoryList(audit)| <= |Findings(audit).0|
    requires Judgement(lines, WithAdvisories(audit, k, more), today) == Passed
    ensures OtherwiseInOrder(lines, audit)
    ensures MendableFrom(IndexAll(Parse(lines).value).entries, today, Findings(audit).0, k)
  {
    hide Judgement, Findings, IndexAll, Parse, Acceptable, Mendable, UnreadableFile, UnreadableReport, ScanAll;
    hide AllUsable, DistinctKeys, FromAdvisories;
    var with := WithAdvisories(audit, k, more);
    PassesByScan(lines, with, today);
    IncludedWith(audit, k, more);
    FewerFindings(audit, with);
    FindingsAround(audit, k, more);
    var entries, fs := IndexAll(Parse(lines).value).entries, Findings(audit).0;
    CleanMeansMendable(entries, today, fs[..k], FromAdvisories(more), fs[k..]);
    ScanCleanExactly(entries, today, fs[..k]);
    forall i | 0 <= i < k ensures Acceptable(entries, today, fs, i) {
      AcceptablePrefix(entries, today, fs, k, i);
    }
    forall i | k <= i < |fs| ensures Mendable(entries, today, fs[..k], fs[i]) {
      assert fs[i] == fs[k..][i - k];
    }
  }

  lemma {:induction false} IncludedWith(audit: Audit, k: nat, more: seq<AuditAdvisory>)
    requires k <= |AdvisoryList(audit)|
    ensures Included(audit, WithAdvisories(audit, k, more))
  {
    var all := AdvisoryList(audit);
    assert all == all[..k] + all[k..];
  }

  lemma {:induction false} PassesWithStandIns(lines: seq<string>, audit: Audit, k: nat, today: Date)
    requires k <= |AdvisoryList(audit)| <= |Findings(audit).0| && OtherwiseInOrder(lines, audit)
    requires MendableFrom(IndexAll(Parse(lines).value).entries, today, Findings(audit).0, k)
    ensures exists more :: Judgement(lines, WithAdvisories(audit, k, more), today) == Passed
  {
    hide Judgement, Findings, IndexAll, Parse, Acceptable, Mendable, UnreadableFile, UnreadableReport, ScanAll;
    hide AllUsable, DistinctKeys, FromAdvisories, StandIns;
    var entries, fs := IndexAll(Parse(lines).value).entries, Findings(audit).0;
    var more := StandIns(entries, today, fs[k..]);
    ScanCleanExactly(entries, today, fs[..k]);
    forall i | 0 <= i < k ensures Acceptable(entries, today, fs[..k], i) {
      assert Acceptable(entries, today, fs, i);
      AcceptablePrefix(entries, today, fs, k, i);
    }
    StandInsHelp(entries, today, fs[..k], fs[k..]);
    FindingsAround(audit, k, more);
    StandInsReadable(lines, audit, k, today, entries, more);
    PassesByScan(lines, WithAdvisories(audit, k, more), today);
  }

  lemma {:induction false} StandInsReadable(lines: seq<string>, audit: Audit, k: nat, today: Date,
                                            entries: map<Key, IndexEntry>, more: seq<AuditAdvisory>)
    requires k <= |AdvisoryList(audit)| <= |Findings(audit).0| && !UnreadableReport(audit)
    requires Clean(ScanAll(entries, today, Findings(audit).0[..k] + FromAdvisories(more) + Findings(audit).0[k..]))
    ensures !UnreadableReport(WithAdvisories(audit, k, more))
  {
    hide Findings, UnreadableReport, ScanAll, FromAdvisories, Severity;
    ReportFailsExactly(audit);
    ReportFailsExactly(WithAdvisories(audit, k, more));
    FindingsAround(audit, k, more);
    ScanFailsExactly(entries, today, Findings(WithAdvisories(audit, k, more)).0);
  }

  // ---- on an input ----

  const HIGH_EXCEPTION: seq<AuditRoundTrip.Pair> := [
    ("package", "left-pad"), ("advisory", "ghsa-1"), ("severity", "high"), ("mitigation", "pinned"),
    ("expires_on", "2030-01-01")]

  const EXCEPTION_FILE := AuditRoundTrip.RenderAll([HIGH_EXCEPTION])
  const CRITICAL_REPORT := Audit(None, Some([Vulnerability("left-pad", Text("critical"), One("ghsa-1"))]))
  const HIGH_ADVISORY :=
    AuditAdvisory(Text("left-pad"), Absent, Text("high"), Text("ghsa-1"), Absent, [], Absent, Absent, Absent, Absent)
  const NEW_YEAR := Date(2029, 1, 1)
  const LEFT_PAD: Key := ("left-pad", "ghsa-1")

  function Fields(): Fields {
    AuditRoundTrip.FieldsOf(HIGH_EXCEPTION)
  }

  lemma {:induction false} FieldsSnoc(e: seq<AuditRoundTrip.Pair>, p: AuditRoundTrip.Pair)
    ensures AuditRoundTrip.FieldsOf(e + [p]) == AuditRoundTrip.FieldsOf(e)[p.0 := p.1]
  {
    assert (e + [p])[..|e|] == e;
  }

  lemma {:induction false} FieldsRead()
    ensures Get(Fields(), "package") == "left-pad" && Get(Fields(), "advisory") == "ghsa-1"
    ensures Get(Fields(), "severity") == "high" && Get(Fields(), "mitigation") == "pinned"
    ensures Get(Fields(), "expires_on") == "2030-01-01"
  {
    var e := HIGH_EXCEPTION;
    var e1, e2, e3, e4 := [e[0]], [e[0]] + [e[1]], [e[0]] + [e[1]] + [e[2]], [e[0]] + [e[1]] + [e[2]] + [e[3]];
    FieldsSnoc([], e[0]);
    FieldsSnoc(e1, e[1]);
    FieldsSnoc(e2, e[2]);
    FieldsSnoc(e3, e[3]);
    FieldsSnoc(e4, e[4]);
    assert [] + [e[0]] == e1 && e4 + [e[4]] == e;
    assert "advisory"[0] != "severity"[0] && "mitigation"[0] != "expires_on"[0];
  }

  lemma {:induction false} ExceptionRead()
    ensures Parse(EXCEPTION_FILE) == Some([Fields()])
  {
    hide Parse, ReadLines, AuditRoundTrip.RenderAll, AuditRoundTrip.FieldsOf;
    forall i | 0 <= i < |HIGH_EXCEPTION|
      ensures AuditRoundTrip.Key(HIGH_EXCEPTION[i].0) && AuditRoundTrip.OneLine(HIGH_EXCEPTION[i].1) {
      assert "package"[0] != "version"[0] && "mitigation"[0] != "exceptions"[0] && "expires_on"[1] != "exceptions"[0];
    }
    AuditRoundTrip.ReadAll([HIGH_EXCEPTION]);
    ParsedIsRead();
  }

  lemma {:induction false} ParsedIsRead()
    requires ReadLines(START, EXCEPTION_FILE).Some?
    requires Flush(ReadLines(START, EXCEPTION_FILE).value) == AuditRoundTrip.AllFields([HIGH_EXCEPTION])
    ensures Parse(EXCEPTION_FILE) == Some([Fields()])
  {
    hide ReadLines, Flush, AuditRoundTrip.RenderAll, AuditRoundTrip.FieldsOf;
    assert AuditRoundTrip.AllFields([HIGH_EXCEPTION]) == [Fields()];
  }

  lemma {:induction false} ExceptionUsable()
    ensures Usable(Fields()) && KeyOf(Fields()) == LEFT_PAD
    ensures ParseDate(Get(Fields(), "expires_on")) == Some(Date(2030, 1, 1))
    ensures EntryOf(Fields(), Date(2030, 1, 1)) == IndexEntry("high", Date(2030, 1, 1))
  {
    hide Strip, Lower, Fields, Get;
    FieldsRead();
    PlainText("left-pad");
    PlainText("ghsa-1");
    PlainText("high");
  }

  lemma {:induction false} ExceptionIndexed() returns (entries: map<Key, IndexEntry>)
    ensures Parse(EXCEPTION_FILE) == Some([Fields()]) && AllUsable([Fields()]) && DistinctKeys([Fields()])
    ensures !UnreadableFile(EXCEPTION_FILE) && entries == IndexAll([Fields()]).entries
    ensures LEFT_PAD in entries && entries[LEFT_PAD] == IndexEntry("high", Date(2030, 1, 1))
  {
    hide Parse, IndexAll, BadItem, EXCEPTION_FILE, Fields, Usable, KeyOf, EntryOf, ParseDate, Get;
    ExceptionRead();
    ExceptionUsable();
    ParseFailsExactly(EXCEPTION_FILE);
    entries := IndexAll([Fields()]).entries;
    IndexHolds([Fields()], LEFT_PAD);
    assert Usable([Fields()][0]) && KeyOf([Fields()][0]) == LEFT_PAD;
  }

  function Critical(): Finding {
    Finding(Text("left-pad"), Text("critical"), Text("ghsa-1"), Text("ghsa-1"))
  }

  function High(): Finding {
    FromAdvisory(HIGH_ADVISORY)
  }

  lemma {:induction false} ReportFindings()
    ensures Findings(CRITICAL_REPORT) == ([Critical()], false)
    ensures Findings(WithAdvisories(CRITICAL_REPORT, 0, [HIGH_ADVISORY])) == ([High(), Critical()], false)
  {
    hide FromAdvisory, FromVulnerabilities;
    var v := Vulnerability("left-pad", Text("critical"), One("ghsa-1"));
    OneFound(v);
    FindingsOfLists(CRITICAL_REPORT);
    assert FromAdvisories([]) + [Critical()] == [Critical()];
    FindingsAround(CRITICAL_REPORT, 0, [HIGH_ADVISORY]);
    assert FromAdvisories([HIGH_ADVISORY]) == [High()];
    assert [Critical()][..0] + [High()] + [Critical()][0..] == [High(), Critical()];
  }

  lemma {:induction false} OneFound(v: Vulnerability)
    requires v == Vulnerability("left-pad", Text("critical"), One("ghsa-1"))
    ensures FromVulnerabilities([v]) == ([Critical()], false)
  {
    hide TitleOf, FromVulnerability;
    OneTitle(v, "ghsa-1");
    OneID(v, "ghsa-1", "ghsa-1");
    LastVulnerability([], v, "ghsa-1");
    assert [] + [v] == [v] && [] + [Critical()] == [Critical()];
  }

  lemma {:induction false} OneTitle(v: Vulnerability, s: string)
    requires v.via == One(s) && s != ""
    ensures TitleOf(v) == Some(s)
  {
    hide JoinTitles, Filter;
    FilterAll([Text(s)], IsTruthy());
    TitleOfOne(s);
  }

  lemma {:induction false} OneID(v: Vulnerability, s: string, title: string)
    requires v.via == One(s) && s != ""
    ensures FromVulnerability(v, title) == [Finding(Text(v.name), v.severity, Text(s), Text(title))]
  {
    hide Filter;
    FilterAll([Text(s)], IsTruthy());
  }

  lemma {:induction false} LastVulnerability(vs: seq<Vulnerability>, v: Vulnerability, title: string)
    requires TitleOf(v) == Some(title) && !FromVulnerabilities(vs).1
    ensures FromVulnerabilities(vs + [v]) == (FromVulnerabilities(vs).0 + FromVulnerability(v, title), false)
  {
    hide TitleOf, FromVulnerability;
    assert (vs + [v])[..|vs|] == vs;
  }

  lemma {:induction false} TitleOfOne(s: string)
    ensures JoinTitles([Text(s)]) == Some(s)
  {
    assert [Text(s)][..0] == [];
  }

  lemma {:induction false} FindingFacts()
    ensures Severity(Critical().severity) == Some("critical") && Severity(High().severity) == Some("high")
    ensures Keyed(Critical()) && Keyed(High()) && FindingKey(Critical()) == FindingKey(High()) == LEFT_PAD
  {
    hide Strip, Lower, FirstTruthy;
    PlainText("left-pad");
    PlainText("ghsa-1");
    GraveText("high");
    GraveText("critical");
    HighFields();
  }

  lemma {:induction false} HighFields()
    ensures High().name == Text("left-pad") && High().severity == Text("high") && High().advisory == Text("ghsa-1")
  {
  }

  /** A critical vulnerability that is excepted as high fails the gate, and an advisory of severity high with the same
      key, put in front, makes it pass. */
  lemma {:induction false} AddedInFrontCanHelp()
    ensures Judgement(EXCEPTION_FILE, CRITICAL_REPORT, NEW_YEAR).Failed?
    ensures Judgement(EXCEPTION_FILE, WithAdvisories(CRITICAL_REPORT, 0, [HIGH_ADVISORY]), NEW_YEAR) == Passed
  {
    hide Judgement, Parse, IndexAll, ScanAll, Findings, Acceptable, AllUsable, DistinctKeys, UnreadableFile,
         UnreadableReport, EXCEPTION_FILE, CRITICAL_REPORT, HIGH_ADVISORY, WithAdvisories, Fields, Critical, High;
    hide Severity;
    var entries := ExceptionIndexed();
    var with := WithAdvisories(CRITICAL_REPORT, 0, [HIGH_ADVISORY]);
    ReportFindings();
    ReportFailsExactly(CRITICAL_REPORT);
    ReportFailsExactly(with);
    FindingFacts();
    BreaksOffExactly(EXCEPTION_FILE, CRITICAL_REPORT, NEW_YEAR);
    PassesExactly(EXCEPTION_FILE, CRITICAL_REPORT, NEW_YEAR);
    PassesExactly(EXCEPTION_FILE, with, NEW_YEAR);
    Judged(entries);
    assert !Acceptable(entries, NEW_YEAR, [Critical()], 0);
  }

  lemma {:induction false} Judged(entries: map<Key, IndexEntry>)
    requires LEFT_PAD in entries && entries[LEFT_PAD] == IndexEntry("high", Date(2030, 1, 1))
    ensures !Acceptable(entries, NEW_YEAR, [Critical()], 0)
    ensures forall i :: 0 <= i < 2 ==> Acceptable(entries, NEW_YEAR, [High(), Critical()], i)
  {
    hide Severity, FindingKey, Advisory, Critical, High;
    FindingFacts();
    assert "high"[0] != "critical"[0];
    var both := [High(), Critical()];
    assert Acceptable(entries, NEW_YEAR, both, 0);
    assert !FirstOfKey(both, 1) by {
      assert Keyed(both[0]) && FindingKey(both[0]) == FindingKey(both[1]);
    }
  }
}
