/** What the gate makes of texts, dates, report entries and exceptions, said value by value. */
module AuditMeaning {
  import opened Basics
  import opened AuditText
  import opened AuditGate
  import opened AuditVerdict

  // ======== texts ========

  const SPACES := {
    '\t', '\n', '\U{0b}', '\U{0c}', '\r', '\U{1c}', '\U{1d}', '\U{1e}', '\U{1f}', ' ', '\U{85}', '\U{a0}', '\U{1680}',
    '\U{2000}', '\U{2001}', '\U{2002}', '\U{2003}', '\U{2004}', '\U{2005}', '\U{2006}', '\U{2007}', '\U{2008}',
    '\U{2009}', '\U{200a}', '\U{2028}', '\U{2029}', '\U{202f}', '\U{205f}', '\U{3000}'}

  lemma {:induction false} SpacesExactly(c: char)
    ensures IsSpace(c) <==> c in SPACES
  {
  }

  const UPPER := "ABCDEFGHIJKLMNOPQRSTUVWXYZ"
  const LOWER := "abcdefghijklmnopqrstuvwxyz"

  /** Lower case, letter by letter of the ASCII alphabet. */
  lemma {:induction false} LowerExactly(s: string)
    ensures |Lower(s)| == |s|
    ensures forall i, k :: 0 <= i < |s| && 0 <= k < 26 && s[i] == UPPER[k] ==> Lower(s)[i] == LOWER[k]
    ensures forall i :: 0 <= i < |s| && s[i] !in UPPER ==> Lower(s)[i] == s[i]
  {
    forall i, k | 0 <= i < |s| && 0 <= k < 26 && s[i] == UPPER[k] ensures Lower(s)[i] == LOWER[k] {
      Alphabet(k);
    }
    forall i | 0 <= i < |s| && s[i] !in UPPER ensures Lower(s)[i] == s[i] {
      UpperHasAll(s[i]);
    }
  }

  lemma {:induction false} UpperHasAll(c: char)
    ensures 'A' <= c <= 'Z' ==> c in UPPER
  {
    if 'A' <= c <= 'Z' {
      var k := (c - 'A') as nat;
      Alphabet(k);
      assert UPPER[k] == c;
    }
  }

  lemma {:induction false} Alphabet(k: nat)
    requires k < 26
    ensures |UPPER| == |LOWER| == 26 && UPPER[k] as int == 'A' as int + k && LOWER[k] as int == 'a' as int + k
  {
  }

  /** The number a text of digits stands for. */
  function Numeral(s: string): int {
    if s == [] then 0 else 10 * Numeral(s[..|s| - 1]) + (s[|s| - 1] as int - '0' as int)
  }

  predicate Digits(s: string) {
    forall i :: 0 <= i < |s| ==> '0' <= s[i] <= '9'
  }

  /** A number is written in digits, without a leading zero. */
  lemma {:induction false} DecimalExactly(n: nat)
    ensures Digits(Decimal(n)) && Numeral(Decimal(n)) == n && (|Decimal(n)| > 1 ==> Decimal(n)[0] != '0')
  {
    if n < 10 {
      assert Decimal(n)[..0] == [];
    } else {
      DecimalExactly(n / 10);
      var s := Decimal(n / 10);
      assert Decimal(n)[..|s|] == s;
      assert |s| == 1 ==> n / 10 < 10 by {
        if n / 10 >= 10 {
          assert |Decimal(n / 10 / 10)| >= 1;
        }
      }
      assert Decimal(n)[0] == s[0];
    }
  }

  /** An empty value of a report: absent, the empty text, or the number zero. */
  predicate Empty(v: Scalar) {
    v == Absent || v == Text("") || v == Number(0)
  }

  /** Severities are compared without outer spaces and in lower case, advisory ids too; package names keep their
      case. Numbers are written out, but a severity cannot be a number. */
  lemma {:induction false} NormalisedExactly(v: Scalar)
    ensures v.Text? ==>
              && Severity(v) == Some(Lower(Strip(v.s))) && Advisory(v) == Lower(Strip(v.s)) && Package(v) == Strip(v.s)
    ensures v.Absent? ==> Severity(v) == Some("") && Advisory(v) == "" && Package(v) == ""
    ensures v.Number? ==> (Severity(v) == if v.n == 0 then Some("") else None)
    ensures v.Number? && v.n >= 0 ==>
              Advisory(v) == Lower(Strip(Decimal(v.n))) && Package(v) == Strip(Decimal(v.n))
    ensures v.Number? && v.n < 0 ==>
              Advisory(v) == Lower(Strip("-" + Decimal(-v.n))) && Package(v) == Strip("-" + Decimal(-v.n))
    ensures v.Truthy() <==> !Empty(v)
  {
  }

  // ======== dates ========

  const MONTH_LENGTHS := [31, 28, 31, 30, 31, 30, 31, 31, 30, 31, 30, 31]

  predicate Leap(y: int) {
    (y % 4 == 0 && y % 100 != 0) || y % 400 == 0
  }

  /** The days there are. */
  lemma {:induction false} RealDateExactly(d: Date)
    ensures RealDate(d)
       <==> && 1 <= d.year <= 9999 && 1 <= d.month <= 12
            && 1 <= d.day <= MONTH_LENGTHS[d.month - 1] + (if d.month == 2 && Leap(d.year) then 1 else 0)
  {
  }

  /** Days in a row: an earlier one has a smaller number. */
  function Ordinal(d: Date): int {
    (d.year * 12 + d.month) * 32 + d.day
  }

  lemma {:induction false} EarlierExactly(a: Date, b: Date)
    requires RealDate(a) && RealDate(b)
    ensures Earlier(a, b) <==> Ordinal(a) < Ordinal(b)
  {
    assert DaysIn(a.year, a.month) <= 31 && DaysIn(b.year, b.month) <= 31;
  }

  /** An exception still counts on the day it expires, and not on any later one. */
  lemma {:induction false} LastDay(entries: map<Key, IndexEntry>, today: Date, key: Key, severity: string)
    requires key in entries && entries[key].severity == severity && RealDate(today) && RealDate(entries[key].expires)
    ensures Covered(entries, today, key, severity) <==> Ordinal(today) <= Ordinal(entries[key].expires)
  {
    EarlierExactly(entries[key].expires, today);
  }

  /** A date is read from exactly the texts YYYY-MM-DD of a real date. */
  lemma {:induction false} DateExactly(s: string, d: Date)
    ensures ParseDate(s) == Some(d)
       <==> && |s| == 10 && s[4] == '-' && s[7] == '-' && Digits(s[0..4]) && Digits(s[5..7]) && Digits(s[8..10])
            && d == Date(Numeral(s[0..4]), Numeral(s[5..7]), Numeral(s[8..10])) && RealDate(d)
  {
    if |s| == 10 {
      DigitsOf(s, 0, 4);
      DigitsOf(s, 5, 7);
      DigitsOf(s, 8, 10);
      FourDigits(s[0..4]);
      TwoNumeral(s[5..7]);
      TwoNumeral(s[8..10]);
    }
  }

  lemma {:induction false} DigitsOf(s: string, lo: nat, hi: nat)
    requires lo <= hi <= |s|
    ensures Digits(s[lo..hi]) <==> forall i :: lo <= i < hi ==> IsDigit(s[i])
  {
    if Digits(s[lo..hi]) {
      forall i | lo <= i < hi ensures IsDigit(s[i]) {
        assert s[lo..hi][i - lo] == s[i];
      }
    }
  }

  lemma {:induction false} TwoNumeral(s: string)
    requires |s| == 2
    ensures Numeral(s) == (s[0] as int - '0' as int) * 10 + (s[1] as int - '0' as int)
  {
    assert s[..1] == [s[0]] && [s[0]][..0] == [];
    assert Numeral([s[0]]) == s[0] as int - '0' as int;
  }

  lemma {:induction false} FourDigits(s: string)
    requires |s| == 4
    ensures Numeral(s) == ((s[0] as int - '0' as int) * 10 + (s[1] as int - '0' as int)) * 100
                          + (s[2] as int - '0' as int) * 10 + (s[3] as int - '0' as int)
  {
    TwoNumeral(s[..2]);
    assert s[..3][..2] == s[..2] && s[..3][2] == s[2];
    assert Numeral(s[..3]) == 10 * Numeral(s[..2]) + (s[2] as int - '0' as int);
  }

  // ======== what is taken out of a report ========

  function Either(v: Scalar, w: Scalar): Scalar {
    if Empty(v) then w else v
  }

  lemma {:induction false} FirstIsEither(v: Scalar, rest: seq<Scalar>)
    requires rest != []
    ensures FirstTruthy([v] + rest) == Either(v, FirstTruthy(rest))
  {
    assert ([v] + rest)[1..] == rest;
  }

  lemma {:induction false} LastIsLeft(v: Scalar)
    ensures FirstTruthy([v]) == v
  {
  }

  lemma {:induction false} FourChoices(a: Scalar, b: Scalar, c: Scalar, d: Scalar)
    ensures FirstTruthy([a, b, c, d]) == Either(a, Either(b, Either(c, d)))
  {
    hide FirstTruthy, Either;
    LastIsLeft(d);
    FirstIsEither(c, [d]);
    FirstIsEither(b, [c, d]);
    FirstIsEither(a, [b, c, d]);
    assert [c] + [d] == [c, d] && [b] + [c, d] == [b, c, d] && [a] + [b, c, d] == [a, b, c, d];
  }

  lemma {:induction false} FiveChoices(a: Scalar, b: Scalar, c: Scalar, d: Scalar, e: Scalar)
    ensures FirstTruthy([a, b, c, d, e]) == Either(a, Either(b, Either(c, Either(d, e))))
  {
    hide FirstTruthy, Either;
    FourChoices(b, c, d, e);
    FirstIsEither(a, [b, c, d, e]);
    assert [a] + [b, c, d, e] == [a, b, c, d, e];
  }

  /** The identifier of an advisory: its GHSA id, or else its url, its first CVE, its number, its title, its advisory
      text, or its overview. */
  lemma {:induction false} AdvisoryIDExactly(a: AuditAdvisory)
    ensures PickAdvisoryID(a)
         == Either(a.githubAdvisoryID,
                   Either(a.url,
                          Either(if a.cves == [] then Absent else a.cves[0],
                                 Either(IDText(a.id), Either(a.title, Either(a.advisory, a.overview))))))
  {
    hide FirstTruthy, Either;
    var cve := if a.cves == [] then Absent else a.cves[0];
    var five := [cve, IDText(a.id), a.title, a.advisory, a.overview];
    FiveChoices(cve, IDText(a.id), a.title, a.advisory, a.overview);
    FirstIsEither(a.url, five);
    FirstIsEither(a.githubAdvisoryID, [a.url] + five);
    assert [a.githubAdvisoryID] + ([a.url] + five)
        == [a.githubAdvisoryID, a.url, cve, IDText(a.id), a.title, a.advisory, a.overview];
  }

  /** The number of an advisory as a text. */
  function IDText(id: Scalar): Scalar {
    match id
    case Absent => Absent
    case Text(s) => Text(s)
    case Number(n) => Text(if n < 0 then "-" + Decimal(-n) else Decimal(n))
  }

  /** The finding of an advisory. */
  lemma {:induction false} AdvisoryFindingExactly(a: AuditAdvisory)
    ensures var f := FromAdvisory(a);
            && f.name == Either(a.moduleName, a.name) && f.severity == a.severity && f.advisory == PickAdvisoryID(a)
            && f.title == Either(a.title, Either(a.advisory, Either(a.overview, a.url)))
  {
    hide FirstTruthy;
    FourChoices(a.title, a.advisory, a.overview, a.url);
  }

  /** The id and the title an entry of a vulnerability is listed with. */
  lemma {:induction false} EntryExactly(items: seq<ViaItem>, item: ViaItem)
    requires item.Entry?
    ensures ItemList(items + [item], true)
         == ItemList(items, true)
            + [Either(item.githubAdvisoryID, Either(item.url, Either(item.source, Either(item.title, item.name))))]
    ensures ItemList(items + [item], false)
         == ItemList(items, false) + [Either(item.title, Either(item.url, Either(item.advisory, item.source)))]
  {
    hide FirstTruthy, Either;
    assert (items + [item])[..|items|] == items;
    FiveChoices(item.githubAdvisoryID, item.url, item.source, item.title, item.name);
    FourChoices(item.title, item.url, item.advisory, item.source);
  }

  /** Named advisories are listed under their name twice, other items not at all. */
  lemma {:induction false} OtherItemsExactly(items: seq<ViaItem>, text: string, ids: bool)
    ensures ItemList([], ids) == []
    ensures ItemList(items + [ViaItem.Named(text)], ids) == ItemList(items, ids) + [Text(text)]
    ensures ItemList(items + [Unknown], ids) == ItemList(items, ids)
  {
    assert (items + [ViaItem.Named(text)])[..|items|] == items && (items + [Unknown])[..|items|] == items;
  }

  /** The ids of a vulnerability: of its items, or the one text it names instead. */
  lemma {:induction false} ViaExactly(items: seq<ViaItem>, text: string)
    ensures ItemIDs(Items(items)) == ItemList(items, true) && ItemTitles(Items(items)) == ItemList(items, false)
    ensures ItemIDs(One(text)) == ItemTitles(One(text)) == [Text(text)]
    ensures ItemIDs(Neither) == ItemTitles(Neither) == []
  {
  }

  /** Titles are joined with a semicolon and a space. */
  lemma {:induction false} TitlesExactly(titles: seq<Scalar>, title: string)
    ensures JoinTitles([]) == Some("")
    ensures JoinTitles([Text(title)]) == Some(title)
    ensures titles != [] && JoinTitles(titles).Some? ==>
              JoinTitles(titles + [Text(title)]) == Some(JoinTitles(titles).value + "; " + title)
  {
    assert (titles + [Text(title)])[..|titles|] == titles;
    assert [Text(title)][..0] == [];
  }

  // ======== exceptions ========

  /** The value of a field; a missing one is as good as an empty one. */
  function Value(e: Fields, field: string): string {
    if field in e then e[field] else ""
  }

  /** An exception needs these five fields, a real date, and a package and an advisory that are not blank. */
  lemma {:induction false} UsableExactly(e: Fields)
    ensures Complete(e)
       <==> && Value(e, "package") != "" && Value(e, "advisory") != "" && Value(e, "severity") != ""
            && Value(e, "mitigation") != "" && Value(e, "expires_on") != ""
    ensures Usable(e)
       <==> && Complete(e) && ParseDate(Value(e, "expires_on")).Some? && Strip(Value(e, "package")) != ""
            && Lower(Strip(Value(e, "advisory"))) != ""
  {
    hide ParseDate, Strip, Lower;
    assert Get(e, REQUIRED_FIELDS[0]) == Get(e, "package") && Get(e, REQUIRED_FIELDS[1]) == Get(e, "advisory");
    assert Get(e, REQUIRED_FIELDS[2]) == Get(e, "severity") && Get(e, REQUIRED_FIELDS[3]) == Get(e, "mitigation");
    assert Get(e, REQUIRED_FIELDS[4]) == Get(e, "expires_on");
  }

  /** What one exception does to the index: it is listed under its package and advisory with its severity and its date,
      or reported for the first thing that is wrong with it. */
  lemma {:induction false} IndexedExactly(ix: Index, e: Fields)
    ensures !Complete(e) ==>
              IndexOne(ix, e)
              == ix.(errors := ix.errors + [MissingFields(if "package" in e then e["package"] else "<unknown>")])
    ensures Complete(e) && ParseDate(Value(e, "expires_on")).None? ==>
              IndexOne(ix, e) == ix.(errors := ix.errors + [BadDate(Value(e, "package"))])
    ensures Complete(e) && ParseDate(Value(e, "expires_on")).Some? && !Usable(e) ==>
              IndexOne(ix, e) == ix.(errors := ix.errors + [EmptyKey])
    ensures Usable(e) ==>
              var key := (Strip(Value(e, "package")), Lower(Strip(Value(e, "advisory"))));
              IndexOne(ix, e)
              == if key in ix.entries then ix.(errors := ix.errors + [Duplicate(key.0, Value(e, "advisory"))])
                 else ix.(entries := ix.entries[key := IndexEntry(Lower(Strip(Value(e, "severity"))),
                                                                  ParseDate(Value(e, "expires_on")).value)])
  {
    hide ParseDate, Strip, Lower, Complete;
    if Complete(e) {
      FieldsThere(e);
    }
  }

  /** Exceptions are indexed in the order of the file. */
  lemma {:induction false} IndexedInOrder(es: seq<Fields>, e: Fields)
    ensures IndexAll([]) == Index(map[], [])
    ensures IndexAll(es + [e]) == IndexOne(IndexAll(es), e)
  {
    assert (es + [e])[..|es|] == es;
  }

  lemma {:induction false} FieldsThere(e: Fields)
    requires Complete(e)
    ensures "package" in e && "advisory" in e && "severity" in e && "expires_on" in e
  {
    hide ParseDate, Strip, Lower;
    UsableExactly(e);
  }

  // ======== findings ========

  /** The gate looks at high and critical findings that have a name, whatever the case and the spaces around. */
  lemma {:induction false} RelevantExactly(f: Finding)
    ensures Relevant(f)
       <==> f.severity.Text? && Lower(Strip(f.severity.s)) in {"high", "critical"} && !Empty(f.name)
  {
    hide Strip, Lower;
    NormalisedExactly(f.severity);
    NormalisedExactly(f.name);
    assert "" != "high" && "" != "critical";
  }

  /** A finding and an exception are about the same thing if package and advisory agree, the advisory in any case. */
  lemma {:induction false} SameKeyExactly(f: Finding, e: Fields, name: string, id: string)
    requires f.name == Text(name) && f.advisory == Text(id) && "package" in e && "advisory" in e
    ensures FindingKey(f) == KeyOf(e)
       <==> Strip(name) == Strip(e["package"]) && Lower(Strip(id)) == Lower(Strip(e["advisory"]))
  {
    hide Strip, Lower;
  }

  // ---- what is reported ----

  lemma {:induction false} ScanStep(entries: map<Key, IndexEntry>, today: Date, fs: seq<Finding>)
    requires fs != [] && ScanAll(entries, today, fs).Some?
    ensures ScanAll(entries, today, fs[..|fs| - 1]).Some?
    ensures var n := |fs| - 1;
            ScanOne(entries, today, ScanAll(entries, today, fs[..n]).value, fs[n]) == ScanAll(entries, today, fs)
  {
    hide ScanOne;
  }

  /** First of its key among the findings, with or without an exception. */
  predicate Judged(fs: seq<Finding>, i: nat)
    requires i < |fs|
  {
    Keyed(fs[i]) && FirstOfKey(fs, i)
  }

  lemma {:induction false} JudgedPrefix(fs: seq<Finding>, n: nat, i: nat)
    requires i < n <= |fs|
    ensures Judged(fs[..n], i) <==> Judged(fs, i)
  {
    hide Keyed, FindingKey;
    assert forall j :: 0 <= j < n ==> fs[..n][j] == fs[j];
  }

  /** What the last finding adds to the reports. */
  lemma {:induction false} LastReported(entries: map<Key, IndexEntry>, today: Date, fs: seq<Finding>)
    requires fs != [] && ScanAll(entries, today, fs).Some? && ScanAll(entries, today, fs[..|fs| - 1]).Some?
    ensures var n := |fs| - 1;
            var f, st := fs[n], ScanAll(entries, today, fs).value;
            var before := ScanAll(entries, today, fs[..n]).value;
            && Severity(f.severity).Some?
            && var sev, key := Severity(f.severity).value, FindingKey(f);
            && st.missing == before.missing
                             + (if Judged(fs, n) && key !in entries
                                then [Missing(f.name, sev, f.advisory, f.title)] else [])
            && st.expired == before.expired
                             + (if Judged(fs, n) && key in entries && Earlier(entries[key].expires, today)
                                then [Expired(f.name, sev, f.advisory, entries[key].expires)] else [])
            && st.errors == before.errors
                            + (if Relevant(f) && Advisory(f.advisory) == "" then [NoAdvisory(f.name, sev)]
                               else if Judged(fs, n) && key in entries && entries[key].severity !in {"", sev}
                               then [Mismatch(f.name, f.advisory, sev, entries[key].severity)] else [])
  {
    hide Severity, Grave, Advisory, FindingKey, Earlier, ScanAll;
    var n := |fs| - 1;
    ScanStep(entries, today, fs);
    SeenExactly(entries, today, fs[..n], FindingKey(fs[n]));
    assert forall j :: 0 <= j < n ==> fs[..n][j] == fs[j];
    assert FindingKey(fs[n]) in ScanAll(entries, today, fs[..n]).value.seen <==> !FirstOfKey(fs, n);
  }

  /** A finding without an exception is reported with its own name, severity, id and title, once for every key. */
  lemma {:induction false} MissingExactly(entries: map<Key, IndexEntry>, today: Date, fs: seq<Finding>, r: Report)
    requires ScanAll(entries, today, fs).Some?
    ensures r in ScanAll(entries, today, fs).value.missing
       <==> exists i :: 0 <= i < |fs| && Judged(fs, i) && FindingKey(fs[i]) !in entries
                        && r == Missing(fs[i].name, Severity(fs[i].severity).value, fs[i].advisory, fs[i].title)
  {
    hide Severity, Advisory, FindingKey, ScanAll, Judged;
    if fs == [] {
      NothingReported(entries, today);
    } else {
      var n := |fs| - 1;
      ScanStep(entries, today, fs);
      MissingExactly(entries, today, fs[..n], r);
      LastReported(entries, today, fs);
      forall i | 0 <= i < n ensures Judged(fs[..n], i) <==> Judged(fs, i) {
        JudgedPrefix(fs, n, i);
      }
      assert forall i :: 0 <= i < n ==> fs[..n][i] == fs[i];
    }
  }

  lemma {:induction false} NothingReported(entries: map<Key, IndexEntry>, today: Date)
    ensures ScanAll(entries, today, []) == Some(Scan({}, [], [], []))
  {
  }

  lemma {:induction false} ExpiredExactly(entries: map<Key, IndexEntry>, today: Date, fs: seq<Finding>, r: Report)
    requires ScanAll(entries, today, fs).Some?
    ensures r in ScanAll(entries, today, fs).value.expired
       <==> exists i :: 0 <= i < |fs| && Judged(fs, i) && FindingKey(fs[i]) in entries
                        && Earlier(entries[FindingKey(fs[i])].expires, today)
                        && r == Expired(fs[i].name, Severity(fs[i].severity).value, fs[i].advisory,
                                        entries[FindingKey(fs[i])].expires)
  {
    hide Severity, Advisory, FindingKey, ScanAll, Judged, Earlier;
    if fs == [] {
      NothingReported(entries, today);
    } else {
      var n := |fs| - 1;
      ScanStep(entries, today, fs);
      ExpiredExactly(entries, today, fs[..n], r);
      LastReported(entries, today, fs);
      forall i | 0 <= i < n ensures Judged(fs[..n], i) <==> Judged(fs, i) {
        JudgedPrefix(fs, n, i);
      }
      assert forall i :: 0 <= i < n ==> fs[..n][i] == fs[i];
    }
  }

  /** The reports of a run: those of the exceptions, those of the findings, then the missing exceptions and the expired
      ones, each list under a header if it is not empty. */
  lemma {:induction false} ReportsExactly(ix: Index, st: Scan)
    ensures st.missing == [] && st.expired == [] ==> Reports(ix, st) == ix.errors + st.errors
    ensures st.missing != [] && st.expired == [] ==>
              Reports(ix, st) == ix.errors + st.errors + [MissingHeader] + st.missing
    ensures st.missing == [] && st.expired != [] ==>
              Reports(ix, st) == ix.errors + st.errors + [ExpiredHeader] + st.expired
    ensures st.missing != [] && st.expired != [] ==>
              Reports(ix, st)
              == ix.errors + st.errors + [MissingHeader] + st.missing + [ExpiredHeader] + st.expired
  {
  }

  /** A run that neither passes nor breaks off fails with all its reports, and there is at least one. */
  lemma {:induction false} FailsExactly(lines: seq<string>, audit: Audit, today: Date)
    ensures Judgement(lines, audit, today) !in {Passed, Crashed} ==>
              && Parse(lines).Some?
              && var ix := IndexAll(Parse(lines).value);
              && ScanAll(ix.entries, today, Findings(audit).0).Some?
              && var reports := Reports(ix, ScanAll(ix.entries, today, Findings(audit).0).value);
              && reports != [] && Judgement(lines, audit, today) == Failed(reports)
  {
    hide Parse, IndexAll, ScanAll, Findings, Reports;
  }

  // ======== one advisory, from the report and the file to the verdict ========

  /** The exception is about this package and this id, of this severity or of none, and not expired. */
  predicate Excepts(e: Fields, name: string, id: string, severity: string, today: Date) {
    && Strip(Value(e, "package")) == Strip(name) && Lower(Strip(Value(e, "advisory"))) == Lower(Strip(id))
    && (Lower(Strip(Value(e, "severity"))) == "" || Lower(Strip(Value(e, "severity"))) == Lower(Strip(severity)))
    && ParseDate(Value(e, "expires_on")).Some? && !Earlier(ParseDate(Value(e, "expires_on")).value, today)
  }

  /** A high or critical advisory with a GHSA id, or without one but with a url, passes exactly if some exception is for
      that id; whatever its other identifiers are. */
  lemma {:induction false} OneAdvisoryExactly(lines: seq<string>, es: seq<Fields>, a: AuditAdvisory, today: Date,
                                              name: string, id: string, severity: string)
    requires Parse(lines) == Some(es) && AllUsable(es) && DistinctKeys(es)
    requires a.severity == Text(severity) && Lower(Strip(severity)) in {"high", "critical"}
    requires Either(a.moduleName, a.name) == Text(name) && name != "" && Lower(Strip(id)) != ""
    requires a.githubAdvisoryID == Text(id) || (Empty(a.githubAdvisoryID) && a.url == Text(id))
    ensures Judgement(lines, Audit(Some([a]), None), today) == Passed
       <==> exists i :: 0 <= i < |es| && Excepts(es[i], name, id, severity, today)
  {
    hide Parse, IndexAll, ScanAll, AllUsable, DistinctKeys, Judgement, Findings, UnreadableFile, UnreadableReport;
    hide Acceptable, Excepts, FromAdvisory, Lower, Strip;
    var report, f := Audit(Some([a]), None), FromAdvisory(a);
    var entries := IndexAll(es).entries;
    NothingEmpty();
    AdvisoryFindingExactly(a);
    AdvisoryIDExactly(a);
    OnlyFinding(a);
    NormalisedExactly(a.severity);
    ReportFailsExactly(report);
    PassesExactly(lines, report, today);
    FileReadable(lines);
    assert Findings(report).0 == [f];
    OneAcceptable(entries, today, f, name, id, severity);
    OneCovered(es, today, name, id, severity);
  }

  lemma {:induction false} NothingEmpty()
    ensures Lower(Strip("")) == ""
  {
  }

  lemma {:induction false} OnlyFinding(a: AuditAdvisory)
    ensures Findings(Audit(Some([a]), None)) == ([FromAdvisory(a)], false)
  {
    hide FromAdvisory;
    assert Map((b: AuditAdvisory) => FromAdvisory(b), [a]) + [] == [FromAdvisory(a)];
  }

  lemma {:induction false} FileReadable(lines: seq<string>)
    requires Parse(lines).Some?
    ensures !UnreadableFile(lines)
  {
    hide Parse, BadItem;
    ParseFailsExactly(lines);
  }

  lemma {:induction false} OneAcceptable(entries: map<Key, IndexEntry>, today: Date, f: Finding, name: string,
                                         id: string, severity: string)
    requires f.name == Text(name) && name != "" && f.advisory == Text(id) && Lower(Strip(id)) != ""
    requires f.severity == Text(severity) && Lower(Strip(severity)) in {"high", "critical"}
    ensures Acceptable(entries, today, [f], 0)
       <==> Covered(entries, today, (Strip(name), Lower(Strip(id))), Lower(Strip(severity)))
  {
    hide Lower, Strip, Covered;
  }

  lemma {:induction false} OneCovered(es: seq<Fields>, today: Date, name: string, id: string, severity: string)
    requires AllUsable(es) && DistinctKeys(es)
    ensures Covered(IndexAll(es).entries, today, (Strip(name), Lower(Strip(id))), Lower(Strip(severity)))
       <==> exists i :: 0 <= i < |es| && Excepts(es[i], name, id, severity, today)
  {
    hide IndexAll, Lower, Strip, ParseDate, Earlier, Complete;
    var key := (Strip(name), Lower(Strip(id)));
    IndexHolds(es, key);
    forall i | 0 <= i < |es|
      ensures KeyOf(es[i]) == (Strip(Value(es[i], "package")), Lower(Strip(Value(es[i], "advisory"))))
      ensures EntryOf(es[i], ParseDate(Get(es[i], "expires_on")).value).severity
           == Lower(Strip(Value(es[i], "severity"))) {
      assert Usable(es[i]);
    }
    if i :| 0 <= i < |es| && Excepts(es[i], name, id, severity, today) {
      assert KeyOf(es[i]) == key && Usable(es[i]);
    }
  }
}
