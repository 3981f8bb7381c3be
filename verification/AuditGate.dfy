/** The gate on audit findings: known exceptions are indexed, every high or critical finding must have one, and
    anything unusual fails the run. */
module AuditGate {
  import opened Basics
  import opened AuditText

  // ======== values out of the audit report ========

  /** A JSON scalar, as far as the gate meets them. */
  datatype Scalar = Absent | Text(s: string) | Number(n: int)
  {
    predicate Truthy() {
      match this
      case Absent => false
      case Text(s) => s != ""
      case Number(n) => n != 0
    }

    function Or(other: Scalar): Scalar {
      if Truthy() then this else other
    }

    function Str(): string {
      match this
      case Absent => "None"
      case Text(s) => s
      case Number(n) => if n < 0 then "-" + Decimal(-n) else Decimal(n)
    }
  }

  function Decimal(n: nat): (s: string)
    ensures s != ""
  {
    if n < 10 then [Digit(n)] else Decimal(n / 10) + [Digit(n % 10)]
  }

  function Digit(n: nat): char
    requires n < 10
  {
    '0' + n as char
  }

  /** The first candidate that is not empty, or else the last one. */
  function FirstTruthy(candidates: seq<Scalar>): (r: Scalar)
    requires candidates != []
    ensures r.Truthy() <==> exists i :: 0 <= i < |candidates| && candidates[i].Truthy()
    ensures r.Truthy() ==>
              exists i :: 0 <= i < |candidates| && r == candidates[i]
                          && forall j :: 0 <= j < i ==> !candidates[j].Truthy()
    ensures !r.Truthy() ==> r == candidates[|candidates| - 1]
  {
    if |candidates| == 1 then candidates[0]
    else
      var rest := FirstTruthy(candidates[1..]);
      assert forall i :: 1 <= i < |candidates| ==> candidates[i] == candidates[1..][i - 1];
      if candidates[0].Truthy() then candidates[0] else rest
  }

  // ---- normalisation ----

  /** None is the error of stripping a number. */
  function Severity(v: Scalar): Option<string> {
    match v
    case Absent => Some("")
    case Text(s) => Some(Lower(Strip(s)))
    case Number(n) => if n == 0 then Some("") else None
  }

  function Package(v: Scalar): string {
    if v.Absent? then "" else Strip(v.Str())
  }

  function Advisory(v: Scalar): string {
    if v.Absent? then "" else Lower(Strip(v.Str()))
  }

  // ---- dates ----

  datatype Date = Date(year: int, month: int, day: int)

  predicate LeapYear(y: int) {
    y % 4 == 0 && (y % 100 != 0 || y % 400 == 0)
  }

  function DaysIn(y: int, m: int): int {
    if m == 2 then (if LeapYear(y) then 29 else 28) else if m in {4, 6, 9, 11} then 30 else 31
  }

  predicate RealDate(d: Date) {
    1 <= d.year <= 9999 && 1 <= d.month <= 12 && 1 <= d.day <= DaysIn(d.year, d.month)
  }

  predicate Earlier(a: Date, b: Date) {
    a.year < b.year || (a.year == b.year && (a.month < b.month || (a.month == b.month && a.day < b.day)))
  }

  predicate IsDigit(c: char) {
    '0' <= c <= '9'
  }

  function Two(a: char, b: char): int {
    (a as int - '0' as int) * 10 + (b as int - '0' as int)
  }

  /** YYYY-MM-DD, naming a day that exists. */
  function ParseDate(s: string): Option<Date> {
    if |s| == 10 && s[4] == '-' && s[7] == '-' && IsDigit(s[0]) && IsDigit(s[1]) && IsDigit(s[2]) && IsDigit(s[3])
       && IsDigit(s[5]) && IsDigit(s[6]) && IsDigit(s[8]) && IsDigit(s[9]) then
      var d := Date(Two(s[0], s[1]) * 100 + Two(s[2], s[3]), Two(s[5], s[6]), Two(s[8], s[9]));
      if RealDate(d) then Some(d) else None
    else None
  }

  function TwoDigits(n: int): string
    requires 0 <= n < 100
  {
    [Digit(n / 10), Digit(n % 10)]
  }

  function FormatDate(d: Date): string
    requires RealDate(d)
  {
    TwoDigits(d.year / 100) + TwoDigits(d.year % 100) + "-" + TwoDigits(d.month) + "-" + TwoDigits(d.day)
  }

  /** Every real date is read back from its text. */
  lemma {:induction false} FormatThenParse(d: Date)
    requires RealDate(d)
    ensures ParseDate(FormatDate(d)) == Some(d)
  {
    TwoDigitsRead(d.year / 100);
    TwoDigitsRead(d.year % 100);
    TwoDigitsRead(d.month);
    TwoDigitsRead(d.day);
    var s := FormatDate(d);
    assert s[0..2] == TwoDigits(d.year / 100) && s[2..4] == TwoDigits(d.year % 100);
    assert s[5..7] == TwoDigits(d.month) && s[8..10] == TwoDigits(d.day);
  }

  lemma {:induction false} TwoDigitsRead(n: int)
    requires 0 <= n < 100
    ensures IsDigit(TwoDigits(n)[0]) && IsDigit(TwoDigits(n)[1]) && Two(TwoDigits(n)[0], TwoDigits(n)[1]) == n
  {
  }

  // ======== findings ========

  datatype AuditAdvisory = AuditAdvisory(
    moduleName: Scalar, name: Scalar, severity: Scalar, githubAdvisoryID: Scalar, url: Scalar, cves: seq<Scalar>,
    id: Scalar,
    title: Scalar, advisory: Scalar, overview: Scalar)

  datatype ViaItem =
    | Entry(githubAdvisoryID: Scalar, url: Scalar, source: Scalar, title: Scalar, name: Scalar, advisory: Scalar)
    | Named(text: string)
    | Unknown

  datatype Via = Items(items: seq<ViaItem>) | One(text: string) | Neither

  datatype Vulnerability = Vulnerability(name: string, severity: Scalar, via: Via)

  /** The two shapes of report; None where the member is missing or not an object. */
  datatype Audit = Audit(advisories: Option<seq<AuditAdvisory>>, vulnerabilities: Option<seq<Vulnerability>>)

  datatype Finding = Finding(name: Scalar, severity: Scalar, advisory: Scalar, title: Scalar)

  function PickAdvisoryID(a: AuditAdvisory): Scalar {
    FirstTruthy([
      a.githubAdvisoryID, a.url, if a.cves == [] then Absent else a.cves[0],
      if a.id.Absent? then Absent else Text(a.id.Str()), a.title, a.advisory, a.overview])
  }

  function FromAdvisory(a: AuditAdvisory): Finding {
    Finding(a.moduleName.Or(a.name), a.severity, PickAdvisoryID(a),
            FirstTruthy([a.title, a.advisory, a.overview, a.url]))
  }

  function ItemIDs(via: Via): seq<Scalar> {
    match via
    case Items(items) => ItemList(items, true)
    case One(text) => [Text(text)]
    case Neither => []
  }

  function ItemTitles(via: Via): seq<Scalar> {
    match via
    case Items(items) => ItemList(items, false)
    case One(text) => [Text(text)]
    case Neither => []
  }

  /** The ids, or the titles, of a list of items; items of no known kind are passed over. */
  function ItemList(items: seq<ViaItem>, ids: bool): seq<Scalar> {
    if items == [] then []
    else
      var init := ItemList(items[..|items| - 1], ids);
      match items[|items| - 1]
      case Entry(gh, url, source, title, name, advisory) =>
        init + [if ids then FirstTruthy([gh, url, source, title, name])
                else FirstTruthy([title, url, advisory, source])]
      case Named(text) => init + [Text(text)]
      case Unknown => init
  }

  function IsTruthy(): Scalar -> bool {
    (v: Scalar) => v.Truthy()
  }

  /** "; ".join over the titles; None is the error of joining a number. */
  function JoinTitles(titles: seq<Scalar>): Option<string> {
    if titles == [] then Some("")
    else
      var last := titles[|titles| - 1];
      match JoinTitles(titles[..|titles| - 1])
      case None => None
      case Some(s) => if !last.Text? then None else Some(if |titles| == 1 then last.s else s + "; " + last.s)
  }

  function TitleOf(v: Vulnerability): Option<string> {
    JoinTitles(Filter(ItemTitles(v.via), IsTruthy()))
  }

  function FromVulnerability(v: Vulnerability, title: string): seq<Finding> {
    Map((id: Scalar) => Finding(Text(v.name), v.severity, id, Text(title)), Filter(ItemIDs(v.via), IsTruthy()))
  }

  /** The findings of the vulnerabilities up to the first whose titles cannot be joined, and whether there is one. */
  function FromVulnerabilities(vs: seq<Vulnerability>): (seq<Finding>, bool) {
    if vs == [] then ([], false)
    else
      var (found, crashed) := FromVulnerabilities(vs[..|vs| - 1]);
      if crashed then (found, true)
      else
        match TitleOf(vs[|vs| - 1])
        case None => (found, true)
        case Some(title) => (found + FromVulnerability(vs[|vs| - 1], title), false)
  }

  function Findings(audit: Audit): (seq<Finding>, bool) {
    var first := if audit.advisories.None? then []
      else Map((a: AuditAdvisory) => FromAdvisory(a), audit.advisories.value);
    var (second, crashed) := if audit.vulnerabilities.None? then ([], false)
      else FromVulnerabilities(audit.vulnerabilities.value);
    (first + second, crashed)
  }

  // ---- iter_vulns ----

  method IterVulns(audit: Audit) returns (found: seq<Finding>, crashed: bool)
    ensures (found, crashed) == Findings(audit)
  {
    hide FromVulnerabilities;
    found, crashed := [], false;
    if audit.advisories.Some? {
      found := IterAdvisories(audit.advisories.value);
    }
    if audit.vulnerabilities.Some? {
      var more;
      more, crashed := IterVulnerabilities(audit.vulnerabilities.value);
      found := found + more;
    } else {
      assert found + [] == found;
    }
  }

  method IterAdvisories(advisories: seq<AuditAdvisory>) returns (found: seq<Finding>)
    ensures found == Map((a: AuditAdvisory) => FromAdvisory(a), advisories)
  {
    found := [];
    for n := 0 to |advisories|
      invariant found == Map((a: AuditAdvisory) => FromAdvisory(a), advisories[..n])
    {
      found := found + [FromAdvisory(advisories[n])];
    }
    assert advisories[..|advisories|] == advisories;
  }

  method IterVulnerabilities(vs: seq<Vulnerability>) returns (found: seq<Finding>, crashed: bool)
    ensures (found, crashed) == FromVulnerabilities(vs)
  {
    hide FromVulnerability, TitleOf;
    found := [];
    for n := 0 to |vs|
      invariant FromVulnerabilities(vs[..n]) == (found, false)
    {
      assert vs[..n + 1][..n] == vs[..n];
      var title, more := IterVulnerability(vs[n]);
      if title.None? {
        CrashStays(vs, n + 1);
        return found, true;
      }
      found := found + more;
    }
    assert vs[..|vs|] == vs;
    crashed := false;
  }

  method IterVulnerability(v: Vulnerability) returns (title: Option<string>, found: seq<Finding>)
    ensures title == TitleOf(v) && (title.Some? ==> found == FromVulnerability(v, title.value))
  {
    hide ItemIDs, ItemTitles, Filter;
    var ids, titles := CollectVia(v.via);
    title, found := JoinTitles(Filter(titles, IsTruthy())), [];
    if title.Some? {
      var kept := Filter(ids, IsTruthy());
      for i := 0 to |kept|
        invariant found == FromVulnerability(v, title.value)[..i]
      {
        found := found + [Finding(Text(v.name), v.severity, kept[i], Text(title.value))];
      }
    }
  }

  lemma {:induction false} CrashStays(vs: seq<Vulnerability>, n: nat)
    requires n <= |vs| && FromVulnerabilities(vs[..n]).1
    ensures FromVulnerabilities(vs) == FromVulnerabilities(vs[..n])
  {
    if n < |vs| {
      assert vs[..|vs| - 1][..n] == vs[..n];
      CrashStays(vs[..|vs| - 1], n);
    } else {
      assert vs[..n] == vs;
    }
  }

  method CollectVia(via: Via) returns (ids: seq<Scalar>, titles: seq<Scalar>)
    ensures ids == ItemIDs(via) && titles == ItemTitles(via)
  {
    ids, titles := [], [];
    match via
    case Items(items) =>
      for i := 0 to |items|
        invariant ids == ItemList(items[..i], true) && titles == ItemList(items[..i], false)
      {
        assert items[..i + 1][..i] == items[..i];
        match items[i]
        case Entry(gh, url, source, title, name, advisory) =>
          ids := ids + [FirstTruthy([gh, url, source, title, name])];
          titles := titles + [FirstTruthy([title, url, advisory, source])];
        case Named(text) =>
          ids, titles := ids + [Text(text)], titles + [Text(text)];
        case Unknown =>
      }
      assert items[..|items|] == items;
    case One(text) =>
      ids, titles := [Text(text)], [Text(text)];
    case Neither =>
  }

  // ---- when joining titles fails ----

  lemma {:induction false} JoinFails(titles: seq<Scalar>)
    ensures JoinTitles(titles).None? <==> exists i :: 0 <= i < |titles| && !titles[i].Text?
  {
    if titles != [] {
      var n := |titles| - 1;
      JoinFails(titles[..n]);
      assert forall i :: 0 <= i < n ==> titles[..n][i] == titles[i];
    }
  }

  lemma {:induction false} ListedTitle(items: seq<ViaItem>, t: Scalar)
    requires t.Number?
    ensures t in ItemList(items, false)
       <==> exists i :: 0 <= i < |items| && items[i].Entry? && t == FirstTruthy(TitleCandidates(items[i]))
  {
    hide FirstTruthy;
    if items != [] {
      var n := |items| - 1;
      ListedTitle(items[..n], t);
      assert forall i :: 0 <= i < n ==> items[..n][i] == items[i];
    }
  }

  function TitleCandidates(item: ViaItem): (candidates: seq<Scalar>)
    requires item.Entry?
    ensures candidates != []
  {
    [item.title, item.url, item.advisory, item.source]
  }

  /** The first of title, url, advisory and source that is not empty is a number. */
  predicate NumericTitle(item: ViaItem) {
    item.Entry?
    && exists k :: 0 <= k < 4 && TitleCandidates(item)[k].Number? && TitleCandidates(item)[k].Truthy()
                   && forall j :: 0 <= j < k ==> !TitleCandidates(item)[j].Truthy()
  }

  lemma {:induction false} NumericTitleIsFirst(item: ViaItem)
    requires item.Entry?
    ensures var t := FirstTruthy(TitleCandidates(item)); (t.Number? && t.Truthy()) <==> NumericTitle(item)
  {
    var candidates := TitleCandidates(item);
    var t := FirstTruthy(candidates);
    if t.Truthy() {
      var i :| 0 <= i < |candidates| && t == candidates[i] && forall j :: 0 <= j < i ==> !candidates[j].Truthy();
      if k :| 0 <= k < 4 && candidates[k].Number? && candidates[k].Truthy()
              && forall j :: 0 <= j < k ==> !candidates[j].Truthy() {
        assert i == k;
      }
    }
  }

  predicate Unjoinable(v: Vulnerability) {
    v.via.Items? && exists i :: 0 <= i < |v.via.items| && NumericTitle(v.via.items[i])
  }

  /** The titles of a vulnerability cannot be joined exactly if the title chosen for one of its entries is a number. */
  lemma {:induction false} TitleFailsExactly(v: Vulnerability)
    ensures TitleOf(v).None? <==> Unjoinable(v)
  {
    hide NumericTitle, JoinTitles, ItemList;
    var titles := ItemTitles(v.via);
    var kept := Filter(titles, IsTruthy());
    JoinFails(kept);
    if i :| 0 <= i < |kept| && !kept[i].Text? {
      FilterMember(titles, IsTruthy(), kept[i]);
      var j := NumericItem(v.via, kept[i]);
    }
    if v.via.Items? {
      if j :| 0 <= j < |v.via.items| && NumericTitle(v.via.items[j]) {
        var t := ChosenTitle(v.via.items, j);
        FilterMember(titles, IsTruthy(), t);
        var i :| 0 <= i < |kept| && kept[i] == t;
      }
    }
  }

  lemma {:induction false} NumericItem(via: Via, t: Scalar) returns (j: nat)
    requires t in ItemTitles(via) && t.Number? && t.Truthy()
    ensures via.Items? && j < |via.items| && NumericTitle(via.items[j])
  {
    hide FirstTruthy, NumericTitle, TitleCandidates;
    ListedTitle(via.items, t);
    j :| j < |via.items| && via.items[j].Entry? && t == FirstTruthy(TitleCandidates(via.items[j]));
    NumericTitleIsFirst(via.items[j]);
  }

  lemma {:induction false} ChosenTitle(items: seq<ViaItem>, j: nat) returns (t: Scalar)
    requires j < |items| && NumericTitle(items[j])
    ensures t in ItemList(items, false) && t.Number? && t.Truthy()
  {
    hide FirstTruthy, NumericTitle, TitleCandidates;
    EntryOfNumericTitle(items[j]);
    NumericTitleIsFirst(items[j]);
    t := FirstTruthy(TitleCandidates(items[j]));
    ListedTitle(items, t);
  }

  lemma {:induction false} EntryOfNumericTitle(item: ViaItem)
    requires NumericTitle(item)
    ensures item.Entry?
  {
  }

  // ---- what the findings of a report are ----

  /** Reading the report breaks off exactly if one of its vulnerabilities has unjoinable titles. */
  lemma {:induction false} FindingsBreakOffExactly(audit: Audit)
    ensures Findings(audit).1
       <==> audit.vulnerabilities.Some?
            && exists i :: 0 <= i < |audit.vulnerabilities.value| && Unjoinable(audit.vulnerabilities.value[i])
  {
    hide FromVulnerabilities, Unjoinable;
    if audit.vulnerabilities.Some? {
      VulnerabilitiesBreakOff(audit.vulnerabilities.value);
    }
  }

  lemma {:induction false} VulnerabilitiesBreakOff(vs: seq<Vulnerability>)
    ensures FromVulnerabilities(vs).1 <==> exists i :: 0 <= i < |vs| && Unjoinable(vs[i])
  {
    hide TitleOf, Unjoinable, FromVulnerability;
    if vs != [] {
      var n := |vs| - 1;
      VulnerabilitiesBreakOff(vs[..n]);
      TitleFailsExactly(vs[n]);
      assert forall i :: 0 <= i < n ==> vs[..n][i] == vs[i];
    }
  }

  /** Found in a vulnerability: one finding for every item that names an advisory. */
  predicate FoundIn(f: Finding, v: Vulnerability) {
    TitleOf(v).Some?
    && exists id :: id in ItemIDs(v.via) && id.Truthy()
                    && f == Finding(Text(v.name), v.severity, id, Text(TitleOf(v).value))
  }

  /** A report that is read through yields a finding for every advisory and for every named advisory of every
      vulnerability, and no others. */
  lemma {:induction false} FindingsExactly(audit: Audit, f: Finding)
    requires !Findings(audit).1
    ensures f in Findings(audit).0
       <==> || (audit.advisories.Some? && exists a :: a in audit.advisories.value && f == FromAdvisory(a))
            || (audit.vulnerabilities.Some? && exists v :: v in audit.vulnerabilities.value && FoundIn(f, v))
  {
    hide FromVulnerabilities, FoundIn, FromAdvisory;
    if audit.advisories.Some? {
      var advisories := audit.advisories.value;
      var first := Map((a: AuditAdvisory) => FromAdvisory(a), advisories);
      if i :| 0 <= i < |first| && first[i] == f {
        assert advisories[i] in advisories;
      }
      if a :| a in advisories && f == FromAdvisory(a) {
        var i :| 0 <= i < |advisories| && advisories[i] == a;
        assert first[i] == f;
      }
    }
    if audit.vulnerabilities.Some? {
      VulnerabilityFindings(audit.vulnerabilities.value, f);
    }
  }

  lemma {:induction false} VulnerabilityFindings(vs: seq<Vulnerability>, f: Finding)
    requires !FromVulnerabilities(vs).1
    ensures f in FromVulnerabilities(vs).0 <==> exists v :: v in vs && FoundIn(f, v)
  {
    hide TitleOf, FoundIn, FromVulnerability;
    if vs != [] {
      var n := |vs| - 1;
      VulnerabilityFindings(vs[..n], f);
      OneVulnerability(vs[n], f);
      assert vs == vs[..n] + [vs[n]];
    }
  }

  lemma {:induction false} OneVulnerability(v: Vulnerability, f: Finding)
    requires TitleOf(v).Some?
    ensures f in FromVulnerability(v, TitleOf(v).value) <==> FoundIn(f, v)
  {
    hide TitleOf, ItemIDs;
    var ids := ItemIDs(v.via);
    var kept := Filter(ids, IsTruthy());
    var found := FromVulnerability(v, TitleOf(v).value);
    forall id ensures id in kept <==> id in ids && id.Truthy() {
      FilterMember(ids, IsTruthy(), id);
    }
    if i :| 0 <= i < |found| && found[i] == f {
      assert kept[i] in kept;
    }
    if id :| id in ids && id.Truthy() && f == Finding(Text(v.name), v.severity, id, Text(TitleOf(v).value)) {
      var i :| 0 <= i < |kept| && kept[i] == id;
      assert found[i] == f;
    }
  }

  // ---- and in which order ----

  /** A position in the report: a vulnerability and one of its ids. */
  type Place = (nat, nat)

  predicate ComesBefore(a: Place, b: Place) {
    a.0 < b.0 || (a.0 == b.0 && a.1 < b.1)
  }

  predicate NamesAdvisory(vs: seq<Vulnerability>, p: Place) {
    p.0 < |vs| && p.1 < |ItemIDs(vs[p.0].via)| && ItemIDs(vs[p.0].via)[p.1].Truthy()
  }

  function FoundAt(vs: seq<Vulnerability>, p: Place): Finding
    requires NamesAdvisory(vs, p) && TitleOf(vs[p.0]).Some?
  {
    Finding(Text(vs[p.0].name), vs[p.0].severity, ItemIDs(vs[p.0].via)[p.1], Text(TitleOf(vs[p.0]).value))
  }

  function PlacesIn(i: nat, at: seq<nat>): (places: seq<Place>)
    ensures |places| == |at| && forall k :: 0 <= k < |at| ==> places[k] == (i, at[k])
  {
    seq(|at|, k requires 0 <= k < |at| => (i, at[k]))
  }

  /** The findings are those of these places, one each, ... */
  predicate Shows(vs: seq<Vulnerability>, found: seq<Finding>, places: seq<Place>) {
    && |places| == |found|
    && forall k :: 0 <= k < |places| ==>
         NamesAdvisory(vs, places[k]) && TitleOf(vs[places[k].0]).Some? && found[k] == FoundAt(vs, places[k])
  }

  /** ... the places come in the order of the report, ... */
  predicate InOrder(places: seq<Place>) {
    forall k, l :: 0 <= k < l < |places| ==> ComesBefore(places[k], places[l])
  }

  /** ... and none is missing. */
  ghost predicate AllPlaces(vs: seq<Vulnerability>, places: seq<Place>) {
    forall p: Place :: NamesAdvisory(vs, p) ==> p in places
  }

  /** The findings of the vulnerabilities come in the order of the report, one for each place that names an advisory:
      none is left out, none repeated, none moved. */
  lemma {:induction false} FindingsInOrder(vs: seq<Vulnerability>) returns (places: seq<Place>)
    requires !FromVulnerabilities(vs).1
    ensures Shows(vs, FromVulnerabilities(vs).0, places) && InOrder(places) && AllPlaces(vs, places)
  {
    hide FromVulnerabilities, FromVulnerability, TitleOf, Shows, InOrder, AllPlaces;
    if vs == [] {
      places := [];
      NoVulnerabilities();
    } else {
      var n: nat := |vs| - 1;
      LastFindings(vs);
      var before := FindingsInOrder(vs[..n]);
      var at := LastPlaces(vs);
      places := before + PlacesIn(n, at);
      var earlier, later := FromVulnerabilities(vs[..n]).0, FromVulnerability(vs[n], TitleOf(vs[n]).value);
      ShowsMore(vs, earlier, before, later, at);
      InOrderMore(vs, earlier, before, at);
      AllPlacesMore(vs, before, at);
    }
  }

  lemma {:induction false} NoVulnerabilities()
    ensures FromVulnerabilities([]).0 == [] && Shows([], [], []) && InOrder([]) && AllPlaces([], [])
  {
  }

  lemma {:induction false} LastFindings(vs: seq<Vulnerability>)
    requires vs != [] && !FromVulnerabilities(vs).1
    ensures var n := |vs| - 1;
            && !FromVulnerabilities(vs[..n]).1 && TitleOf(vs[n]).Some?
            && FromVulnerabilities(vs).0
               == FromVulnerabilities(vs[..n]).0 + FromVulnerability(vs[n], TitleOf(vs[n]).value)
  {
    hide TitleOf, FromVulnerability;
  }

  /** Where the last vulnerability names advisories. */
  lemma {:induction false} LastPlaces(vs: seq<Vulnerability>) returns (at: seq<nat>)
    requires vs != [] && TitleOf(vs[|vs| - 1]).Some?
    ensures var last := vs[|vs| - 1];
            var ids, found := ItemIDs(last.via), FromVulnerability(last, TitleOf(last).value);
            && |at| == |found|
            && (forall k :: 0 <= k < |at| ==>
                  at[k] < |ids| && ids[at[k]].Truthy()
                  && found[k] == Finding(Text(last.name), last.severity, ids[at[k]], Text(TitleOf(last).value)))
            && (forall i :: 0 <= i < |ids| && ids[i].Truthy() ==> i in at)
    ensures forall k, l :: 0 <= k < l < |at| ==> at[k] < at[l]
  {
    hide ItemIDs, TitleOf, Filter;
    at := FilterPositions(ItemIDs(vs[|vs| - 1].via), IsTruthy());
  }

  lemma {:induction false} ShowsMore(vs: seq<Vulnerability>, earlier: seq<Finding>, before: seq<Place>,
                                     later: seq<Finding>, at: seq<nat>)
    requires vs != [] && Shows(vs[..|vs| - 1], earlier, before) && |at| == |later| && TitleOf(vs[|vs| - 1]).Some?
    requires var last := vs[|vs| - 1];
             forall k :: 0 <= k < |at| ==>
               at[k] < |ItemIDs(last.via)| && ItemIDs(last.via)[at[k]].Truthy()
               && later[k]
                  == Finding(Text(last.name), last.severity, ItemIDs(last.via)[at[k]], Text(TitleOf(last).value))
    ensures Shows(vs, earlier + later, before + PlacesIn(|vs| - 1, at))
  {
    hide ItemIDs, TitleOf;
    var n: nat := |vs| - 1;
    assert forall i :: 0 <= i < n ==> vs[..n][i] == vs[i];
  }

  lemma {:induction false} InOrderMore(vs: seq<Vulnerability>, earlier: seq<Finding>, before: seq<Place>, at: seq<nat>)
    requires vs != [] && Shows(vs[..|vs| - 1], earlier, before) && InOrder(before)
    requires forall k, l :: 0 <= k < l < |at| ==> at[k] < at[l]
    ensures InOrder(before + PlacesIn(|vs| - 1, at))
  {
    hide ItemIDs, TitleOf, FoundAt;
  }

  lemma {:induction false} AllPlacesMore(vs: seq<Vulnerability>, before: seq<Place>, at: seq<nat>)
    requires vs != [] && AllPlaces(vs[..|vs| - 1], before)
    requires forall i :: 0 <= i < |ItemIDs(vs[|vs| - 1].via)| && ItemIDs(vs[|vs| - 1].via)[i].Truthy() ==> i in at
    ensures AllPlaces(vs, before + PlacesIn(|vs| - 1, at))
  {
    hide ItemIDs;
    var n: nat := |vs| - 1;
    var places := before + PlacesIn(n, at);
    forall p: Place | NamesAdvisory(vs, p) ensures p in places {
      if p.0 < n {
        assert NamesAdvisory(vs[..n], p);
      } else {
        assert p.0 == n && ItemIDs(vs[n].via)[p.1].Truthy() && p.1 in at;
        var k :| 0 <= k < |at| && at[k] == p.1;
        assert places[|before| + k] == p;
      }
    }
  }
}
