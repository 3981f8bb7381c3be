/** What becomes of a verdict when the report changes: repeated, reordered and added records, and exactly when an
    addition can turn a failing scan into a clean one. */
module AuditStability {
  import opened Basics
  import opened AuditText
  import AuditRoundTrip
  import opened AuditGate
  import opened AuditVerdict

  // ======== repeated findings ========

  lemma {:induction false} ScanConcat(entries: map<Key, IndexEntry>, today: Date, a: seq<Finding>, b: seq<Finding>,
                                      c: seq<Finding>)
    requires ScanAll(entries, today, a) == ScanAll(entries, today, b)
    ensures ScanAll(entries, today, a + c) == ScanAll(entries, today, b + c)
  {
    hide ScanOne;
    if c == [] {
      assert a + c == a && b + c == b;
    } else {
      var n := |c| - 1;
      ScanConcat(entries, today, a, b, c[..n]);
      assert (a + c)[..|a| + n] == a + c[..n] && (b + c)[..|b| + n] == b + c[..n];
    }
  }

  /** A finding with a key that was seen before changes nothing, wherever it is repeated. */
  lemma {:induction false} RepeatedFinding(entries: map<Key, IndexEntry>, today: Date, a: seq<Finding>, f: Finding,
                                           b: seq<Finding>, i: nat)
    requires i < |a|
    ensures Keyed(a[i]) && Keyed(f) && FindingKey(a[i]) == FindingKey(f)
        ==> ScanAll(entries, today, a + [f] + b) == ScanAll(entries, today, a + b)
  {
    hide FindingKey, Severity, Grave, Advisory, Judge;
    if Keyed(a[i]) && Keyed(f) && FindingKey(a[i]) == FindingKey(f) {
      assert (a + [f])[..|a|] == a;
      if ScanAll(entries, today, a).Some? {
        SeenExactly(entries, today, a, FindingKey(f));
      }
      ScanConcat(entries, today, a + [f], a, b);
    }
  }

  /** Findings of one key agree on the severity. */
  predicate SeverityByKey(fs: seq<Finding>) {
    forall i, j :: 0 <= i < |fs| && 0 <= j < |fs| && Keyed(fs[i]) && Keyed(fs[j])
                   && FindingKey(fs[i]) == FindingKey(fs[j])
      ==> Severity(fs[i].severity) == Severity(fs[j].severity)
  }

  /** What is asked of a finding regardless of the others. */
  predicate Settled(entries: map<Key, IndexEntry>, today: Date, f: Finding) {
    && Severity(f.severity).Some?
    && (Relevant(f) ==>
          Advisory(f.advisory) != "" && Covered(entries, today, FindingKey(f), Severity(f.severity).value))
  }

  lemma {:induction false} FirstWithKey(fs: seq<Finding>, i: nat) returns (j: nat)
    requires i < |fs| && Keyed(fs[i])
    ensures j <= i && Keyed(fs[j]) && FindingKey(fs[j]) == FindingKey(fs[i]) && FirstOfKey(fs, j)
  {
    hide FindingKey, Keyed;
    if FirstOfKey(fs, i) {
      j := i;
    } else {
      var k :| 0 <= k < i && Keyed(fs[k]) && FindingKey(fs[k]) == FindingKey(fs[i]);
      j := FirstWithKey(fs, k);
    }
  }

  /** Then it does not matter which finding of a key comes first. */
  lemma {:induction false} CleanIfAllSettled(entries: map<Key, IndexEntry>, today: Date, fs: seq<Finding>)
    requires SeverityByKey(fs)
    ensures Clean(ScanAll(entries, today, fs)) <==> forall i :: 0 <= i < |fs| ==> Settled(entries, today, fs[i])
  {
    hide ScanAll, FindingKey, Severity, Grave, Advisory, Covered;
    ScanCleanExactly(entries, today, fs);
    if forall i :: 0 <= i < |fs| ==> Acceptable(entries, today, fs, i) {
      forall i | 0 <= i < |fs| ensures Settled(entries, today, fs[i]) {
        assert Acceptable(entries, today, fs, i);
        if Relevant(fs[i]) {
          var j := FirstWithKey(fs, i);
          assert Acceptable(entries, today, fs, j);
        }
      }
    }
    if forall i :: 0 <= i < |fs| ==> Settled(entries, today, fs[i]) {
      forall i | 0 <= i < |fs| ensures Acceptable(entries, today, fs, i) {
        assert Settled(entries, today, fs[i]);
      }
    }
  }

  /** Only which findings there are matters then, not their order or repetition. */
  lemma {:induction false} OnlyTheSetMatters(entries: map<Key, IndexEntry>, today: Date, fs: seq<Finding>,
                                             gs: seq<Finding>)
    requires SeverityByKey(fs) && forall f :: f in fs <==> f in gs
    ensures Clean(ScanAll(entries, today, fs)) <==> Clean(ScanAll(entries, today, gs))
  {
    hide ScanAll, SeverityByKey, Settled;
    FewerAgree(fs, gs);
    CleanIfAllSettled(entries, today, fs);
    CleanIfAllSettled(entries, today, gs);
    if forall i :: 0 <= i < |fs| ==> Settled(entries, today, fs[i]) {
      SameMembersSettled(entries, today, fs, gs);
    }
    if forall i :: 0 <= i < |gs| ==> Settled(entries, today, gs[i]) {
      SameMembersSettled(entries, today, gs, fs);
    }
  }

  /** Clean whatever the order of the findings. */
  ghost predicate CleanInEveryOrder(entries: map<Key, IndexEntry>, today: Date, fs: seq<Finding>) {
    forall gs :: multiset(gs) == multiset(fs) ==> Clean(ScanAll(entries, today, gs))
  }

  ghost predicate CleanInSomeOrder(entries: map<Key, IndexEntry>, today: Date, fs: seq<Finding>) {
    exists gs :: multiset(gs) == multiset(fs) && Clean(ScanAll(entries, today, gs))
  }

  /** Without that agreement the order can matter. A list of findings is clean in every order exactly if each of them
      would be alone. */
  lemma {:induction false} EveryOrderExactly(entries: map<Key, IndexEntry>, today: Date, fs: seq<Finding>)
    ensures CleanInEveryOrder(entries, today, fs) <==> forall i :: 0 <= i < |fs| ==> Settled(entries, today, fs[i])
  {
    hide ScanAll, Settled;
    if CleanInEveryOrder(entries, today, fs) {
      forall i | 0 <= i < |fs| ensures Settled(entries, today, fs[i]) {
        var gs := ToFront(fs, i);
        ScanCleanExactly(entries, today, gs);
        FirstSettled(entries, today, gs);
      }
    }
    if forall i :: 0 <= i < |fs| ==> Settled(entries, today, fs[i]) {
      forall gs | multiset(gs) == multiset(fs) ensures Clean(ScanAll(entries, today, gs)) {
        SameFindings(gs, fs);
        SameMembersSettled(entries, today, fs, gs);
        ScanCleanExactly(entries, today, gs);
        SettledAcceptable(entries, today, gs);
      }
    }
  }

  lemma {:induction false} ToFront(fs: seq<Finding>, i: nat) returns (gs: seq<Finding>)
    requires i < |fs|
    ensures gs != [] && gs[0] == fs[i] && multiset(gs) == multiset(fs)
  {
    gs := [fs[i]] + (fs[..i] + fs[i + 1..]);
    assert fs == fs[..i] + [fs[i]] + fs[i + 1..];
  }

  lemma {:induction false} SameFindings(fs: seq<Finding>, gs: seq<Finding>)
    requires multiset(fs) == multiset(gs)
    ensures forall f :: f in fs <==> f in gs
  {
    forall f ensures f in fs <==> f in gs {
      assert f in fs <==> f in multiset(fs);
      assert f in gs <==> f in multiset(gs);
    }
  }

  /** What can be asked of a finding among others, if the one of its key that meets the exception may come first. */
  predicate Coverable(entries: map<Key, IndexEntry>, today: Date, fs: seq<Finding>, f: Finding) {
    && Severity(f.severity).Some?
    && (Relevant(f) ==>
          Advisory(f.advisory) != ""
          && exists g :: g in fs && Keyed(g) && FindingKey(g) == FindingKey(f) && Settled(entries, today, g))
  }

  /** It is clean in some order exactly if of every key some finding meets the exception. */
  lemma {:induction false} SomeOrderExactly(entries: map<Key, IndexEntry>, today: Date, fs: seq<Finding>)
    ensures CleanInSomeOrder(entries, today, fs) <==> forall i :: 0 <= i < |fs| ==> Coverable(entries, today, fs, fs[i])
  {
    hide ScanAll, Coverable;
    if gs :| multiset(gs) == multiset(fs) && Clean(ScanAll(entries, today, gs)) {
      SameFindings(fs, gs);
      forall i | 0 <= i < |fs| ensures Coverable(entries, today, fs, fs[i]) {
        assert fs[i] in gs;
        var n :| 0 <= n < |gs| && gs[n] == fs[i];
        CoveredInOrder(entries, today, fs, gs, n);
      }
    }
    if forall i :: 0 <= i < |fs| ==> Coverable(entries, today, fs, fs[i]) {
      SettledFirst(entries, today, fs);
    }
  }

  lemma {:induction false} CoveredInOrder(entries: map<Key, IndexEntry>, today: Date, fs: seq<Finding>,
                                          gs: seq<Finding>, n: nat)
    requires n < |gs| && Clean(ScanAll(entries, today, gs)) && forall f :: f in fs <==> f in gs
    ensures Coverable(entries, today, fs, gs[n])
  {
    hide ScanAll, FindingKey, Severity, Grave, Advisory, Covered, Relevant;
    ScanCleanExactly(entries, today, gs);
    assert Acceptable(entries, today, gs, n);
    if Relevant(gs[n]) {
      var j := FirstWithKey(gs, n);
      assert Acceptable(entries, today, gs, j) && gs[j] in gs;
      assert Settled(entries, today, gs[j]);
    }
  }

  function IsSettled(entries: map<Key, IndexEntry>, today: Date): Finding -> bool {
    (f: Finding) => Settled(entries, today, f)
  }

  function IsUnsettled(entries: map<Key, IndexEntry>, today: Date): Finding -> bool {
    (f: Finding) => !Settled(entries, today, f)
  }

  lemma {:induction false} SettledFirst(entries: map<Key, IndexEntry>, today: Date, fs: seq<Finding>)
    requires forall i :: 0 <= i < |fs| ==> Coverable(entries, today, fs, fs[i])
    ensures CleanInSomeOrder(entries, today, fs)
  {
    hide ScanAll, Coverable, Settled, Acceptable, Keyed, FindingKey;
    var yes, no := IsSettled(entries, today), IsUnsettled(entries, today);
    var front, back := Filter(fs, yes), Filter(fs, no);
    var gs := front + back;
    FilterSplits(fs, yes, no);
    forall f ensures f in front <==> f in fs && Settled(entries, today, f) {
      FilterMember(fs, yes, f);
    }
    ScanCleanExactly(entries, today, gs);
    forall n | 0 <= n < |gs| ensures Acceptable(entries, today, gs, n) {
      if n < |front| {
        assert gs[n] in front;
        SettledThere(entries, today, gs, n);
      } else {
        assert gs[n] == back[n - |front|] && gs[n] in back;
        FilterMember(fs, no, gs[n]);
        assert Coverable(entries, today, fs, gs[n]);
        FollowsSettled(entries, today, fs, front, back, n);
      }
    }
  }

  lemma {:induction false} FollowsSettled(entries: map<Key, IndexEntry>, today: Date, fs: seq<Finding>,
                                          front: seq<Finding>, back: seq<Finding>, n: nat)
    requires |front| <= n < |front + back| && Coverable(entries, today, fs, (front + back)[n])
    requires forall f :: f in front <==> f in fs && Settled(entries, today, f)
    ensures Acceptable(entries, today, front + back, n)
  {
    hide FindingKey, Severity, Grave, Advisory, Covered, Settled, Keyed, Relevant;
    var gs := front + back;
    if Relevant(gs[n]) {
      var g :| g in fs && Keyed(g) && FindingKey(g) == FindingKey(gs[n]) && Settled(entries, today, g);
      var m :| 0 <= m < |front| && front[m] == g;
      assert gs[m] == g;
    }
  }

  lemma {:induction false} FilterSplits<T(!new)>(xs: seq<T>, yes: T -> bool, no: T -> bool)
    requires forall x :: x in xs ==> no(x) == !yes(x)
    ensures multiset(Filter(xs, yes) + Filter(xs, no)) == multiset(xs)
  {
    if xs != [] {
      var n := |xs| - 1;
      FilterSplits(xs[..n], yes, no);
      assert xs == xs[..n] + [xs[n]];
    }
  }

  lemma {:induction false} FirstSettled(entries: map<Key, IndexEntry>, today: Date, fs: seq<Finding>)
    requires fs != [] && Acceptable(entries, today, fs, 0)
    ensures Settled(entries, today, fs[0])
  {
    hide FindingKey, Severity, Grave, Advisory, Covered;
  }

  lemma {:induction false} SettledAcceptable(entries: map<Key, IndexEntry>, today: Date, fs: seq<Finding>)
    requires forall i :: 0 <= i < |fs| ==> Settled(entries, today, fs[i])
    ensures forall i :: 0 <= i < |fs| ==> Acceptable(entries, today, fs, i)
  {
    hide FindingKey, Severity, Grave, Advisory, Covered;
  }

  lemma {:induction false} SameMembersSettled(entries: map<Key, IndexEntry>, today: Date, fs: seq<Finding>,
                                              gs: seq<Finding>)
    requires forall f :: f in gs ==> f in fs
    requires forall i :: 0 <= i < |fs| ==> Settled(entries, today, fs[i])
    ensures forall i :: 0 <= i < |gs| ==> Settled(entries, today, gs[i])
  {
    hide Settled;
    forall i | 0 <= i < |gs| ensures Settled(entries, today, gs[i]) {
      assert gs[i] in gs;
      var k :| 0 <= k < |fs| && fs[k] == gs[i];
    }
  }

  lemma {:induction false} FewerAgree(fs: seq<Finding>, gs: seq<Finding>)
    requires SeverityByKey(fs) && forall g :: g in gs ==> g in fs
    ensures SeverityByKey(gs)
  {
    hide Keyed, FindingKey, Severity;
    forall i, j | 0 <= i < |gs| && 0 <= j < |gs| && Keyed(gs[i]) && Keyed(gs[j])
                  && FindingKey(gs[i]) == FindingKey(gs[j])
      ensures Severity(gs[i].severity) == Severity(gs[j].severity) {
      assert gs[i] in gs && gs[j] in gs;
      var k :| 0 <= k < |fs| && fs[k] == gs[i];
      var l :| 0 <= l < |fs| && fs[l] == gs[j];
    }
  }

  // ======== added findings ========

  /** Findings added at the end never turn a failing scan into a clean one. */
  lemma {:induction false} MoreAtTheEndNeverHelps(entries: map<Key, IndexEntry>, today: Date, fs: seq<Finding>,
                                                  more: seq<Finding>)
    ensures Clean(ScanAll(entries, today, fs + more)) ==> Clean(ScanAll(entries, today, fs))
  {
    hide Acceptable, ScanAll;
    ScanCleanExactly(entries, today, fs);
    ScanCleanExactly(entries, today, fs + more);
    assert (fs + more)[..|fs|] == fs;
    if forall i :: 0 <= i < |fs + more| ==> Acceptable(entries, today, fs + more, i) {
      forall i | 0 <= i < |fs| ensures Acceptable(entries, today, fs, i) {
        AcceptablePrefix(entries, today, fs + more, |fs|, i);
      }
    }
  }

  /** Then findings added anywhere never help. */
  lemma {:induction false} MoreNeverHelps(entries: map<Key, IndexEntry>, today: Date, a: seq<Finding>,
                                          more: seq<Finding>, b: seq<Finding>)
    requires SeverityByKey(a + more + b)
    ensures Clean(ScanAll(entries, today, a + more + b)) ==> Clean(ScanAll(entries, today, a + b))
  {
    hide ScanAll, Settled, SeverityByKey;
    var fs, gs := a + more + b, a + b;
    assert forall g :: g in gs ==> g in fs;
    FewerAgree(fs, gs);
    CleanIfAllSettled(entries, today, fs);
    CleanIfAllSettled(entries, today, gs);
    if forall i :: 0 <= i < |fs| ==> Settled(entries, today, fs[i]) {
      SameMembersSettled(entries, today, fs, gs);
    }
  }

  /** An exception that some high or critical finding of the key would meet. */
  predicate Fitting(entries: map<Key, IndexEntry>, today: Date, key: Key) {
    key in entries && (entries[key].severity == "" || Grave(entries[key].severity))
    && !Earlier(entries[key].expires, today)
  }

  /** A finding of the key comes among these. */
  predicate Named(fs: seq<Finding>, key: Key) {
    exists i :: 0 <= i < |fs| && Keyed(fs[i]) && FindingKey(fs[i]) == key
  }

  /** A finding that an addition between `a` and it can keep from being reported: one with a key, which came before
      or for which there is a fitting exception. */
  predicate Mendable(entries: map<Key, IndexEntry>, today: Date, a: seq<Finding>, f: Finding) {
    && Severity(f.severity).Some?
    && (Relevant(f) ==>
          Advisory(f.advisory) != "" && (Named(a, FindingKey(f)) || Fitting(entries, today, FindingKey(f))))
  }

  /** An advisory of the same key with the severity its exception asks for, or one of no account. */
  function StandIn(entries: map<Key, IndexEntry>, today: Date, f: Finding): AuditAdvisory {
    if Keyed(f) && Fitting(entries, today, FindingKey(f)) then
      var s := entries[FindingKey(f)].severity;
      AuditAdvisory(f.name, Absent, Text(if s == "" then "high" else s), Text(f.advisory.Str()), Absent, [], Absent,
                    Absent, Absent, Absent)
    else
      AuditAdvisory(Absent, Absent, Absent, Absent, Absent, [], Absent, Absent, Absent, Absent)
  }

  function StandIns(entries: map<Key, IndexEntry>, today: Date, fs: seq<Finding>): (advisories: seq<AuditAdvisory>)
    ensures |advisories| == |fs|
  {
    seq(|fs|, i requires 0 <= i < |fs| => StandIn(entries, today, fs[i]))
  }

  function FromAdvisories(advisories: seq<AuditAdvisory>): seq<Finding> {
    Map((a: AuditAdvisory) => FromAdvisory(a), advisories)
  }

  lemma {:induction false} PlainText(s: string)
    requires s != [] && forall i :: 0 <= i < |s| ==> !IsSpace(s[i]) && !('A' <= s[i] <= 'Z')
    ensures Strip(s) == s && Lower(s) == s
  {
    AuditRoundTrip.StripKeeps(s);
  }

  lemma {:induction false} GraveText(s: string)
    requires Grave(s)
    ensures Severity(Text(s)) == Some(s)
  {
    hide Strip, Lower;
    PlainText(s);
  }

  lemma {:induction false} StandInSettled(entries: map<Key, IndexEntry>, today: Date, f: Finding)
    ensures Settled(entries, today, FromAdvisory(StandIn(entries, today, f)))
    ensures Keyed(f) && Fitting(entries, today, FindingKey(f)) ==>
              var g := FromAdvisory(StandIn(entries, today, f));
              Keyed(g) && FindingKey(g) == FindingKey(f)
  {
    hide Strip, Lower;
    if Keyed(f) && Fitting(entries, today, FindingKey(f)) {
      var s := entries[FindingKey(f)].severity;
      GraveText(if s == "" then "high" else s);
      StandInNamed(entries, today, f);
    }
  }

  lemma {:induction false} StandInNamed(entries: map<Key, IndexEntry>, today: Date, f: Finding)
    requires Keyed(f) && Fitting(entries, today, FindingKey(f))
    ensures var g := FromAdvisory(StandIn(entries, today, f));
            g.name == f.name && g.advisory == Text(f.advisory.Str())
  {
    hide Fitting, Lower, Strip, Severity;
    NothingNormalised();
  }

  lemma {:induction false} NothingNormalised()
    ensures Lower(Strip("")) == ""
  {
  }

  /** Findings can be added between `a` and `b` so that the scan is clean, exactly if it is clean up to there and
      every finding of `b` is mendable. */
  lemma {:induction false} AddingHelpsExactly(entries: map<Key, IndexEntry>, today: Date, a: seq<Finding>,
                                              b: seq<Finding>)
    ensures (exists more :: Clean(ScanAll(entries, today, a + more + b)))
       <==> Clean(ScanAll(entries, today, a)) && forall i :: 0 <= i < |b| ==> Mendable(entries, today, a, b[i])
  {
    hide ScanAll, Mendable;
    if more :| Clean(ScanAll(entries, today, a + more + b)) {
      CleanMeansMendable(entries, today, a, more, b);
    }
    if Clean(ScanAll(entries, today, a)) && forall i :: 0 <= i < |b| ==> Mendable(entries, today, a, b[i]) {
      StandInsHelp(entries, today, a, b);
    }
  }

  lemma {:induction false} CleanMeansMendable(entries: map<Key, IndexEntry>, today: Date, a: seq<Finding>,
                                              more: seq<Finding>, b: seq<Finding>)
    requires Clean(ScanAll(entries, today, a + more + b))
    ensures Clean(ScanAll(entries, today, a)) && forall i :: 0 <= i < |b| ==> Mendable(entries, today, a, b[i])
  {
    hide ScanAll, FindingKey, Severity, Grave, Advisory, Covered, Named, Fitting, Keyed, Relevant;
    var fs := a + more + b;
    assert fs == a + (more + b);
    MoreAtTheEndNeverHelps(entries, today, a, more + b);
    ScanCleanExactly(entries, today, fs);
    forall i | 0 <= i < |b| ensures Mendable(entries, today, a, b[i]) {
      var n := |a| + |more| + i;
      assert fs[n] == b[i] && Acceptable(entries, today, fs, n);
      if Relevant(b[i]) {
        KeyedIs(b[i]);
        var j := FirstWithKey(fs, n);
        assert Acceptable(entries, today, fs, j);
        FirstIsFitting(entries, today, fs, j);
        if j < |a| {
          assert a[j] == fs[j];
          NamedBy(a, j);
        }
      }
    }
  }

  lemma {:induction false} KeyedIs(f: Finding)
    ensures Keyed(f) <==> Relevant(f) && Advisory(f.advisory) != ""
  {
  }

  lemma {:induction false} NamedBy(fs: seq<Finding>, i: nat)
    requires i < |fs| && Keyed(fs[i])
    ensures Named(fs, FindingKey(fs[i]))
  {
  }

  lemma {:induction false} FirstIsFitting(entries: map<Key, IndexEntry>, today: Date, fs: seq<Finding>, j: nat)
    requires j < |fs| && Keyed(fs[j]) && FirstOfKey(fs, j) && Acceptable(entries, today, fs, j)
    ensures Fitting(entries, today, FindingKey(fs[j]))
  {
    hide FindingKey, Severity, Advisory;
  }

  lemma {:induction false} StandInsHelp(entries: map<Key, IndexEntry>, today: Date, a: seq<Finding>, b: seq<Finding>)
    requires Clean(ScanAll(entries, today, a)) && forall i :: 0 <= i < |b| ==> Mendable(entries, today, a, b[i])
    ensures Clean(ScanAll(entries, today, a + FromAdvisories(StandIns(entries, today, b)) + b))
  {
    hide ScanAll, Acceptable, Mendable, StandIn, FromAdvisory;
    var more := FromAdvisories(StandIns(entries, today, b));
    var fs := a + more + b;
    ScanCleanExactly(entries, today, a);
    ScanCleanExactly(entries, today, fs);
    assert fs[..|a|] == a;
    forall n | 0 <= n < |fs| ensures Acceptable(entries, today, fs, n) {
      if n < |a| {
        AcceptablePrefix(entries, today, fs, |a|, n);
      } else if n < |a| + |more| {
        StandInSettled(entries, today, b[n - |a|]);
        SettledThere(entries, today, fs, n);
      } else {
        var i := n - |a| - |more|;
        StandInSettled(entries, today, b[i]);
        assert fs[n] == b[i] && fs[|a| + i] == FromAdvisory(StandIn(entries, today, b[i]));
        MendedThere(entries, today, fs, |a|, n, |a| + i);
      }
    }
  }

  lemma {:induction false} SettledThere(entries: map<Key, IndexEntry>, today: Date, fs: seq<Finding>, n: nat)
    requires n < |fs| && Settled(entries, today, fs[n])
    ensures Acceptable(entries, today, fs, n)
  {
    hide FindingKey, Severity, Grave, Advisory, Covered;
  }

  lemma {:induction false} MendedThere(entries: map<Key, IndexEntry>, today: Date, fs: seq<Finding>, k: nat, n: nat,
                                       m: nat)
    requires k <= n < |fs| && m < n && Mendable(entries, today, fs[..k], fs[n])
    requires Keyed(fs[n]) && Fitting(entries, today, FindingKey(fs[n])) ==>
               Keyed(fs[m]) && FindingKey(fs[m]) == FindingKey(fs[n])
    ensures Acceptable(entries, today, fs, n)
  {
    hide FindingKey, Severity, Grave, Advisory, Covered, Fitting;
    if Relevant(fs[n]) && Named(fs[..k], FindingKey(fs[n])) {
      var i :| 0 <= i < k && Keyed(fs[..k][i]) && FindingKey(fs[..k][i]) == FindingKey(fs[n]);
      assert fs[i] == fs[..k][i];
    }
  }
}
