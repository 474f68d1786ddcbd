/** The two "distinct vulnerability" headlines: the census fold of build_census.py and the
executive-summary fold of build_executive_summary.py, over the reports of one ownership tree. */
module DistinctFolds {
  import opened Options
  import opened Sorting

  datatype Sev = Critical | High | Medium | Low | Informational | Absent | Word(word: string)

  function Rank(s: Sev): nat {
    match s
    case Critical => 4
    case High => 3
    case Medium => 2
    case Low => 1
    case _ => 0
  }

  datatype Validity = FalsePositive | Hardening | OtherValidity(word: string)
  datatype Resolution = Resolved | RiskAccepted | OtherResolution(word: string)

  /** A disposition block; a finding without one has neither part. */
  datatype Disposition = Disposition(validity: Option<Validity>, resolution: Option<Resolution>)

  /** `key` is the fingerprint, given or computed; `fallback` the summary's title identity. */
  datatype Finding = Finding(key: string, fallback: string, severity: Sev, status: Option<Validity>, disposition: Disposition)

  /** The census goes by the kind of artifact it reads, `layered`; the summary by whether that carries a
  disposition summary, `dispositioned`. */
  datatype Report = Report(layered: bool, dispositioned: bool, findings: seq<Finding>)

  predicate Dropped(v: Option<Validity>) {
    v == Some(FalsePositive) || v == Some(Hardening)
  }

  predicate ClosedBy(r: Option<Resolution>) {
    r == Some(Resolved) || r == Some(RiskAccepted)
  }

  // ---------- a distinct entry ----------

  datatype Entry = Entry(sev: Sev, open: bool)
  type Distinct = map<string, Entry>
  datatype Item = Item(key: string, sev: Sev, open: bool)

  function Shown(s: Sev): Sev {
    if s == Absent then Informational else s
  }

  function Merge(d: Distinct, x: Item): Distinct {
    var e := if x.key in d then d[x.key] else Entry(x.sev, false);
    d[x.key := Entry(if Rank(x.sev) > Rank(e.sev) then x.sev else e.sev, e.open || x.open)]
  }

  ghost function Folded(items: seq<Item>): Distinct {
    if items == [] then map[] else Merge(Folded(items[..|items| - 1]), items[|items| - 1])
  }

  // ---------- the census ----------

  /** build_census.py's `classify`: only the disposition counts on a layered report, only the
  validation status on a plain one. */
  function Classify(f: Finding, layered: bool): (Option<Validity>, Option<Resolution>) {
    if layered then (f.disposition.validity, f.disposition.resolution)
    else (if Dropped(f.status) then f.status else None, None)
  }

  ghost function CensusItems(r: Report, n: nat): seq<Item>
    requires n <= |r.findings|
  {
    if n == 0 then []
    else
      var f, before := r.findings[n - 1], CensusItems(r, n - 1);
      var (validity, resolution) := Classify(f, r.layered);
      if Dropped(validity) then before else before + [Item(f.key, Shown(f.severity), !ClosedBy(resolution))]
  }

  ghost function AllCensusItems(reports: seq<Report>): seq<Item> {
    if reports == [] then []
    else
      var r := reports[|reports| - 1];
      AllCensusItems(reports[..|reports| - 1]) + CensusItems(r, |r.findings|)
  }

  method CensusReport(r: Report, d: Distinct, ghost before: seq<Item>) returns (distinct: Distinct)
    requires d == Folded(before)
    ensures distinct == Folded(before + CensusItems(r, |r.findings|))
  {
    distinct := d;
    assert before + [] == before;
    for i := 0 to |r.findings|
      invariant distinct == Folded(before + CensusItems(r, i))
    {
      var f := r.findings[i];
      var (validity, resolution) := Classify(f, r.layered);
      if Dropped(validity) {
        continue;
      }
      var sev := Shown(f.severity);
      FoldedSnoc(before, CensusItems(r, i), Item(f.key, sev, !ClosedBy(resolution)));
      var entry := if f.key in distinct then distinct[f.key] else Entry(sev, false);
      if Rank(sev) > Rank(entry.sev) {
        entry := entry.(sev := sev);
      }
      if !ClosedBy(resolution) {
        entry := entry.(open := true);
      }
      distinct := distinct[f.key := entry];
    }
  }

  lemma FoldedSnoc(before: seq<Item>, own: seq<Item>, x: Item)
    ensures Folded(before + (own + [x])) == Merge(Folded(before + own), x)
  {
    var all := before + (own + [x]);
    assert all[..|all| - 1] == before + own;
  }

  /** The HEAD fold of `run_census`. */
  method CensusFold(reports: seq<Report>) returns (distinct: Distinct)
    ensures distinct == Folded(AllCensusItems(reports))
  {
    distinct := map[];
    for i := 0 to |reports|
      invariant distinct == Folded(AllCensusItems(reports[..i]))
    {
      assert reports[..i + 1][..i] == reports[..i];
      distinct := CensusReport(reports[i], distinct, AllCensusItems(reports[..i]));
    }
    assert reports[..|reports|] == reports;
  }

  // ---------- the executive summary ----------

  /** A finding as `parse_json_report` leaves it. */
  datatype Parsed = Parsed(key: string, fallback: string, severity: Sev, status: Option<Validity>, resolution: Option<Resolution>)

  function ParsedOf(f: Finding): Parsed {
    Parsed(f.key, f.fallback, f.severity,
           if f.disposition.validity.Some? then f.disposition.validity else f.status, f.disposition.resolution)
  }

  ghost function Parse(r: Report, n: nat): seq<Parsed>
    requires n <= |r.findings|
  {
    if n == 0 then []
    else
      var f, before := r.findings[n - 1], Parse(r, n - 1);
      if r.dispositioned && Dropped(f.status) then before else before + [ParsedOf(f)]
  }

  method ParseReport(r: Report) returns (parsed: seq<Parsed>)
    ensures parsed == Parse(r, |r.findings|)
  {
    parsed := [];
    for i := 0 to |r.findings|
      invariant parsed == Parse(r, i)
    {
      if r.dispositioned && Dropped(r.findings[i].status) {
        continue;
      }
      parsed := parsed + [ParsedOf(r.findings[i])];
    }
  }

  function SummaryKey(p: Parsed): string {
    if p.key != "" then p.key else p.fallback
  }

  function SummaryItem(p: Parsed): Item {
    Item(SummaryKey(p), Shown(p.severity), !ClosedBy(p.resolution))
  }

  ghost function SummaryItems(parsed: seq<Parsed>): seq<Item> {
    if parsed == [] then []
    else
      var p, before := parsed[|parsed| - 1], SummaryItems(parsed[..|parsed| - 1]);
      if Dropped(p.status) then before else before + [SummaryItem(p)]
  }

  ghost function AllSummaryItems(reports: seq<Report>): seq<Item> {
    if reports == [] then []
    else
      var r := reports[|reports| - 1];
      AllSummaryItems(reports[..|reports| - 1]) + SummaryItems(Parse(r, |r.findings|))
  }

  /** One counted finding of the summary. */
  method Count(d: Distinct, p: Parsed) returns (distinct: Distinct)
    ensures distinct == Merge(d, SummaryItem(p))
  {
    var key := SummaryKey(p);
    var e := if key in d then d[key] else Entry(Shown(p.severity), false);
    if Rank(p.severity) > Rank(e.sev) {
      e := e.(sev := p.severity);
    }
    if !ClosedBy(p.resolution) {
      e := e.(open := true);
    }
    distinct := d[key := e];
  }

  method SummaryReport(parsed: seq<Parsed>, d: Distinct, ghost before: seq<Item>) returns (distinct: Distinct)
    requires d == Folded(before)
    ensures distinct == Folded(before + SummaryItems(parsed))
  {
    distinct := d;
    assert before + [] == before;
    for i := 0 to |parsed|
      invariant distinct == Folded(before + SummaryItems(parsed[..i]))
    {
      var p := parsed[i];
      assert parsed[..i + 1][..i] == parsed[..i];
      if Dropped(p.status) {
        continue;
      }
      FoldedSnoc(before, SummaryItems(parsed[..i]), SummaryItem(p));
      distinct := Count(distinct, p);
    }
    assert parsed[..|parsed|] == parsed;
  }

  /** `distinct_metrics` over the parsed HEAD reports. */
  method SummaryFold(reports: seq<Report>) returns (distinct: Distinct)
    ensures distinct == Folded(AllSummaryItems(reports))
  {
    distinct := map[];
    for i := 0 to |reports|
      invariant distinct == Folded(AllSummaryItems(reports[..i]))
    {
      assert reports[..i + 1][..i] == reports[..i];
      var parsed := ParseReport(reports[i]);
      distinct := SummaryReport(parsed, distinct, AllSummaryItems(reports[..i]));
    }
    assert reports[..|reports|] == reports;
  }

  // ---------- where they agree ----------

  predicate CensusCounts(f: Finding, layered: bool) {
    !Dropped(Classify(f, layered).0)
  }

  predicate SummaryCounts(f: Finding, dispositioned: bool) {
    !(dispositioned && Dropped(f.status)) && !Dropped(ParsedOf(f).status)
  }

  function CensusItem(f: Finding, layered: bool): Item {
    Item(f.key, Shown(f.severity), !ClosedBy(Classify(f, layered).1))
  }

  /** The metadata discipline the two tools rely on. A layered report may drop by validation status
  only what its disposition drops too, or overrules where the summary reads dispositions alone; a
  plain report's disposition block, if any, repeats the status, or is not asked for a drop the
  summary has already made. */
  predicate Mirrored(f: Finding, layered: bool, dispositioned: bool) {
    var validity := f.disposition.validity;
    if layered then Dropped(f.status) ==> Dropped(validity) || (validity.Some? && !dispositioned)
    else validity.Some? ==> if Dropped(f.status) then dispositioned || Dropped(validity) else !Dropped(validity)
  }

  /** Both count a finding or both drop it exactly when its metadata is mirrored. */
  lemma InclusionExact(f: Finding, layered: bool, dispositioned: bool)
    ensures CensusCounts(f, layered) == SummaryCounts(f, dispositioned) <==> Mirrored(f, layered, dispositioned)
  {
  }

  /** And a finding both count is the same entry to both exactly when it is fingerprinted (or its
  fallback is blank too) and no plain report closes it. */
  lemma ItemExact(f: Finding, layered: bool, dispositioned: bool)
    requires CensusCounts(f, layered) && SummaryCounts(f, dispositioned)
    ensures CensusItem(f, layered) == SummaryItem(ParsedOf(f)) <==>
      (f.key != "" || f.fallback == "") && (layered || !ClosedBy(f.disposition.resolution))
  {
  }

  ghost predicate Disciplined(r: Report) {
    forall i :: 0 <= i < |r.findings| ==>
      && Mirrored(r.findings[i], r.layered, r.dispositioned) && r.findings[i].key != ""
      && (r.layered || !ClosedBy(r.findings[i].disposition.resolution))
  }

  lemma {:induction false} ReportAgrees(r: Report, n: nat)
    requires Disciplined(r) && n <= |r.findings|
    ensures CensusItems(r, n) == SummaryItems(Parse(r, n))
  {
    if n > 0 {
      ReportAgrees(r, n - 1);
      var f := r.findings[n - 1];
      InclusionExact(f, r.layered, r.dispositioned);
      var before := Parse(r, n - 1);
      if !(r.dispositioned && Dropped(f.status)) {
        assert (before + [ParsedOf(f)])[..|before|] == before;
        if CensusCounts(f, r.layered) {
          ItemExact(f, r.layered, r.dispositioned);
        }
      }
    }
  }

  lemma {:induction false} ItemsAgree(reports: seq<Report>)
    requires forall i :: 0 <= i < |reports| ==> Disciplined(reports[i])
    ensures AllCensusItems(reports) == AllSummaryItems(reports)
  {
    if reports != [] {
      ItemsAgree(reports[..|reports| - 1]);
      ReportAgrees(reports[|reports| - 1], |reports[|reports| - 1].findings|);
    }
  }

  // ---------- headlines ----------

  function Total(d: Distinct): nat { |d| }
  function OpenCount(d: Distinct): nat { |set k | k in d && d[k].open| }
  function BySeverity(d: Distinct, s: Sev): nat { |set k | k in d && d[k].sev == s| }
  function OpenBySeverity(d: Distinct, s: Sev): nat { |set k | k in d && d[k].open && d[k].sev == s| }

  /** The two headlines can not diverge on disciplined reports: same vulnerabilities, same severity
  and same open state each, hence the same total, open and per-severity counts. */
  lemma HeadlinesAgree(reports: seq<Report>)
    requires forall i :: 0 <= i < |reports| ==> Disciplined(reports[i])
    ensures var c, s := Folded(AllCensusItems(reports)), Folded(AllSummaryItems(reports));
      && c == s && Total(c) == Total(s) && OpenCount(c) == OpenCount(s)
      && forall v :: BySeverity(c, v) == BySeverity(s, v) && OpenBySeverity(c, v) == OpenBySeverity(s, v)
  {
    ItemsAgree(reports);
  }

  predicate Vocabulary(s: Sev) {
    !s.Absent? && !s.Word?
  }

  /** What an entry says of the items under its key: that there are some, the gravest severity among
  them, and whether any is open. */
  ghost predicate Summarises(d: Distinct, items: seq<Item>, key: string) {
    && (key in d <==> exists x :: x in items && x.key == key)
    && (key in d ==>
          && (exists x :: x in items && x.key == key && x.sev == d[key].sev)
          && (forall x :: x in items && x.key == key ==> Rank(x.sev) <= Rank(d[key].sev))
          && (d[key].open <==> exists x :: x in items && x.key == key && x.open))
  }

  lemma {:induction false} FoldedSummarises(items: seq<Item>, key: string)
    ensures Summarises(Folded(items), items, key)
  {
    if items != [] {
      var init, last := items[..|items| - 1], items[|items| - 1];
      assert items == init + [last];
      FoldedSummarises(init, key);
      SummarisesSnoc(Folded(init), init, last, key);
    }
  }

  lemma SummarisesSnoc(d: Distinct, items: seq<Item>, last: Item, key: string)
    requires Summarises(d, items, key)
    ensures Summarises(Merge(d, last), items + [last], key)
  {
    var all := items + [last];
    assert last in all && forall x :: x in items ==> x in all;
    assert forall x :: x in all ==> x in items || x == last;
  }

  lemma RankIdentifies(a: Sev, b: Sev)
    requires Rank(a) == Rank(b) > 0
    ensures a == b
  {
  }

  /** Under this key either a ranked severity occurs or only one severity does. */
  ghost predicate SeverityFixed(items: seq<Item>, key: string) {
    || (exists x :: x in items && x.key == key && Rank(x.sev) > 0)
    || forall x, y :: x in items && y in items && x.key == key && y.key == key ==> x.sev == y.sev
  }

  ghost predicate SeveritiesFixed(items: seq<Item>) {
    forall key :: SeverityFixed(items, key)
  }

  /** Then the fold depends only on which items occur. */
  lemma FoldIgnoresOrderAndRepeats(a: seq<Item>, b: seq<Item>)
    requires forall x :: x in a <==> x in b
    requires SeveritiesFixed(a)
    ensures Folded(a) == Folded(b)
  {
    forall key
      ensures key in Folded(a) <==> key in Folded(b)
      ensures key in Folded(a) ==> Folded(a)[key] == Folded(b)[key]
    {
      FoldedSummarises(a, key);
      FoldedSummarises(b, key);
      assert SeverityFixed(a, key);
      if key in Folded(a) {
        var x :| x in a && x.key == key && x.sev == Folded(a)[key].sev;
        var y :| y in b && y.key == key && y.sev == Folded(b)[key].sev;
        if Rank(x.sev) > 0 {
          RankIdentifies(x.sev, y.sev);
        }
      }
    }
  }

  /** Where nothing under a key is ranked, the first severity to arrive is the one kept. */
  lemma {:induction false} FirstKept(x: Item, rest: seq<Item>)
    requires Rank(x.sev) == 0 && forall y :: y in rest && y.key == x.key ==> Rank(y.sev) == 0
    ensures var d := Folded([x] + rest); x.key in d && d[x.key].sev == x.sev
  {
    if rest == [] {
      assert [x] + [] == [x] && [x][..0] == [] && Folded([]) == map[];
    } else {
      var init, last := rest[..|rest| - 1], rest[|rest| - 1];
      assert rest == init + [last];
      FirstKept(x, init);
      assert ([x] + rest)[..|rest|] == [x] + init;
    }
  }

  lemma ReorderedFoldsDiffer(items: seq<Item>, key: string) returns (p: seq<Item>, q: seq<Item>)
    requires !SeverityFixed(items, key)
    ensures multiset(p) == multiset(items) == multiset(q) && Folded(p) != Folded(q)
  {
    var x, y :| x in items && y in items && x.key == key && y.key == key && x.sev != y.sev;
    var rest := Pull(items, x);
    FirstKept(x, rest);
    p := [x] + rest;
    rest := Pull(items, y);
    FirstKept(y, rest);
    q := [y] + rest;
    assert Folded(p)[key].sev != Folded(q)[key].sev;
  }

  /** Every reordering folds alike exactly when, under each key, a ranked severity occurs or only one
  severity does. */
  lemma FoldOrderExact(items: seq<Item>)
    ensures (forall p :: multiset(p) == multiset(items) ==> Folded(p) == Folded(items)) <==> SeveritiesFixed(items)
  {
    if SeveritiesFixed(items) {
      forall p | multiset(p) == multiset(items)
        ensures Folded(p) == Folded(items)
      {
        PermutationMembers(p, items);
        FoldIgnoresOrderAndRepeats(items, p);
      }
    } else {
      var key :| !SeverityFixed(items, key);
      var p, q := ReorderedFoldsDiffer(items, key);
      assert multiset(p) == multiset(items) && multiset(q) == multiset(items);
    }
  }

  /** Vocabulary severities leave no choice: only the lowest is unranked. */
  lemma VocabularyIsFixed(items: seq<Item>)
    requires forall x :: x in items ==> Vocabulary(x.sev)
    ensures SeveritiesFixed(items)
  {
    forall key
      ensures SeverityFixed(items, key)
    {
      assert forall x :: x in items && Rank(x.sev) == 0 ==> x.sev == Informational;
    }
  }

  lemma {:induction false} AllCensusItemsMembers(reports: seq<Report>, x: Item)
    ensures x in AllCensusItems(reports) <==> exists r :: r in reports && x in CensusItems(r, |r.findings|)
  {
    if reports != [] {
      var init, last := reports[..|reports| - 1], reports[|reports| - 1];
      assert reports == init + [last];
      AllCensusItemsMembers(init, x);
      if r :| r in init && x in CensusItems(r, |r.findings|) {
        assert r in reports;
      }
      if x in CensusItems(last, |last.findings|) {
        assert last in reports;
      }
    }
  }

  lemma {:induction false} AllSummaryItemsMembers(reports: seq<Report>, x: Item)
    ensures x in AllSummaryItems(reports) <==> exists r :: r in reports && x in SummaryItems(Parse(r, |r.findings|))
  {
    if reports != [] {
      var init, last := reports[..|reports| - 1], reports[|reports| - 1];
      assert reports == init + [last];
      AllSummaryItemsMembers(init, x);
      if r :| r in init && x in SummaryItems(Parse(r, |r.findings|)) {
        assert r in reports;
      }
      if x in SummaryItems(Parse(last, |last.findings|)) {
        assert last in reports;
      }
    }
  }

  lemma {:induction false} CensusItemsInVocabulary(r: Report, n: nat)
    requires n <= |r.findings| && forall i :: 0 <= i < |r.findings| ==> !r.findings[i].severity.Word?
    ensures forall x :: x in CensusItems(r, n) ==> Vocabulary(x.sev)
  {
    if n > 0 {
      CensusItemsInVocabulary(r, n - 1);
    }
  }

  lemma {:induction false} SummaryItemsInVocabulary(parsed: seq<Parsed>)
    requires forall i :: 0 <= i < |parsed| ==> !parsed[i].severity.Word?
    ensures forall x :: x in SummaryItems(parsed) ==> Vocabulary(x.sev)
  {
    if parsed != [] {
      SummaryItemsInVocabulary(parsed[..|parsed| - 1]);
    }
  }

  /** The census of a set of reports, however they are ordered and however often each is met. */
  lemma CensusIgnoresOrderAndRepeats(a: seq<Report>, b: seq<Report>)
    requires forall r :: r in a <==> r in b
    requires SeveritiesFixed(AllCensusItems(a))
    ensures Folded(AllCensusItems(a)) == Folded(AllCensusItems(b))
  {
    forall x
      ensures x in AllCensusItems(a) <==> x in AllCensusItems(b)
    {
      AllCensusItemsMembers(a, x);
      AllCensusItemsMembers(b, x);
    }
    FoldIgnoresOrderAndRepeats(AllCensusItems(a), AllCensusItems(b));
  }

  /** And the executive summary of one. */
  lemma SummaryIgnoresOrderAndRepeats(a: seq<Report>, b: seq<Report>)
    requires forall r :: r in a <==> r in b
    requires SeveritiesFixed(AllSummaryItems(a))
    ensures Folded(AllSummaryItems(a)) == Folded(AllSummaryItems(b))
  {
    forall x
      ensures x in AllSummaryItems(a) <==> x in AllSummaryItems(b)
    {
      AllSummaryItemsMembers(a, x);
      AllSummaryItemsMembers(b, x);
    }
    FoldIgnoresOrderAndRepeats(AllSummaryItems(a), AllSummaryItems(b));
  }

  /** Reports whose severities are in the vocabulary, or absent, never depend on order in either. */
  lemma VocabularyReportsAreFixed(reports: seq<Report>)
    requires forall r, i :: r in reports && 0 <= i < |r.findings| ==> !r.findings[i].severity.Word?
    ensures SeveritiesFixed(AllCensusItems(reports)) && SeveritiesFixed(AllSummaryItems(reports))
  {
    forall x | x in AllCensusItems(reports)
      ensures Vocabulary(x.sev)
    {
      AllCensusItemsMembers(reports, x);
      var r :| r in reports && x in CensusItems(r, |r.findings|);
      CensusItemsInVocabulary(r, |r.findings|);
    }
    forall x | x in AllSummaryItems(reports)
      ensures Vocabulary(x.sev)
    {
      AllSummaryItemsMembers(reports, x);
      var r :| r in reports && x in SummaryItems(Parse(r, |r.findings|));
      ParsedSeverities(r, |r.findings|);
      SummaryItemsInVocabulary(Parse(r, |r.findings|));
    }
    VocabularyIsFixed(AllCensusItems(reports));
    VocabularyIsFixed(AllSummaryItems(reports));
  }

  lemma {:induction false} ParsedSeverities(r: Report, n: nat)
    requires n <= |r.findings| && forall i :: 0 <= i < |r.findings| ==> !r.findings[i].severity.Word?
    ensures forall i :: 0 <= i < |Parse(r, n)| ==> !Parse(r, n)[i].severity.Word?
  {
    if n > 0 {
      ParsedSeverities(r, n - 1);
    }
  }

  const WORDED := Item("k", Word("none"), true)
  const LOWEST := Item("k", Informational, true)

  /** Outside the vocabulary the first of two unranked words to arrive is the one kept. */
  lemma UnrankedSeverityDependsOnOrder()
    ensures Folded([WORDED, LOWEST]) == map["k" := Entry(Word("none"), true)]
    ensures Folded([LOWEST, WORDED]) == map["k" := Entry(Informational, true)]
    ensures multiset([WORDED, LOWEST]) == multiset([LOWEST, WORDED])
  {
    var x, y := WORDED, LOWEST;
    assert [x, y][..1] == [x] && [y, x][..1] == [y] && [x][..0] == [] && [y][..0] == [];
    assert Folded([x]) == map["k" := Entry(Word("none"), true)];
    assert Folded([y]) == map["k" := Entry(Informational, true)];
  }
}
