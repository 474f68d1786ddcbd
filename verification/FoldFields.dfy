/** What each of the two distinct-vulnerability folds takes from a finding. */
module FoldFields {
  import opened Options
  import opened DistinctFolds

  /** Refuted or hardening. */
  ghost predicate NoVulnerability(v: Option<Validity>) {
    v.Some? && (v.value == FalsePositive || v.value == Hardening)
  }

  ghost predicate SettledBy(r: Option<Resolution>) {
    r.Some? && (r.value == Resolved || r.value == RiskAccepted)
  }

  /** The census drops by disposition on a layered report and by status on a plain one, and only a
  layered report can close what it counts. */
  ghost predicate CensusTakes(f: Finding, layered: bool, x: Item) {
    && x.key == f.key && (if f.severity.Absent? then x.sev == Informational else x.sev == f.severity)
    && (if layered then !NoVulnerability(f.disposition.validity) && (x.open <==> !SettledBy(f.disposition.resolution))
        else !NoVulnerability(f.status) && x.open)
  }

  lemma {:induction false} CensusItemsExact(r: Report, n: nat, x: Item)
    requires n <= |r.findings|
    ensures x in CensusItems(r, n) <==> exists i :: 0 <= i < n && CensusTakes(r.findings[i], r.layered, x)
  {
    if n > 0 {
      CensusItemsExact(r, n - 1, x);
      CensusTakesExact(r.findings[n - 1], r.layered, x);
      assert r.findings[n - 1] == r.findings[n - 1];
    }
  }

  lemma CensusTakesExact(f: Finding, layered: bool, x: Item)
    ensures CensusTakes(f, layered, x) <==> CensusCounts(f, layered) && x == CensusItem(f, layered)
  {
  }

  /** The summary drops by status where there is a disposition summary, and always by the disposition or,
  for want of one, the status; it keys by title what has no fingerprint, and any report can close. */
  ghost predicate SummaryTakes(f: Finding, dispositioned: bool, x: Item) {
    && x.key == (if f.key == "" then f.fallback else f.key)
    && (if f.severity.Absent? then x.sev == Informational else x.sev == f.severity)
    && !(dispositioned && NoVulnerability(f.status))
    && !NoVulnerability(if f.disposition.validity.None? then f.status else f.disposition.validity)
    && (x.open <==> !SettledBy(f.disposition.resolution))
  }

  lemma {:induction false} SummaryItemsExact(r: Report, n: nat, x: Item)
    requires n <= |r.findings|
    ensures x in SummaryItems(Parse(r, n)) <==> exists i :: 0 <= i < n && SummaryTakes(r.findings[i], r.dispositioned, x)
  {
    if n > 0 {
      SummaryItemsExact(r, n - 1, x);
      SummaryTakesExact(r.findings[n - 1], r.dispositioned, x);
      SummaryOneMore(r, n, x);
    }
  }

  lemma SummaryTakesExact(f: Finding, dispositioned: bool, x: Item)
    ensures SummaryTakes(f, dispositioned, x) <==> SummaryCounts(f, dispositioned) && x == SummaryItem(ParsedOf(f))
  {
  }

  lemma SummaryOneMore(r: Report, n: nat, x: Item)
    requires 0 < n <= |r.findings|
    ensures var f := r.findings[n - 1];
      x in SummaryItems(Parse(r, n)) <==>
        x in SummaryItems(Parse(r, n - 1)) || (SummaryCounts(f, r.dispositioned) && x == SummaryItem(ParsedOf(f)))
  {
    var before := Parse(r, n - 1);
    assert (before + [ParsedOf(r.findings[n - 1])])[..|before|] == before;
  }

  /** Four words are told apart; everything else ranks below them, and alike. */
  lemma SeverityOrderExact(s: Sev)
    ensures Rank(Critical) > Rank(High) > Rank(Medium) > Rank(Low) > Rank(Informational)
    ensures s !in {Critical, High, Medium, Low} ==> Rank(s) == Rank(Informational)
  {
  }
}
