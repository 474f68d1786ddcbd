/** What the insecure-pattern report takes from a finding, and how much of it is shown. */
module PatternFields {
  import opened Sorting
  import opened Text
  import opened Patterns

  /** A true code finding, at its path, under its first CWE if it has one. */
  ghost predicate Occupies(e: Entry, p: Place) {
    && !e.finding.falsePositive && e.finding.isCode
    && p.repo == e.repo && p.path == e.finding.path
    && (if |e.finding.cwes| > 0 then p.cwe == e.finding.cwes[0] else p.cwe == "CWE-0")
  }

  lemma {:induction false} PlacesExact(log: seq<Entry>, p: Place)
    ensures p in Places(log) <==> exists e :: e in log && Occupies(e, p)
  {
    if log != [] {
      var init, last := log[..|log| - 1], log[|log| - 1];
      assert log == init + [last];
      PlacesExact(init, p);
      assert Occupies(last, p) <==> Counts(last) && p == PlaceOf(last);
    }
  }

  const GRADES: seq<string> := ["critical", "high", "medium", "low", "informational"]

  lemma RankExact(word: string)
    ensures forall i :: 0 <= i < |GRADES| ==> SeverityRank(GRADES[i]) == i
    ensures word !in GRADES ==> SeverityRank(word) == 5
  {
    GradesByPlace();
  }

  lemma GradesByPlace()
    ensures |GRADES| == 5
    ensures GRADES[0] == "critical" && GRADES[1] == "high" && GRADES[2] == "medium" && GRADES[3] == "low"
    ensures GRADES[4] == "informational"
  {
    assert |GRADES[0]| == 8 && |GRADES[1]| == 4 && |GRADES[2]| == 6 && |GRADES[3]| == 3 && |GRADES[4]| == 13;
  }

  /** An example shows where its finding is, ranked by severity whatever the case, the lowest if none is
  given, and behind all those if the word is another one. */
  lemma ExampleExact(e: Entry)
    ensures var ex := ExampleOf(e);
      && ex.repo == e.repo && ex.path == e.finding.path
      && (e.finding.severity == "" ==> ex.rank == 4)
      && (e.finding.severity != "" && Lower(e.finding.severity) !in GRADES ==> ex.rank == 5)
      && (e.finding.severity != "" ==> forall i :: 0 <= i < |GRADES| && Lower(e.finding.severity) == GRADES[i] ==> ex.rank == i)
  {
    GradesByPlace();
    RankExact(Word(e.finding));
    assert e.finding.severity == "" ==> Word(e.finding) == GRADES[4];
  }

  /** Forty examples are held and twelve shown, or all there are. */
  lemma {:induction false} ShownExact(p: Pattern, shown: seq<Example>, log: seq<Entry>, cwe: string)
    requires Faithful(p, log, cwe) && KSmallest(RanksOf(shown), Ranks(log, cwe), PUBLISHED)
    ensures |p.examples| == if p.occurrences < 40 then p.occurrences else 40
    ensures |shown| == if p.occurrences < 12 then p.occurrences else 12
  {
    RanksOfSize(p.examples);
    RanksOfSize(shown);
  }

  /** The gravest are shown first, and those of one rank by repo. */
  lemma ShownOrder(shown: seq<Example>, i: nat, j: nat)
    requires SortedBy(shown, ExampleOrder) && i < j < |shown|
    ensures shown[i].rank <= shown[j].rank && (shown[i].rank == shown[j].rank ==> LexLe(shown[i].repo, shown[j].repo))
  {
    assert ExampleOrder(shown[i], shown[j]);
  }

  /** The reports are read in order, and each finding of each once. */
  lemma {:induction false} EntriesExact(r: Report, n: nat)
    requires n <= |r.findings|
    ensures |EntriesOf(r, n)| == n
    ensures forall i :: 0 <= i < n ==> EntriesOf(r, n)[i].repo == r.repo && EntriesOf(r, n)[i].finding == r.findings[i]
  {
    if n > 0 {
      EntriesExact(r, n - 1);
    }
  }
}
