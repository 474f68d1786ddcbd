/** The insecure-pattern collector of build_insecure_patterns.py: occurrences counted once per place,
and a bounded buffer of examples that keeps the gravest. */
module Patterns {
  import opened Sorting
  import opened Text

  // ---------- the k smallest ----------

  /** `kept` holds as many of `all` as `k` allows, and nothing left out is smaller. */
  ghost predicate KSmallest(kept: multiset<nat>, all: multiset<nat>, k: nat) {
    && kept <= all
    && |kept| == (if |all| < k then |all| else k)
    && forall a, b :: a in kept && b in all - kept ==> a <= b
  }

  lemma KSmallestGrows(kept: multiset<nat>, all: multiset<nat>, k: nat, x: nat)
    requires KSmallest(kept, all, k) && |all| < k
    ensures KSmallest(kept + multiset{x}, all + multiset{x}, k)
  {
    SameSizeSame(kept, all);
  }

  lemma SameSizeSame(a: multiset<nat>, b: multiset<nat>)
    requires a <= b && |a| == |b|
    ensures a == b
  {
    assert b == a + (b - a);
    assert |b| == |a| + |b - a|;
    assert b - a == multiset{};
  }

  lemma KSmallestKeeps(kept: multiset<nat>, all: multiset<nat>, k: nat, x: nat, worst: nat)
    requires KSmallest(kept, all, k) && |all| >= k && worst in kept
    requires forall a :: a in kept ==> a <= worst
    ensures x >= worst ==> KSmallest(kept, all + multiset{x}, k)
    ensures x < worst ==> KSmallest(kept - multiset{worst} + multiset{x}, all + multiset{x}, k)
  {
    if x >= worst {
      assert all + multiset{x} - kept == (all - kept) + multiset{x};
    } else {
      var kept', all' := kept - multiset{worst} + multiset{x}, all + multiset{x};
      assert all' - kept' == (all - kept) + multiset{worst};
    }
  }

  lemma Precedes(a: multiset<nat>, b: multiset<nat>, all: multiset<nat>, k: nat, x: nat, y: nat)
    requires KSmallest(a, all, k) && KSmallest(b, all, k)
    requires a[x] > b[x] && b[y] > a[y]
    ensures x < y
  {
    assert x in a && y in all - a;
  }

  /** There is only one such multiset: of the examples offered, the order does not matter. */
  lemma KSmallestUnique(a: multiset<nat>, b: multiset<nat>, all: multiset<nat>, k: nat)
    requires KSmallest(a, all, k) && KSmallest(b, all, k)
    ensures a == b
  {
    if a <= b {
      SameSizeSame(a, b);
    } else if b <= a {
      SameSizeSame(b, a);
    } else {
      var x :| a[x] > b[x];
      var y :| b[y] > a[y];
      Precedes(a, b, all, k, x, y);
      Precedes(b, a, all, k, y, x);
    }
  }

  /** The smallest of the smallest. */
  lemma KSmallestNested(inner: multiset<nat>, kept: multiset<nat>, all: multiset<nat>, j: nat, k: nat)
    requires j <= k && KSmallest(inner, kept, j) && KSmallest(kept, all, k)
    ensures KSmallest(inner, all, j)
  {
    assert all - inner == (all - kept) + (kept - inner);
  }

  // ---------- findings and patterns ----------

  /** A reported finding, with the outcome of the code-finding heuristic. */
  datatype Listed = Listed(falsePositive: bool, isCode: bool, cwes: seq<string>, path: string, severity: string)

  /** The severity word counted, whatever it is; one left out counts as informational. */
  function Word(f: Listed): string {
    if f.severity == "" then "informational" else Lower(f.severity)
  }

  function SeverityRank(word: string): nat {
    if word == "critical" then 0
    else if word == "high" then 1
    else if word == "medium" then 2
    else if word == "low" then 3
    else if word == "informational" then 4
    else 5
  }

  datatype Example = Example(rank: nat, repo: string, path: string)

  datatype Pattern = Pattern(repos: set<string>, occurrences: nat, sev: multiset<string>, examples: seq<Example>)

  datatype Stats = Stats(reports: nat, total: nat, code: nat, droppedConfig: nat, droppedFp: nat)

  datatype Report = Report(repo: string, findings: seq<Listed>)
  datatype Entry = Entry(repo: string, finding: Listed)
  datatype Place = Place(repo: string, cwe: string, path: string)

  const BUFFER := 40
  const PUBLISHED := 12

  function Primary(f: Listed): string {
    if f.cwes == [] then "CWE-0" else f.cwes[0]
  }

  function PlaceOf(e: Entry): Place {
    Place(e.repo, Primary(e.finding), e.finding.path)
  }

  predicate Counts(e: Entry) {
    !e.finding.falsePositive && e.finding.isCode
  }

  // ---------- what a history of findings amounts to ----------

  ghost function Places(log: seq<Entry>): set<Place> {
    if log == [] then {}
    else
      var e, before := log[|log| - 1], Places(log[..|log| - 1]);
      if Counts(e) then before + {PlaceOf(e)} else before
  }

  ghost predicate FirstAt(before: seq<Entry>, e: Entry, cwe: string) {
    Counts(e) && Primary(e.finding) == cwe && PlaceOf(e) !in Places(before)
  }

  /** Ranks of the first finding at each place of a CWE, in the order they came. */
  ghost function Ranks(log: seq<Entry>, cwe: string): multiset<nat> {
    if log == [] then multiset{}
    else
      var e, init := log[|log| - 1], log[..|log| - 1];
      if FirstAt(init, e, cwe) then Ranks(init, cwe) + multiset{SeverityRank(Word(e.finding))} else Ranks(init, cwe)
  }

  function ExampleOf(e: Entry): Example {
    Example(SeverityRank(Word(e.finding)), e.repo, e.finding.path)
  }

  /** The first finding at each place of a CWE, as it would be shown. */
  ghost function Firsts(log: seq<Entry>, cwe: string): multiset<Example> {
    if log == [] then multiset{}
    else
      var e, init := log[|log| - 1], log[..|log| - 1];
      if FirstAt(init, e, cwe) then Firsts(init, cwe) + multiset{ExampleOf(e)} else Firsts(init, cwe)
  }

  ghost function Severities(log: seq<Entry>, cwe: string): multiset<string> {
    if log == [] then multiset{}
    else
      var e, init := log[|log| - 1], log[..|log| - 1];
      if FirstAt(init, e, cwe) then Severities(init, cwe) + multiset{Word(e.finding)} else Severities(init, cwe)
  }

  ghost function PlacesFor(places: set<Place>, cwe: string): set<Place> {
    set p | p in places && p.cwe == cwe
  }

  ghost function ReposFor(places: set<Place>, cwe: string): set<string> {
    set p | p in places && p.cwe == cwe :: p.repo
  }

  function RanksOf(examples: seq<Example>): multiset<nat> {
    if examples == [] then multiset{}
    else RanksOf(examples[..|examples| - 1]) + multiset{examples[|examples| - 1].rank}
  }

  /** What the report of one CWE must say of the history so far. */
  ghost predicate Faithful(p: Pattern, log: seq<Entry>, cwe: string) {
    && p.occurrences == |PlacesFor(Places(log), cwe)| == |Ranks(log, cwe)| == |p.sev|
    && p.sev == Severities(log, cwe)
    && multiset(p.examples) <= Firsts(log, cwe)
    && p.repos == ReposFor(Places(log), cwe)
    && KSmallest(RanksOf(p.examples), Ranks(log, cwe), BUFFER)
  }

  const EMPTY := Pattern({}, 0, multiset{}, [])

  lemma EmptyIsFaithful(log: seq<Entry>, cwe: string)
    requires log == []
    ensures Faithful(EMPTY, log, cwe)
  {
    assert Ranks(log, cwe) == multiset{};
    assert forall p :: p in Places(log) && p.cwe == cwe ==> p in PlacesFor(Places(log), cwe);
    assert ReposFor(Places(log), cwe) == {};
  }

  // ---------- the bounded buffer ----------

  function WorstFrom(examples: seq<Example>, i: nat): (w: nat)
    requires i < |examples|
    ensures i <= w < |examples|
    decreases |examples| - i
  {
    if i == |examples| - 1 then i
    else
      var w := WorstFrom(examples, i + 1);
      if examples[i].rank >= examples[w].rank then i else w
  }

  lemma {:induction false} WorstIsFirstMaximum(examples: seq<Example>, i: nat)
    requires i < |examples|
    ensures var w := WorstFrom(examples, i);
      i <= w < |examples| && forall j :: i <= j < |examples| ==>
        examples[j].rank <= examples[w].rank && (j < w ==> examples[j].rank < examples[w].rank)
    decreases |examples| - i
  {
    if i < |examples| - 1 {
      WorstIsFirstMaximum(examples, i + 1);
    }
  }

  lemma ReplaceOne(m: multiset<nat>, n: multiset<nat>, out: nat, into: nat)
    ensures m + multiset{into} + n == (m + multiset{out} + n) - multiset{out} + multiset{into}
  {
  }

  lemma MinusLeft(m: multiset<nat>, n: multiset<nat>)
    ensures (m + n) - m == n
  {
  }

  lemma RanksOfMiddle(l: seq<Example>, x: Example, r: seq<Example>)
    ensures RanksOf(l + [x] + r) == RanksOf(l) + multiset{x.rank} + RanksOf(r)
  {
    RanksOfConcat(l + [x], r);
    RanksOfSnoc(l, x);
  }

  lemma RanksOfUpdate(examples: seq<Example>, i: nat, ex: Example)
    requires i < |examples|
    ensures RanksOf(examples[i := ex]) == RanksOf(examples) - multiset{examples[i].rank} + multiset{ex.rank}
  {
    var l, x, r := examples[..i], examples[i], examples[i + 1..];
    assert examples == l + [x] + r && examples[i := ex] == l + [ex] + r;
    RanksOfMiddle(l, x, r);
    RanksOfMiddle(l, ex, r);
    ReplaceOne(RanksOf(l), RanksOf(r), x.rank, ex.rank);
  }

  lemma {:induction false} RanksOfMembers(examples: seq<Example>, r: nat)
    ensures r in RanksOf(examples) <==> exists i :: 0 <= i < |examples| && examples[i].rank == r
  {
    if examples != [] {
      var init := examples[..|examples| - 1];
      RanksOfMembers(init, r);
      if i :| 0 <= i < |init| && init[i].rank == r {
        assert examples[i].rank == r;
      }
      if i :| 0 <= i < |examples| && examples[i].rank == r {
        assert i < |init| ==> init[i].rank == r;
      }
    }
  }

  lemma RanksOfSnoc(examples: seq<Example>, ex: Example)
    ensures RanksOf(examples + [ex]) == RanksOf(examples) + multiset{ex.rank}
  {
    assert (examples + [ex])[..|examples|] == examples;
  }

  /** Keep the example if there is room, or in place of the first of the least grave ones. */
  function Offered(examples: seq<Example>, ex: Example): seq<Example> {
    if |examples| < BUFFER then examples + [ex]
    else
      var worst := WorstFrom(examples, 0);
      if ex.rank < examples[worst].rank then examples[worst := ex] else examples
  }

  lemma OfferedKeepsSmallest(examples: seq<Example>, ex: Example, all: multiset<nat>)
    requires KSmallest(RanksOf(examples), all, BUFFER)
    ensures KSmallest(RanksOf(Offered(examples, ex)), all + multiset{ex.rank}, BUFFER)
  {
    RanksOfSize(examples);
    if |examples| < BUFFER {
      RanksOfSnoc(examples, ex);
      KSmallestGrows(RanksOf(examples), all, BUFFER, ex.rank);
    } else {
      var worst := WorstFrom(examples, 0);
      WorstIsFirstMaximum(examples, 0);
      forall a | a in RanksOf(examples)
        ensures a <= examples[worst].rank
      {
        RanksOfMembers(examples, a);
      }
      RanksOfUpdate(examples, worst, ex);
      RanksOfMembers(examples, examples[worst].rank);
      KSmallestKeeps(RanksOf(examples), all, BUFFER, ex.rank, examples[worst].rank);
    }
  }

  /** Nothing enters the buffer but what was offered, and nothing twice. */
  lemma OfferedIsGenuine(examples: seq<Example>, ex: Example, all: multiset<Example>)
    requires multiset(examples) <= all
    ensures multiset(Offered(examples, ex)) <= all + multiset{ex}
  {
    if |examples| >= BUFFER {
      var worst := WorstFrom(examples, 0);
      assert multiset(examples[worst := ex]) == multiset(examples) - multiset{examples[worst]} + multiset{ex};
    }
  }

  // ---------- the collector ----------

  ghost function Occurrences(log: seq<Entry>, p: Entry -> bool): nat {
    if log == [] then 0 else Occurrences(log[..|log| - 1], p) + (if p(log[|log| - 1]) then 1 else 0)
  }

  function IsFalse(): Entry -> bool { (e: Entry) => e.finding.falsePositive }
  function IsConfig(): Entry -> bool { (e: Entry) => !e.finding.falsePositive && !e.finding.isCode }
  function IsCounted(): Entry -> bool { (e: Entry) => Counts(e) }

  /** Every finding is a false positive, a configuration drop or a code finding. */
  ghost predicate Tallied(s: Stats, log: seq<Entry>) {
    && s.total == |log| == s.droppedFp + s.droppedConfig + s.code
    && s.droppedFp == Occurrences(log, IsFalse())
    && s.droppedConfig == Occurrences(log, IsConfig())
    && s.code == Occurrences(log, IsCounted())
  }

  function Counted(s: Stats, e: Entry): Stats {
    var t := s.(total := s.total + 1);
    if e.finding.falsePositive then t.(droppedFp := t.droppedFp + 1)
    else if !e.finding.isCode then t.(droppedConfig := t.droppedConfig + 1)
    else t.(code := t.code + 1)
  }

  ghost function StatsOf(log: seq<Entry>): Stats {
    if log == [] then Stats(0, 0, 0, 0, 0) else Counted(StatsOf(log[..|log| - 1]), log[|log| - 1])
  }

  lemma {:induction false} StatsAreTallied(log: seq<Entry>)
    ensures Tallied(StatsOf(log), log) && StatsOf(log).reports == 0
  {
    if log != [] {
      StatsAreTallied(log[..|log| - 1]);
    }
  }

  function Of(patterns: map<string, Pattern>, cwe: string): Pattern {
    if cwe in patterns then patterns[cwe] else EMPTY
  }

  function With(p: Pattern, e: Entry): Pattern {
    Pattern(p.repos + {e.repo}, p.occurrences + 1, p.sev + multiset{Word(e.finding)},
            Offered(p.examples, ExampleOf(e)))
  }

  /** The per-CWE records after a history of findings. */
  ghost function PatternsOf(log: seq<Entry>): map<string, Pattern> {
    if log == [] then map[]
    else
      var e, init := log[|log| - 1], log[..|log| - 1];
      var cwe, before := Primary(e.finding), PatternsOf(init);
      if FirstAt(init, e, cwe) then before[cwe := With(Of(before, cwe), e)] else before
  }

  lemma PlacesGrow(places: set<Place>, p: Place, cwe: string)
    requires p !in places
    ensures PlacesFor(places + {p}, cwe) == if p.cwe == cwe then PlacesFor(places, cwe) + {p} else PlacesFor(places, cwe)
    ensures ReposFor(places + {p}, cwe) == if p.cwe == cwe then ReposFor(places, cwe) + {p.repo} else ReposFor(places, cwe)
  {
    assert p in places + {p};
    forall q | q in places && q.cwe == cwe
      ensures q.repo in ReposFor(places + {p}, cwe)
    {
      assert q in places + {p};
    }
  }

  lemma HistoryGrows(log: seq<Entry>, e: Entry, cwe: string)
    requires FirstAt(log, e, cwe)
    ensures Places(log + [e]) == Places(log) + {PlaceOf(e)}
    ensures Ranks(log + [e], cwe) == Ranks(log, cwe) + multiset{ExampleOf(e).rank}
    ensures Firsts(log + [e], cwe) == Firsts(log, cwe) + multiset{ExampleOf(e)}
    ensures Severities(log + [e], cwe) == Severities(log, cwe) + multiset{Word(e.finding)}
  {
    assert (log + [e])[..|log|] == log;
  }

  lemma OneMore<T>(m: multiset<T>, x: T)
    ensures |m + multiset{x}| == |m| + 1
  {
  }

  lemma OwnGrows(p: Pattern, log: seq<Entry>, e: Entry)
    requires Faithful(p, log, Primary(e.finding)) && FirstAt(log, e, Primary(e.finding))
    ensures Faithful(With(p, e), log + [e], Primary(e.finding))
  {
    var cwe := Primary(e.finding);
    HistoryGrows(log, e, cwe);
    PlacesGrow(Places(log), PlaceOf(e), cwe);
    assert PlaceOf(e) !in PlacesFor(Places(log), cwe);
    OneMore(Ranks(log, cwe), ExampleOf(e).rank);
    OneMore(p.sev, Word(e.finding));
    OfferedKeepsSmallest(p.examples, ExampleOf(e), Ranks(log, cwe));
    OfferedIsGenuine(p.examples, ExampleOf(e), Firsts(log, cwe));
  }

  lemma OtherStays(p: Pattern, log: seq<Entry>, e: Entry, cwe: string)
    requires Faithful(p, log, cwe) && !FirstAt(log, e, cwe)
    ensures Faithful(p, log + [e], cwe)
  {
    assert (log + [e])[..|log|] == log;
    if Counts(e) && PlaceOf(e) !in Places(log) {
      PlacesGrow(Places(log), PlaceOf(e), cwe);
    } else {
      assert Places(log + [e]) == Places(log);
    }
    assert Ranks(log + [e], cwe) == Ranks(log, cwe);
    assert Firsts(log + [e], cwe) == Firsts(log, cwe);
    assert Severities(log + [e], cwe) == Severities(log, cwe);
  }

  /** Whatever the order of the findings, each CWE's record is faithful to them: occurrences are its
  distinct places, and the buffer holds the gravest of their ranks. */
  lemma {:induction false} PatternsAreFaithful(log: seq<Entry>, cwe: string)
    ensures Faithful(Of(PatternsOf(log), cwe), log, cwe)
  {
    if log == [] {
      EmptyIsFaithful(log, cwe);
    } else {
      var init, e := log[..|log| - 1], log[|log| - 1];
      assert log == init + [e];
      PatternsAreFaithful(init, cwe);
      if FirstAt(init, e, cwe) {
        OwnGrows(Of(PatternsOf(init), cwe), init, e);
      } else {
        OtherStays(Of(PatternsOf(init), cwe), init, e, cwe);
        assert Of(PatternsOf(log), cwe) == Of(PatternsOf(init), cwe);
      }
    }
  }

  class Collector {
    var patterns: map<string, Pattern>
    var seenOcc: set<Place>
    var stats: Stats
    ghost var log: seq<Entry>

    ghost predicate Valid()
      reads this
    {
      patterns == PatternsOf(log) && seenOcc == Places(log) && stats == StatsOf(log).(reports := stats.reports)
    }

    constructor ()
      ensures Valid() && log == [] && stats.reports == 0
    {
      patterns, seenOcc, stats, log := map[], {}, Stats(0, 0, 0, 0, 0), [];
    }

    method Add(repo: string, f: Listed)
      requires Valid()
      modifies this
      ensures Valid() && log == old(log) + [Entry(repo, f)] && stats.reports == old(stats.reports)
    {
      var e := Entry(repo, f);
      assert (log + [e])[..|log|] == log;
      log := log + [e];
      stats := stats.(total := stats.total + 1);
      if f.falsePositive {
        stats := stats.(droppedFp := stats.droppedFp + 1);
        return;
      }
      if !f.isCode {
        stats := stats.(droppedConfig := stats.droppedConfig + 1);
        return;
      }
      stats := stats.(code := stats.code + 1);
      if PlaceOf(e) in seenOcc {
        return;
      }
      seenOcc := seenOcc + {PlaceOf(e)};
      patterns := patterns[Primary(f) := With(Of(patterns, Primary(f)), e)];
    }

    method AddReport(r: Report)
      requires Valid()
      modifies this
      ensures Valid() && log == old(log) + EntriesOf(r, |r.findings|) && stats.reports == old(stats.reports) + 1
    {
      stats := stats.(reports := stats.reports + 1);
      ghost var before := log;
      for j := 0 to |r.findings|
        invariant Valid() && log == before + EntriesOf(r, j) && stats.reports == old(stats.reports) + 1
      {
        Regroup(before, EntriesOf(r, j), [Entry(r.repo, r.findings[j])]);
        Add(r.repo, r.findings[j]);
      }
    }

    method AddAll(reports: seq<Report>)
      requires Valid() && log == [] && stats.reports == 0
      modifies this
      ensures Valid() && log == AllEntries(reports) && stats.reports == |reports|
    {
      for i := 0 to |reports|
        invariant Valid() && log == AllEntries(reports[..i]) && stats.reports == i
      {
        assert reports[..i + 1][..i] == reports[..i];
        AddReport(reports[i]);
      }
      assert reports[..|reports|] == reports;
    }
  }

  ghost function EntriesOf(r: Report, n: nat): seq<Entry>
    requires n <= |r.findings|
  {
    if n == 0 then [] else EntriesOf(r, n - 1) + [Entry(r.repo, r.findings[n - 1])]
  }

  ghost function AllEntries(reports: seq<Report>): seq<Entry> {
    if reports == [] then []
    else
      var r := reports[|reports| - 1];
      AllEntries(reports[..|reports| - 1]) + EntriesOf(r, |r.findings|)
  }

  /** `collect`, once the reports are parsed. */
  method Collect(reports: seq<Report>) returns (patterns: map<string, Pattern>, stats: Stats)
    ensures patterns == PatternsOf(AllEntries(reports))
    ensures stats.reports == |reports| && Tallied(stats, AllEntries(reports))
  {
    var c := new Collector();
    c.AddAll(reports);
    StatsAreTallied(c.log);
    return c.patterns, c.stats;
  }

  // ---------- what gets published ----------

  predicate ExampleOrder(a: Example, b: Example) {
    a.rank < b.rank || (a.rank == b.rank && LexLe(a.repo, b.repo))
  }

  lemma ExampleOrderTotal()
    ensures TotalPreorder(ExampleOrder)
  {
    forall a, b
      ensures ExampleOrder(a, b) || ExampleOrder(b, a)
    {
      LexTotal(a.repo, b.repo);
    }
    forall a, b, c | ExampleOrder(a, b) && ExampleOrder(b, c)
      ensures ExampleOrder(a, c)
    {
      if a.rank == b.rank == c.rank {
        LexTransitive(a.repo, b.repo, c.repo);
      }
    }
  }

  lemma RegroupCounts(a: multiset<nat>, b: multiset<nat>, c: multiset<nat>)
    ensures (a + b) + c == a + (b + c)
  {
  }

  lemma {:induction false} RanksOfConcat(a: seq<Example>, b: seq<Example>)
    ensures RanksOf(a + b) == RanksOf(a) + RanksOf(b)
  {
    if b == [] {
      assert a + b == a;
    } else {
      var init, last := b[..|b| - 1], b[|b| - 1];
      RanksOfConcat(a, init);
      assert b == init + [last];
      RanksOfLonger(a, init, last);
    }
  }

  lemma RanksOfLonger(a: seq<Example>, b: seq<Example>, x: Example)
    requires RanksOf(a + b) == RanksOf(a) + RanksOf(b)
    ensures RanksOf(a + (b + [x])) == RanksOf(a) + RanksOf(b + [x])
  {
    Regroup(a, b, [x]);
    RanksOfSnoc(a + b, x);
    RanksOfSnoc(b, x);
    RegroupCounts(RanksOf(a), RanksOf(b), multiset{x.rank});
  }

  lemma {:induction false} RanksOfSize(a: seq<Example>)
    ensures |RanksOf(a)| == |a|
  {
    if a != [] {
      RanksOfSize(a[..|a| - 1]);
    }
  }

  lemma HeadPrecedes(shown: seq<Example>, rest: seq<Example>, a: nat, b: nat)
    requires SortedBy(shown + rest, ExampleOrder) && a in RanksOf(shown) && b in RanksOf(rest)
    ensures a <= b
  {
    RanksOfMembers(shown, a);
    RanksOfMembers(rest, b);
    var i :| 0 <= i < |shown| && shown[i].rank == a;
    var j :| 0 <= j < |rest| && rest[j].rank == b;
    assert (shown + rest)[i] == shown[i] && (shown + rest)[|shown| + j] == rest[j];
  }

  lemma HeadIsSmallest(shown: seq<Example>, rest: seq<Example>)
    requires SortedBy(shown + rest, ExampleOrder) && (|shown| == PUBLISHED || (|shown| < PUBLISHED && rest == []))
    ensures KSmallest(RanksOf(shown), RanksOf(shown + rest), PUBLISHED)
  {
    RanksOfConcat(shown, rest);
    RanksOfSize(shown);
    RanksOfSize(rest);
    MinusLeft(RanksOf(shown), RanksOf(rest));
    forall a, b | a in RanksOf(shown) && b in RanksOf(rest)
      ensures a <= b
    {
      HeadPrecedes(shown, rest, a, b);
    }
  }

  /** Sorting the buffer and publishing its head shows the gravest examples of the whole history. */
  method Publish(p: Pattern, ghost log: seq<Entry>, ghost cwe: string) returns (shown: seq<Example>)
    requires Faithful(p, log, cwe)
    ensures KSmallest(RanksOf(shown), Ranks(log, cwe), PUBLISHED)
    ensures SortedBy(shown, ExampleOrder)
    ensures multiset(shown) <= multiset(p.examples) <= Firsts(log, cwe)
  {
    var sorted := Sort(p.examples, ExampleOrder);
    shown := if |sorted| <= PUBLISHED then sorted else sorted[..PUBLISHED];
    assert sorted == shown + sorted[|shown|..];
    HeadIsPublished(p.examples, shown, sorted[|shown|..], Ranks(log, cwe));
  }

  lemma HeadIsPublished(examples: seq<Example>, shown: seq<Example>, rest: seq<Example>, all: multiset<nat>)
    requires shown + rest == Sort(examples, ExampleOrder) && KSmallest(RanksOf(examples), all, BUFFER)
    requires |shown| == PUBLISHED || (|shown| < PUBLISHED && rest == [])
    ensures KSmallest(RanksOf(shown), all, PUBLISHED)
    ensures SortedBy(shown, ExampleOrder) && multiset(shown) <= multiset(examples)
  {
    ExampleOrderTotal();
    SortSorts(examples, ExampleOrder);
    HeadIsSmallest(shown, rest);
    PermutedRanks(shown + rest, examples);
    KSmallestNested(RanksOf(shown), RanksOf(examples), all, PUBLISHED, BUFFER);
    SplitCounts(examples, shown, rest);
    assert forall i :: 0 <= i < |shown| ==> (shown + rest)[i] == shown[i];
  }

  lemma RemoveMiddle(a: seq<Example>, l: seq<Example>, x: Example, r: seq<Example>)
    requires multiset(a + [x]) == multiset(l + [x] + r)
    ensures multiset(a) == multiset(l + r)
  {
    var m := multiset(l) + multiset(r);
    assert multiset(a) + multiset{x} == m + multiset{x};
    assert multiset(a) == (m + multiset{x}) - multiset{x} == m;
  }

  lemma {:induction false} PermutedRanks(a: seq<Example>, b: seq<Example>)
    requires multiset(a) == multiset(b)
    ensures RanksOf(a) == RanksOf(b)
    decreases |a|
  {
    if a == [] {
      assert |multiset(b)| == |b|;
    } else {
      var init, x := a[..|a| - 1], a[|a| - 1];
      assert a == init + [x];
      assert x in multiset(b);
      var i :| 0 <= i < |b| && b[i] == x;
      var l, r := b[..i], b[i + 1..];
      assert b == l + [x] + r;
      RemoveMiddle(init, l, x, r);
      PermutedRanks(init, l + r);
      RanksOfConcat(l, r);
      RanksOfMiddle(l, x, r);
    }
  }
}
