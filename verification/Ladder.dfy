/** The recall-benchmark matching ladder of match_benchmark.py. */
module Ladder {
  import opened Options
  import opened Collections

  // ---------- path overlap ----------

  function Ratio(part: nat, whole: nat): real {
    if whole == 0 then 0.0 else part as real / whole as real
  }

  function Jaccard(a: set<string>, b: set<string>): real {
    Ratio(|a * b|, |a + b|)
  }

  function Containment(cand: set<string>, expected: set<string>): real {
    Ratio(|cand * expected|, |expected|)
  }

  function PathScore(cand: set<string>, expected: set<string>): real {
    var j, c := Jaccard(cand, expected), Containment(cand, expected);
    if j >= c then j else c
  }

  lemma RatioShrinks(part: nat, small: nat, large: nat)
    requires 0 < small <= large
    ensures Ratio(part, large) <= Ratio(part, small)
  {
    var p, s, l := part as real, small as real, large as real;
    assert p * s <= p * l;
    assert p / l <= p / s;
  }

  lemma RatioGrows(few: nat, many: nat, whole: nat)
    requires few <= many && whole > 0
    ensures Ratio(few, whole) <= Ratio(many, whole)
  {
    var a, b, w := few as real, many as real, whole as real;
    assert b / w - a / w == (b - a) / w;
    assert (b - a) / w >= 0.0;
  }

  /** The symmetric score never exceeds containment: the maximum is the expected side alone. */
  lemma PathScoreIsContainment(cand: set<string>, expected: set<string>)
    ensures PathScore(cand, expected) == Containment(cand, expected)
  {
    SubsetSize(expected, cand + expected);
    if expected != {} {
      RatioShrinks(|cand * expected|, |expected|, |cand + expected|);
    } else {
      assert cand * expected == {};
    }
  }

  /** Citing extra paths never lowers a candidate's score. */
  lemma ExtraPathsNeverHurt(cand: set<string>, more: set<string>, expected: set<string>)
    requires cand <= more
    ensures PathScore(cand, expected) <= PathScore(more, expected)
  {
    PathScoreIsContainment(cand, expected);
    PathScoreIsContainment(more, expected);
    SubsetSize(cand * expected, more * expected);
    if expected != {} {
      RatioGrows(|cand * expected|, |more * expected|, |expected|);
    }
  }

  // ---------- matching ----------

  datatype Candidate = Candidate(id: string, fingerprint: string, paths: set<string>, cwe: string, cwes: set<string>,
                                 advisories: set<string>, title: string)

  /** What the ground truth expects of a target; `cwes` are upper-cased, the first one primary. */
  datatype Expected = Expected(fingerprint: string, paths: set<string>, cwes: seq<string>,
                               advisories: set<string>, title: string, severity: string)
  {
    function Primary(): string {
      if cwes == [] then "CWE-0" else cwes[0]
    }
  }

  datatype Tier = Fingerprint | AdvisoryId | PathCwe | Review | Missed

  datatype Row = Row(expected: Expected, tier: Tier, matched: Option<string>)

  const LADDER: seq<Tier> := [Fingerprint, AdvisoryId, PathCwe, Review]

  /** `similar` is the title similarity threshold of finding identity. */
  predicate Qualifies(similar: (string, string) -> bool, exp: Expected, a: Candidate, tier: Tier) {
    match tier
    case Fingerprint => exp.fingerprint != "" && a.fingerprint == exp.fingerprint
    case AdvisoryId => a.advisories * exp.advisories != {} && a.paths * exp.paths != {}
    case PathCwe => (a.cwe in exp.cwes || exp.Primary() in a.cwes) && PathScore(a.paths, exp.paths) >= 0.5
    case Review => PathScore(a.paths, exp.paths) >= 0.5 || similar(a.title, exp.title)
    case Missed => false
  }

  predicate Available(similar: (string, string) -> bool, exp: Expected, audit: seq<Candidate>, taken: set<string>, tier: Tier, i: nat)
    requires i < |audit|
  {
    audit[i].id !in taken && Qualifies(similar, exp, audit[i], tier)
  }

  /** A row takes the first candidate of the strongest tier that still has one. */
  ghost predicate BestMatch(similar: (string, string) -> bool, exp: Expected, audit: seq<Candidate>, taken: set<string>, row: Row) {
    && row.expected == exp
    && (row.tier == Missed <==> row.matched == None)
    && (forall t, i :: t in LADDER && Stronger(t, row.tier) && 0 <= i < |audit| ==> !Available(similar, exp, audit, taken, t, i))
    && (row.tier != Missed ==> exists i ::
          && 0 <= i < |audit| && Available(similar, exp, audit, taken, row.tier, i) && row.matched == Some(audit[i].id)
          && forall j :: 0 <= j < i ==> !Available(similar, exp, audit, taken, row.tier, j))
  }

  function Step(t: Tier): nat {
    match t
    case Fingerprint => 0
    case AdvisoryId => 1
    case PathCwe => 2
    case Review => 3
    case Missed => 4
  }

  predicate Stronger(a: Tier, b: Tier) {
    Step(a) < Step(b)
  }

  method FirstAvailable(similar: (string, string) -> bool, exp: Expected, audit: seq<Candidate>, taken: set<string>, tier: Tier)
    returns (found: Option<nat>)
    ensures found.None? ==> forall i :: 0 <= i < |audit| ==> !Available(similar, exp, audit, taken, tier, i)
    ensures found.Some? ==> found.value < |audit| && Available(similar, exp, audit, taken, tier, found.value)
    ensures found.Some? ==> forall j :: 0 <= j < found.value ==> !Available(similar, exp, audit, taken, tier, j)
  {
    for i := 0 to |audit|
      invariant forall j :: 0 <= j < i ==> !Available(similar, exp, audit, taken, tier, j)
    {
      if Available(similar, exp, audit, taken, tier, i) {
        return Some(i);
      }
    }
    return None;
  }

  method MatchOne(similar: (string, string) -> bool, exp: Expected, audit: seq<Candidate>, taken: set<string>) returns (row: Row)
    ensures BestMatch(similar, exp, audit, taken, row)
  {
    row := Row(exp, Missed, None);
    assert LADDER[0] == Fingerprint && LADDER[1] == AdvisoryId && LADDER[2] == PathCwe && LADDER[3] == Review;
    for k := 0 to |LADDER|
      invariant row == Row(exp, Missed, None)
      invariant forall t, i :: t in LADDER && Step(t) < k && 0 <= i < |audit| ==> !Available(similar, exp, audit, taken, t, i)
    {
      var found := FirstAvailable(similar, exp, audit, taken, LADDER[k]);
      if found.Some? {
        return Row(exp, LADDER[k], Some(audit[found.value].id));
      }
    }
  }

  ghost function TakenBy(rows: seq<Row>): set<string> {
    set i | 0 <= i < |rows| && rows[i].matched.Some? :: rows[i].matched.value
  }

  /** Every row is the best match left by the rows before it. */
  ghost predicate Greedy(similar: (string, string) -> bool, expected: seq<Expected>, audit: seq<Candidate>, rows: seq<Row>) {
    |rows| == |expected| &&
    forall i :: 0 <= i < |rows| ==> BestMatch(similar, expected[i], audit, TakenBy(rows[..i]), rows[i])
  }

  /** `match_target`. */
  method MatchTarget(similar: (string, string) -> bool, expected: seq<Expected>, audit: seq<Candidate>) returns (rows: seq<Row>)
    ensures Greedy(similar, expected, audit, rows)
  {
    rows := [];
    var taken: set<string> := {};
    for n := 0 to |expected|
      invariant |rows| == n && taken == TakenBy(rows)
      invariant Greedy(similar, expected[..n], audit, rows)
    {
      var row := MatchOne(similar, expected[n], audit, taken);
      GreedySnoc(similar, expected[..n], audit, rows, expected[n], row);
      assert expected[..n + 1] == expected[..n] + [expected[n]];
      if row.matched.Some? {
        taken := taken + {row.matched.value};
      }
      TakenSnoc(rows, row);
      rows := rows + [row];
    }
    assert expected[..|expected|] == expected;
  }

  lemma TakenSnoc(rows: seq<Row>, row: Row)
    ensures TakenBy(rows + [row]) == TakenBy(rows) + (if row.matched.Some? then {row.matched.value} else {})
  {
    var all := rows + [row];
    assert all[|rows|] == row;
    forall id | id in TakenBy(rows)
      ensures id in TakenBy(all)
    {
      var i :| 0 <= i < |rows| && rows[i].matched == Some(id);
      assert all[i].matched == Some(id);
    }
  }

  lemma GreedySnoc(similar: (string, string) -> bool, expected: seq<Expected>, audit: seq<Candidate>, rows: seq<Row>,
                   exp: Expected, row: Row)
    requires Greedy(similar, expected, audit, rows) && BestMatch(similar, exp, audit, TakenBy(rows), row)
    ensures Greedy(similar, expected + [exp], audit, rows + [row])
  {
    var es, all := expected + [exp], rows + [row];
    forall i | 0 <= i < |all|
      ensures BestMatch(similar, es[i], audit, TakenBy(all[..i]), all[i])
    {
      if i < |rows| {
        assert all[..i] == rows[..i];
        assert BestMatch(similar, expected[i], audit, TakenBy(rows[..i]), rows[i]);
      } else {
        assert all[..i] == rows;
      }
    }
  }

  /** No candidate answers for two expectations. */
  lemma NoCandidateReused(similar: (string, string) -> bool, expected: seq<Expected>, audit: seq<Candidate>, rows: seq<Row>, i: nat, j: nat)
    requires Greedy(similar, expected, audit, rows) && i < j < |rows| && rows[i].matched.Some?
    ensures rows[j].matched != rows[i].matched
  {
    assert BestMatch(similar, expected[j], audit, TakenBy(rows[..j]), rows[j]);
    assert rows[..j][i] == rows[i];
    assert rows[i].matched.value in TakenBy(rows[..j]);
  }

  // ---------- what the tiers are ----------

  /** At least half of the expected paths are cited, and some are expected. */
  ghost predicate HalfCited(exp: Expected, a: Candidate) {
    exp.paths != {} && 2 * |a.paths * exp.paths| >= |exp.paths|
  }

  lemma HalfCitedExact(exp: Expected, a: Candidate)
    ensures PathScore(a.paths, exp.paths) >= 0.5 <==> HalfCited(exp, a)
  {
    PathScoreIsContainment(a.paths, exp.paths);
    if exp.paths != {} {
      HalfOf(|a.paths * exp.paths|, |exp.paths|);
    }
  }

  lemma HalfOf(part: nat, whole: nat)
    requires whole > 0
    ensures Ratio(part, whole) >= 0.5 <==> 2 * part >= whole
  {
    var p, w := part as real, whole as real;
    var r := p / w;
    assert r * w == p;
    if r >= 0.5 {
      assert r * w >= 0.5 * w;
    } else {
      assert r * w < 0.5 * w;
    }
  }

  /** The same fingerprint; or an advisory in common and a path; or a CWE, the primary one of either
  being among the other's, and half the paths; or half the paths, or a similar title. */
  ghost predicate Meets(similar: (string, string) -> bool, exp: Expected, a: Candidate, tier: Tier) {
    match tier
    case Fingerprint => exp.fingerprint != "" && a.fingerprint == exp.fingerprint
    case AdvisoryId =>
      (exists id :: id in a.advisories && id in exp.advisories) && exists p :: p in a.paths && p in exp.paths
    case PathCwe =>
      (a.cwe in exp.cwes || (if exp.cwes == [] then "CWE-0" else exp.cwes[0]) in a.cwes) && HalfCited(exp, a)
    case Review => HalfCited(exp, a) || similar(a.title, exp.title)
    case Missed => false
  }

  lemma QualifiesExact(similar: (string, string) -> bool, exp: Expected, a: Candidate, tier: Tier)
    ensures Qualifies(similar, exp, a, tier) <==> Meets(similar, exp, a, tier)
  {
    HalfCitedExact(exp, a);
    if x :| x in a.advisories && x in exp.advisories {
      assert x in a.advisories * exp.advisories;
    }
    if p :| p in a.paths && p in exp.paths {
      assert p in a.paths * exp.paths;
    }
  }

  ghost predicate FreshAt(similar: (string, string) -> bool, exp: Expected, audit: seq<Candidate>, taken: set<string>, tier: Tier, i: int) {
    0 <= i < |audit| && audit[i].id !in taken && Meets(similar, exp, audit[i], tier)
  }

  /** A row is of a tier when some candidate not yet taken meets it and none meets a stronger one, and
  it takes the first of them; it is missed when none meets any. */
  lemma RowExact(similar: (string, string) -> bool, exp: Expected, audit: seq<Candidate>, taken: set<string>, row: Row)
    requires BestMatch(similar, exp, audit, taken, row)
    ensures var f := (tier: Tier) => exists i :: FreshAt(similar, exp, audit, taken, tier, i);
      row.tier == (if f(Fingerprint) then Fingerprint else if f(AdvisoryId) then AdvisoryId
                   else if f(PathCwe) then PathCwe else if f(Review) then Review else Missed)
    ensures row.tier == Missed ==> row.matched == None
    ensures row.tier != Missed ==>
      exists i :: FreshAt(similar, exp, audit, taken, row.tier, i) && row.matched == Some(audit[i].id)
        && forall j :: 0 <= j < i ==> !FreshAt(similar, exp, audit, taken, row.tier, j)
  {
    assert LADDER[0] == Fingerprint && LADDER[1] == AdvisoryId && LADDER[2] == PathCwe && LADDER[3] == Review;
    forall t, i | 0 <= i < |audit|
      ensures Available(similar, exp, audit, taken, t, i) <==> FreshAt(similar, exp, audit, taken, t, i)
    {
      QualifiesExact(similar, exp, audit[i], t);
    }
  }
}
