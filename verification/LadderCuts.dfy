/** The cuts of the recall score of match_benchmark.py: the rows of all targets, grouped five ways. */
module LadderCuts {
  import opened Options
  import opened Collections
  import opened Sorting
  import opened Text
  import opened Ladder

  // ---------- buckets ----------

  datatype Scored = Scored(row: Row, provenance: string, language: string, heldOut: bool)

  predicate Strict(t: Tier) {
    t == Fingerprint || t == AdvisoryId || t == PathCwe
  }

  datatype Bucket = Bucket(detected: nat, expected: nat)

  ghost function BucketOf(rows: seq<Scored>, p: Scored -> bool): Bucket {
    if rows == [] then Bucket(0, 0)
    else
      var r, b := rows[|rows| - 1], BucketOf(rows[..|rows| - 1], p);
      if p(r) then Bucket(b.detected + (if Strict(r.row.tier) then 1 else 0), b.expected + 1) else b
  }

  /** `_bucket`, over the rows of one group. */
  method Tally(rows: seq<Scored>) returns (b: Bucket)
    ensures b == BucketOf(rows, Everyone())
  {
    b := Bucket(0, 0);
    for i := 0 to |rows|
      invariant b == BucketOf(rows[..i], Everyone())
    {
      assert rows[..i + 1][..i] == rows[..i];
      b := b.(expected := b.expected + 1);
      if Strict(rows[i].row.tier) {
        b := b.(detected := b.detected + 1);
      }
    }
    assert rows[..|rows|] == rows;
  }

  function Group(key: Scored -> string, k: string): Scored -> bool {
    (r: Scored) => key(r) == k
  }

  function Among(key: Scored -> string, ks: seq<string>): Scored -> bool {
    (r: Scored) => key(r) in ks
  }

  ghost function SumOf(rows: seq<Scored>, key: Scored -> string, ks: seq<string>): Bucket {
    if ks == [] then Bucket(0, 0)
    else
      var b, g := SumOf(rows, key, ks[..|ks| - 1]), BucketOf(rows, Group(key, ks[|ks| - 1]));
      Bucket(b.detected + g.detected, b.expected + g.expected)
  }

  lemma {:induction false} BucketSplits(rows: seq<Scored>, a: Scored -> bool, b: Scored -> bool, both: Scored -> bool)
    requires forall r :: (both(r) <==> a(r) || b(r)) && !(a(r) && b(r))
    ensures var x, y := BucketOf(rows, a), BucketOf(rows, b);
      BucketOf(rows, both) == Bucket(x.detected + y.detected, x.expected + y.expected)
  {
    if rows != [] {
      BucketSplits(rows[..|rows| - 1], a, b, both);
    }
  }

  lemma {:induction false} GroupsSum(rows: seq<Scored>, key: Scored -> string, ks: seq<string>)
    requires Unrepeated(ks)
    ensures SumOf(rows, key, ks) == BucketOf(rows, Among(key, ks))
  {
    if ks == [] {
      BucketOfNone(rows, Among(key, ks));
    } else {
      var init, last := ks[..|ks| - 1], ks[|ks| - 1];
      assert ks == init + [last] && last !in init;
      GroupsSum(rows, key, init);
      BucketSplits(rows, Among(key, init), Group(key, last), Among(key, ks));
    }
  }

  lemma {:induction false} BucketOfNone(rows: seq<Scored>, p: Scored -> bool)
    requires forall r :: !p(r)
    ensures BucketOf(rows, p) == Bucket(0, 0)
  {
    if rows != [] {
      BucketOfNone(rows[..|rows| - 1], p);
    }
  }

  function Everyone(): Scored -> bool {
    (r: Scored) => true
  }

  /** Over a listing of groups without repetition, the buckets sum to the whole exactly when every row
  falls in a listed group. */
  lemma {:induction false} CutSumsExact(rows: seq<Scored>, key: Scored -> string, ks: seq<string>)
    requires Unrepeated(ks)
    ensures SumOf(rows, key, ks) == BucketOf(rows, Everyone()) <==> forall i :: 0 <= i < |rows| ==> key(rows[i]) in ks
  {
    GroupsSum(rows, key, ks);
    AmongIsAll(rows, Among(key, ks));
  }

  lemma {:induction false} AmongIsAll(rows: seq<Scored>, p: Scored -> bool)
    ensures BucketOf(rows, p).expected <= |rows| && BucketOf(rows, p).detected <= BucketOf(rows, Everyone()).detected
    ensures BucketOf(rows, Everyone()).expected == |rows|
    ensures BucketOf(rows, p) == BucketOf(rows, Everyone()) <==> forall i :: 0 <= i < |rows| ==> p(rows[i])
  {
    if rows != [] {
      AmongIsAll(rows[..|rows| - 1], p);
    }
  }

  // ---------- grouping ----------

  function CweKey(): Scored -> string { (r: Scored) => r.row.expected.Primary() }
  function SeverityKey(): Scored -> string { (r: Scored) => r.row.expected.severity }
  function ProvenanceKey(): Scored -> string { (r: Scored) => r.provenance }
  function LanguageKey(): Scored -> string { (r: Scored) => r.language }
  function SplitKey(): Scored -> string { (r: Scored) => if r.heldOut then "held_out" else "development" }

  type Groups = map<string, seq<Scored>>

  function Push(m: Groups, k: string, r: Scored): Groups {
    m[k := (if k in m then m[k] else []) + [r]]
  }

  ghost function Chosen(rows: seq<Scored>, p: Scored -> bool): seq<Scored> {
    if rows == [] then []
    else
      var r, before := rows[|rows| - 1], Chosen(rows[..|rows| - 1], p);
      if p(r) then before + [r] else before
  }

  /** Each row is in the group of its key, in order, and no group is empty. */
  ghost predicate Grouped(rows: seq<Scored>, key: Scored -> string, m: Groups) {
    && (forall k :: k in m ==> m[k] == Chosen(rows, Group(key, k)))
    && (forall k :: k in m <==> Occurs(rows, key, k))
  }

  ghost predicate Occurs(rows: seq<Scored>, key: Scored -> string, k: string) {
    exists i :: 0 <= i < |rows| && key(rows[i]) == k
  }

  lemma OccursSnoc(rows: seq<Scored>, key: Scored -> string, r: Scored, k: string)
    ensures Occurs(rows + [r], key, k) <==> Occurs(rows, key, k) || key(r) == k
  {
    var all := rows + [r];
    assert all[|rows|] == r;
    if i :| 0 <= i < |rows| && key(rows[i]) == k {
      assert all[i] == rows[i];
    }
  }

  lemma {:induction false} AbsentChosen(rows: seq<Scored>, key: Scored -> string, k: string)
    requires !Occurs(rows, key, k)
    ensures Chosen(rows, Group(key, k)) == []
  {
    if rows != [] {
      var init, r := rows[..|rows| - 1], rows[|rows| - 1];
      assert rows == init + [r];
      OccursSnoc(init, key, r, k);
      AbsentChosen(init, key, k);
    }
  }

  lemma GroupedSnoc(rows: seq<Scored>, key: Scored -> string, m: Groups, r: Scored)
    requires Grouped(rows, key, m)
    ensures Grouped(rows + [r], key, Push(m, key(r), r))
  {
    assert (rows + [r])[..|rows|] == rows;
    if key(r) !in m {
      AbsentChosen(rows, key, key(r));
    }
    forall k
      ensures k in Push(m, key(r), r) <==> Occurs(rows + [r], key, k)
    {
      OccursSnoc(rows, key, r, k);
    }
  }

  lemma {:induction false} ChosenBucket(rows: seq<Scored>, p: Scored -> bool)
    ensures BucketOf(Chosen(rows, p), Everyone()) == BucketOf(rows, p)
  {
    if rows != [] {
      var init, r := rows[..|rows| - 1], rows[|rows| - 1];
      ChosenBucket(init, p);
      var before := Chosen(init, p);
      assert (before + [r])[..|before|] == before;
    }
  }

  /** The five groupings of one pass over the rows; a row without any CWE makes the pass raise. */
  datatype Grouping = Grouping(cwe: Groups, severity: Groups, provenance: Groups, language: Groups, split: Groups)

  ghost predicate AllGrouped(rows: seq<Scored>, g: Grouping) {
    && Grouped(rows, CweKey(), g.cwe) && Grouped(rows, SeverityKey(), g.severity)
    && Grouped(rows, ProvenanceKey(), g.provenance) && Grouped(rows, LanguageKey(), g.language)
    && Grouped(rows, SplitKey(), g.split)
  }

  ghost function GroupsOf(rows: seq<Scored>, key: Scored -> string): Groups {
    if rows == [] then map[]
    else Push(GroupsOf(rows[..|rows| - 1], key), key(rows[|rows| - 1]), rows[|rows| - 1])
  }

  lemma {:induction false} GroupsAreGrouped(rows: seq<Scored>, key: Scored -> string)
    ensures Grouped(rows, key, GroupsOf(rows, key))
  {
    if rows != [] {
      var init, r := rows[..|rows| - 1], rows[|rows| - 1];
      GroupsAreGrouped(init, key);
      GroupedSnoc(init, key, GroupsOf(init, key), r);
      assert rows == init + [r];
    }
  }

  ghost function GroupingOf(rows: seq<Scored>): Grouping {
    Grouping(GroupsOf(rows, CweKey()), GroupsOf(rows, SeverityKey()), GroupsOf(rows, ProvenanceKey()),
             GroupsOf(rows, LanguageKey()), GroupsOf(rows, SplitKey()))
  }

  lemma GroupingSnoc(rows: seq<Scored>, i: nat)
    requires i < |rows|
    ensures GroupingOf(rows[..i + 1]) == Extend(GroupingOf(rows[..i]), rows[i])
  {
    assert rows[..i + 1][..i] == rows[..i];
  }

  lemma AllAreGrouped(rows: seq<Scored>)
    ensures AllGrouped(rows, GroupingOf(rows))
  {
    GroupsAreGrouped(rows, CweKey());
    GroupsAreGrouped(rows, SeverityKey());
    GroupsAreGrouped(rows, ProvenanceKey());
    GroupsAreGrouped(rows, LanguageKey());
    GroupsAreGrouped(rows, SplitKey());
  }

  function Extend(g: Grouping, r: Scored): Grouping {
    Grouping(Push(g.cwe, CweKey()(r), r), Push(g.severity, SeverityKey()(r), r), Push(g.provenance, ProvenanceKey()(r), r),
             Push(g.language, LanguageKey()(r), r), Push(g.split, SplitKey()(r), r))
  }

  method GroupRow(ghost rows: seq<Scored>, ghost i: nat, r: Scored, before: Grouping) returns (g: Grouping)
    requires i < |rows| && r == rows[i] && before == GroupingOf(rows[..i])
    ensures g == GroupingOf(rows[..i + 1])
  {
    GroupingSnoc(rows, i);
    g := Extend(before, r);
  }

  method GroupRows(rows: seq<Scored>) returns (g: Option<Grouping>)
    ensures g.None? <==> exists i :: 0 <= i < |rows| && rows[i].row.expected.cwes == []
    ensures g.Some? ==> g.value == GroupingOf(rows)
  {
    var so := Grouping(map[], map[], map[], map[], map[]);
    for i := 0 to |rows|
      invariant so == GroupingOf(rows[..i])
      invariant forall j :: 0 <= j < i ==> rows[j].row.expected.cwes != []
    {
      if rows[i].row.expected.cwes == [] {
        return None;
      }
      so := GroupRow(rows, i, rows[i], so);
    }
    assert rows[..|rows|] == rows;
    g := Some(so);
  }

  // ---------- the published cuts ----------

  type Cut = seq<(string, Bucket)>

  function Names(cut: Cut): seq<string> {
    if cut == [] then [] else Names(cut[..|cut| - 1]) + [cut[|cut| - 1].0]
  }

  function CutSum(cut: Cut): Bucket {
    if cut == [] then Bucket(0, 0)
    else
      var b, last := CutSum(cut[..|cut| - 1]), cut[|cut| - 1].1;
      Bucket(b.detected + last.detected, b.expected + last.expected)
  }

  /** Every entry carries the counts of the rows of its name. */
  ghost predicate Entered(rows: seq<Scored>, key: Scored -> string, cut: Cut) {
    forall i :: 0 <= i < |cut| ==> cut[i].1 == BucketOf(rows, Group(key, cut[i].0))
  }

  /** The names of a list that have rows. */
  ghost function Occurring(rows: seq<Scored>, key: Scored -> string, listed: seq<string>): seq<string> {
    if listed == [] then []
    else
      var k, before := listed[|listed| - 1], Occurring(rows, key, listed[..|listed| - 1]);
      if Occurs(rows, key, k) then before + [k] else before
  }

  lemma {:induction false} OccurringExact(rows: seq<Scored>, key: Scored -> string, listed: seq<string>, k: string)
    ensures k in Occurring(rows, key, listed) <==> k in listed && Occurs(rows, key, k)
  {
    if listed != [] {
      var init, last := listed[..|listed| - 1], listed[|listed| - 1];
      OccurringExact(rows, key, init, k);
      assert listed == init + [last];
    }
  }

  lemma {:induction false} OccurringUnrepeated(rows: seq<Scored>, key: Scored -> string, listed: seq<string>)
    requires Unrepeated(listed)
    ensures Unrepeated(Occurring(rows, key, listed))
  {
    if listed != [] {
      var init, last := listed[..|listed| - 1], listed[|listed| - 1];
      OccurringUnrepeated(rows, key, init);
      OccurringExact(rows, key, init, last);
      assert last !in init;
    }
  }

  lemma {:induction false} OccurringAll(rows: seq<Scored>, key: Scored -> string, listed: seq<string>)
    requires forall k :: k in listed ==> Occurs(rows, key, k)
    ensures Occurring(rows, key, listed) == listed
  {
    if listed != [] {
      var init, last := listed[..|listed| - 1], listed[|listed| - 1];
      assert listed == init + [last];
      OccurringAll(rows, key, init);
      assert last in listed;
    }
  }

  /** One entry for each name listed that has rows, in the order of the list. */
  method Entries(ghost rows: seq<Scored>, ghost key: Scored -> string, m: Groups, listed: seq<string>) returns (cut: Cut)
    requires Grouped(rows, key, m)
    ensures Entered(rows, key, cut) && Names(cut) == Occurring(rows, key, listed)
  {
    cut := [];
    for i := 0 to |listed|
      invariant Entered(rows, key, cut) && Names(cut) == Occurring(rows, key, listed[..i])
    {
      var k := listed[i];
      assert listed[..i + 1][..i] == listed[..i];
      if k in m {
        ChosenBucket(rows, Group(key, k));
        var b := Tally(m[k]);
        NamesSnoc(cut, (k, b));
        cut := cut + [(k, b)];
      }
    }
    assert listed[..|listed|] == listed;
  }

  lemma NamesSnoc(cut: Cut, e: (string, Bucket))
    ensures Names(cut + [e]) == Names(cut) + [e.0]
  {
    assert (cut + [e])[..|cut|] == cut;
  }

  /** A cut over the names that occur, in the order of `sorted`. */
  ghost predicate CutOf(rows: seq<Scored>, key: Scored -> string, cut: Cut) {
    && Entered(rows, key, cut) && Unrepeated(Names(cut)) && SortedBy(Names(cut), LexLe)
    && forall k :: k in Names(cut) <==> Occurs(rows, key, k)
  }

  method SortedEntries(ghost rows: seq<Scored>, ghost key: Scored -> string, m: Groups) returns (cut: Cut)
    requires Grouped(rows, key, m)
    ensures CutOf(rows, key, cut)
  {
    var names := Enumerate(m.Keys);
    var listed := Sort(names, LexLe);
    LexIsTotalPreorder();
    SortSorts(names, LexLe);
    SortKeepsUnrepeated(names, LexLe);
    assert forall k :: k in listed <==> k in Elements(listed);
    OccurringAll(rows, key, listed);
    cut := Entries(rows, key, m, listed);
  }

  lemma LexIsTotalPreorder()
    ensures TotalPreorder(LexLe)
  {
    forall a, b
      ensures LexLe(a, b) || LexLe(b, a)
    {
      LexTotal(a, b);
    }
    forall a, b, c | LexLe(a, b) && LexLe(b, c)
      ensures LexLe(a, c)
    {
      LexTransitive(a, b, c);
    }
  }

  const SEVERITIES: seq<string> := ["critical", "high", "medium", "low", "informational"]

  lemma SeveritiesDiffer()
    ensures Unrepeated(SEVERITIES)
  {
    assert |SEVERITIES[0]| == 8 && |SEVERITIES[1]| == 4 && |SEVERITIES[2]| == 6 && |SEVERITIES[3]| == 3;
    assert |SEVERITIES[4]| == 13;
  }

  /** The severity cut lists the five known names that occur, gravest first. */
  ghost predicate SeverityCutOf(rows: seq<Scored>, cut: Cut) {
    Entered(rows, SeverityKey(), cut) && Names(cut) == Occurring(rows, SeverityKey(), SEVERITIES)
  }

  // ---------- the score ----------

  datatype Target = Target(provenance: string, language: string, heldOut: bool, rows: seq<Row>)

  function Spread(t: Target, n: nat): seq<Scored>
    requires n <= |t.rows|
  {
    if n == 0 then [] else Spread(t, n - 1) + [Scored(t.rows[n - 1], t.provenance, t.language, t.heldOut)]
  }

  function AllRows(targets: seq<Target>): seq<Scored> {
    if targets == [] then []
    else
      var t := targets[|targets| - 1];
      AllRows(targets[..|targets| - 1]) + Spread(t, |t.rows|)
  }

  datatype Score = Score(overall: Bucket, nearMisses: nat, byCwe: Cut, bySeverity: Cut, byProvenance: Cut,
                         byLanguage: Cut, bySplit: Cut)

  ghost function NearMisses(rows: seq<Scored>): nat {
    if rows == [] then 0 else NearMisses(rows[..|rows| - 1]) + (if rows[|rows| - 1].row.tier == Review then 1 else 0)
  }

  ghost predicate Scores(rows: seq<Scored>, s: Score) {
    && s.overall == BucketOf(rows, Everyone()) && s.nearMisses == NearMisses(rows)
    && CutOf(rows, CweKey(), s.byCwe) && SeverityCutOf(rows, s.bySeverity)
    && CutOf(rows, ProvenanceKey(), s.byProvenance) && CutOf(rows, LanguageKey(), s.byLanguage)
    && CutOf(rows, SplitKey(), s.bySplit)
  }

  method CountNearMisses(rows: seq<Scored>) returns (n: nat)
    ensures n == NearMisses(rows)
  {
    n := 0;
    for i := 0 to |rows|
      invariant n == NearMisses(rows[..i])
    {
      assert rows[..i + 1][..i] == rows[..i];
      if rows[i].row.tier == Review {
        n := n + 1;
      }
    }
    assert rows[..|rows|] == rows;
  }

  /** match_benchmark.py's `score`, once each target is matched. */
  method ScoreTargets(targets: seq<Target>) returns (s: Option<Score>)
    ensures s.None? <==> exists r :: r in AllRows(targets) && r.row.expected.cwes == []
    ensures s.Some? ==> Scores(AllRows(targets), s.value)
  {
    var rows := AllRows(targets);
    var g := GroupRows(rows);
    if g.None? {
      return None;
    }
    AllAreGrouped(rows);
    var overall := Tally(rows);
    var near := CountNearMisses(rows);
    var byCwe := SortedEntries(rows, CweKey(), g.value.cwe);
    var bySeverity := Entries(rows, SeverityKey(), g.value.severity, SEVERITIES);
    var byProvenance := SortedEntries(rows, ProvenanceKey(), g.value.provenance);
    var byLanguage := SortedEntries(rows, LanguageKey(), g.value.language);
    var bySplit := SortedEntries(rows, SplitKey(), g.value.split);
    s := Some(Score(overall, near, byCwe, bySeverity, byProvenance, byLanguage, bySplit));
  }

  lemma {:induction false} CutSumIsSum(rows: seq<Scored>, key: Scored -> string, cut: Cut)
    requires Entered(rows, key, cut)
    ensures CutSum(cut) == SumOf(rows, key, Names(cut))
  {
    if cut != [] {
      var init, last := cut[..|cut| - 1], cut[|cut| - 1];
      CutSumIsSum(rows, key, init);
      assert Names(cut)[..|Names(cut)| - 1] == Names(init);
      assert last.1 == BucketOf(rows, Group(key, last.0));
    }
  }

  lemma CutTotal(rows: seq<Scored>, key: Scored -> string, cut: Cut)
    requires CutOf(rows, key, cut)
    ensures CutSum(cut) == BucketOf(rows, Everyone())
  {
    CutSumIsSum(rows, key, cut);
    forall i | 0 <= i < |rows|
      ensures key(rows[i]) in Names(cut)
    {
      assert Occurs(rows, key, key(rows[i]));
    }
    CutSumsExact(rows, key, Names(cut));
  }

  /** The CWE, provenance, language and split cuts of a score each sum to the overall score; the
  severity cut does exactly when every expected severity is one of the five. */
  lemma ScoreCutsSum(rows: seq<Scored>, s: Score)
    requires Scores(rows, s)
    ensures CutSum(s.byCwe) == CutSum(s.byProvenance) == CutSum(s.byLanguage) == CutSum(s.bySplit) == s.overall
    ensures CutSum(s.bySeverity) == s.overall <==>
      forall i :: 0 <= i < |rows| ==> rows[i].row.expected.severity in SEVERITIES
  {
    CutTotal(rows, CweKey(), s.byCwe);
    CutTotal(rows, ProvenanceKey(), s.byProvenance);
    CutTotal(rows, LanguageKey(), s.byLanguage);
    CutTotal(rows, SplitKey(), s.bySplit);
    SeverityCutExact(rows, s.bySeverity);
  }

  lemma SeverityCutExact(rows: seq<Scored>, cut: Cut)
    requires SeverityCutOf(rows, cut)
    ensures CutSum(cut) == BucketOf(rows, Everyone()) <==>
      forall i :: 0 <= i < |rows| ==> rows[i].row.expected.severity in SEVERITIES
  {
    var key := SeverityKey();
    SeveritiesDiffer();
    OccurringUnrepeated(rows, key, SEVERITIES);
    CutSumIsSum(rows, key, cut);
    CutSumsExact(rows, key, Names(cut));
    forall i | 0 <= i < |rows|
      ensures key(rows[i]) in Names(cut) <==> rows[i].row.expected.severity in SEVERITIES
    {
      OccurringExact(rows, key, SEVERITIES, key(rows[i]));
    }
  }
}
