/** The counters and the chain rows of report.py, and the report as a whole. */
module ReportTotals {
  import opened Options
  import opened Collections
  import opened Soundness
  import opened Steps
  import opened Text
  import opened Report
  import opened ChainSearch
  import Executor
  import ExecutorSafety

  // ---------- counting by class ----------

  ghost function Class<C>(items: set<string>, key: string -> C, c: C): set<string> {
    set i | i in items && key(i) == c
  }

  /** Python's `Counter` over a collection of distinct items. */
  method Tally<C(==,!new)>(items: set<string>, key: string -> C) returns (counts: map<C, nat>)
    ensures forall c :: c in counts ==> counts[c] == |Class(items, key, c)|
    ensures forall c: C :: c !in counts ==> Class(items, key, c) == {}
  {
    counts := map[];
    var todo := items;
    while todo != {}
      invariant todo <= items && Counted(items - todo, key, counts)
      decreases todo
    {
      var i :| i in todo;
      CountedOneMore(items - todo, key, counts, i);
      assert items - (todo - {i}) == (items - todo) + {i};
      todo := todo - {i};
      counts := counts[key(i) := (if key(i) in counts then counts[key(i)] else 0) + 1];
    }
    assert items - todo == items;
  }

  ghost predicate Counted<C(!new)>(items: set<string>, key: string -> C, counts: map<C, nat>) {
    && (forall c :: c in counts ==> counts[c] == |Class(items, key, c)|)
    && forall c :: c !in counts ==> Class(items, key, c) == {}
  }

  lemma CountedOneMore<C(!new)>(items: set<string>, key: string -> C, counts: map<C, nat>, i: string)
    requires Counted(items, key, counts) && i !in items
    ensures Counted(items + {i}, key, counts[key(i) := (if key(i) in counts then counts[key(i)] else 0) + 1])
  {
    assert Class(items + {i}, key, key(i)) == Class(items, key, key(i)) + {i};
    assert forall c :: c != key(i) ==> Class(items + {i}, key, c) == Class(items, key, c);
  }

  ghost function Total<C>(items: set<string>, key: string -> C, classes: seq<C>): nat {
    if classes == [] then 0
    else Total(items, key, classes[..|classes| - 1]) + |Class(items, key, classes[|classes| - 1])|
  }

  lemma {:induction false} TotalIsUnion<C>(items: set<string>, key: string -> C, classes: seq<C>)
    requires Unrepeated(classes)
    ensures Total(items, key, classes) == |set i | i in items && key(i) in classes|
  {
    if classes == [] {
      assert (set i | i in items && key(i) in classes) == {};
    } else {
      var init, last := classes[..|classes| - 1], classes[|classes| - 1];
      TotalIsUnion(items, key, init);
      assert classes == init + [last];
      var a := set i | i in items && key(i) in init;
      var b := Class(items, key, last);
      assert last !in init;
      assert a * b == {};
      assert (set i | i in items && key(i) in classes) == a + b;
      assert |a + b| == |a| + |b|;
    }
  }

  /** Classes that are different and leave no item out share the items between them. */
  lemma ClassesSumToAll<C>(items: set<string>, key: string -> C, classes: seq<C>)
    requires Unrepeated(classes) && forall i :: i in items ==> key(i) in classes
    ensures Total(items, key, classes) == |items|
  {
    TotalIsUnion(items, key, classes);
    assert (set i | i in items && key(i) in classes) == items;
  }

  // ---------- the verdict counters ----------

  const VERDICTS: seq<Verdict> := [Confirmed, Refuted, Inconclusive, BlockedByScope, NotAttempted]

  datatype NaCategory = TriageFp | WrongSurface | NeedsCredential | NoPoc | Env | Policy | Other

  const NA_CATEGORIES: seq<NaCategory> := [TriageFp, WrongSurface, NeedsCredential, NoPoc, Env, Policy, Other]

  function NaCat(reason: Option<string>): NaCategory {
    var r := Lower(if reason.Some? then reason.value else "");
    if Contains(r, "false-positive") then TriageFp
    else if "wrong-surface" <= r then WrongSurface
    else if "needs-credential" <= r then NeedsCredential
    else if Contains(r, "no-poc") || Contains(r, "no-adapter") then NoPoc
    else if "precondition" <= r || Contains(r, "not-found") || Contains(r, "missing") then Env
    else if "destructive" <= r then Policy
    else Other
  }

  /** Each reason falls into one category, by the first of these signs that it shows. */
  lemma CategoryExact(reason: Option<string>)
    ensures var r, c := Lower(if reason.Some? then reason.value else ""), NaCat(reason);
      var fp, surface, credential := Contains(r, "false-positive"), "wrong-surface" <= r, "needs-credential" <= r;
      var poc := Contains(r, "no-poc") || Contains(r, "no-adapter");
      var env := "precondition" <= r || Contains(r, "not-found") || Contains(r, "missing");
      && (c == TriageFp <==> fp)
      && (c == WrongSurface <==> surface && !fp)
      && (c == NeedsCredential <==> credential && !fp)
      && (c == NoPoc <==> poc && !fp && !surface && !credential)
      && (c == Env <==> env && !poc && !fp && !surface && !credential)
      && (c == Policy <==> "destructive" <= r && !poc && !env && !fp)
  {
    var r := Lower(if reason.Some? then reason.value else "");
    OneStart(r, "wrong-surface", "needs-credential");
    OneStart(r, "wrong-surface", "destructive");
    OneStart(r, "needs-credential", "destructive");
  }

  lemma OneStart(r: string, a: string, b: string)
    requires a != [] && b != [] && a[0] != b[0]
    ensures !(a <= r && b <= r)
  {
  }

  function VerdictKey(validated: Validated): string -> Verdict {
    id => if id in validated then validated[id].verdict else NotAttempted
  }

  function NaKey(validated: Validated): string -> NaCategory {
    id => if id in validated then NaCat(validated[id].skipReason) else Other
  }

  function NotAttemptedIds(validated: Validated): set<string> {
    set id | id in validated && validated[id].verdict == NotAttempted
  }

  method CountVerdicts(validated: Validated) returns (counts: map<Verdict, nat>)
    ensures forall v :: v in counts ==> counts[v] == |Class(validated.Keys, VerdictKey(validated), v)|
    ensures forall v :: v in VERDICTS ==> v in counts
  {
    counts := Tally(validated.Keys, VerdictKey(validated));
    for i := 0 to |VERDICTS|
      invariant forall v :: v in counts ==> counts[v] == |Class(validated.Keys, VerdictKey(validated), v)|
      invariant forall v :: v !in counts ==> Class(validated.Keys, VerdictKey(validated), v) == {}
      invariant forall j :: 0 <= j < i ==> VERDICTS[j] in counts
    {
      if VERDICTS[i] !in counts {
        counts := counts[VERDICTS[i] := 0];
      }
    }
  }

  lemma ReportedVerdictsAreListed(id: string, results: seq<StepResult>)
    ensures Backstopped(Rolled(id, results)).verdict in VERDICTS
  {
    VerdictIsBest(id, results);
    assert VERDICTS[0] == Confirmed && VERDICTS[1] == Refuted && VERDICTS[2] == Inconclusive
        && VERDICTS[3] == BlockedByScope && VERDICTS[4] == NotAttempted;
    var v := Backstopped(Rolled(id, results)).verdict;
    assert !v.Unlisted?;
  }

  /** The five verdict counters share out the distinct findings. */
  lemma VerdictsSumToFindings(findings: seq<string>, results: seq<StepResult>, validated: Validated)
    requires validated.Keys == set f | f in findings
    requires forall id :: id in validated ==> validated[id] == Backstopped(Rolled(id, results))
    ensures Total(validated.Keys, VerdictKey(validated), VERDICTS) == |set f | f in findings|
  {
    forall id | id in validated
      ensures VerdictKey(validated)(id) in VERDICTS
    {
      ReportedVerdictsAreListed(id, results);
    }
    ClassesSumToAll(validated.Keys, VerdictKey(validated), VERDICTS);
  }

  /** The not-attempted reasons share out exactly the findings counted as not attempted. */
  lemma ReasonsSumToNotAttempted(validated: Validated)
    ensures Total(NotAttemptedIds(validated), NaKey(validated), NA_CATEGORIES)
         == |Class(validated.Keys, VerdictKey(validated), NotAttempted)|
  {
    assert Class(validated.Keys, VerdictKey(validated), NotAttempted) == NotAttemptedIds(validated);
    forall id | id in NotAttemptedIds(validated)
      ensures NaKey(validated)(id) in NA_CATEGORIES
    {
      EveryCategoryListed(NaKey(validated)(id));
    }
    ClassesSumToAll(NotAttemptedIds(validated), NaKey(validated), NA_CATEGORIES);
  }

  /** The classes counted: the findings of a verdict, and those not attempted of a category. */
  lemma ClassesExact(validated: Validated, v: Verdict, c: NaCategory)
    ensures Class(validated.Keys, VerdictKey(validated), v) == set id | id in validated && validated[id].verdict == v
    ensures Class(NotAttemptedIds(validated), NaKey(validated), c) ==
      set id | id in validated && validated[id].verdict == NotAttempted && NaCat(validated[id].skipReason) == c
  {
  }

  lemma EveryCategoryListed(c: NaCategory)
    ensures c in NA_CATEGORIES
  {
    assert NA_CATEGORIES[0] == TriageFp && NA_CATEGORIES[1] == WrongSurface && NA_CATEGORIES[2] == NeedsCredential
        && NA_CATEGORIES[3] == NoPoc && NA_CATEGORIES[4] == Env && NA_CATEGORIES[5] == Policy && NA_CATEGORIES[6] == Other;
  }

  // ---------- chain rows ----------

  datatype StepRef = StepRef(stepId: string, findingRef: string, verdict: Verdict)
  datatype ChainRow = ChainRow(chainId: nat, steps: seq<StepRef>, verdict: Verdict)

  function RefOf(r: StepResult): StepRef {
    StepRef(r.stepId, r.findingRef, r.verdict)
  }

  predicate Listed(refs: seq<StepRef>, stepId: string) {
    exists i :: 0 <= i < |refs| && refs[i].stepId == stepId
  }

  /** Every result of the chain's findings, in path order. */
  ghost function OnPath(fids: seq<string>, results: seq<StepResult>): seq<StepResult> {
    if fids == [] then [] else OnPath(fids[..|fids| - 1], results) + StepsFor(fids[|fids| - 1], results)
  }

  /** Connectors are dropped, and of the results under one step id the first is kept. */
  ghost function RefsOf(rs: seq<StepResult>): seq<StepRef> {
    if rs == [] then []
    else
      var r, before := rs[|rs| - 1], RefsOf(rs[..|rs| - 1]);
      if r.verb in GLUE_VERBS || Listed(before, r.stepId) then before else before + [RefOf(r)]
  }

  function Joint(v: Verdict, next: Verdict): Verdict {
    if next == Confirmed then Confirmed else if v == NotAttempted then next else v
  }

  ghost function VerdictOf(refs: seq<StepRef>): Verdict {
    if refs == [] then NotAttempted else Joint(VerdictOf(refs[..|refs| - 1]), refs[|refs| - 1].verdict)
  }

  ghost function IdsOf(refs: seq<StepRef>): set<string> {
    set i | 0 <= i < |refs| :: refs[i].stepId
  }

  method ResultsByFinding(results: seq<StepResult>) returns (byId: map<string, seq<StepResult>>)
    ensures forall id :: (if id in byId then byId[id] else []) == StepsFor(id, results)
  {
    byId := map[];
    for i := 0 to |results|
      invariant forall id :: (if id in byId then byId[id] else []) == StepsFor(id, results[..i])
    {
      var r := results[i];
      assert results[..i + 1][..i] == results[..i];
      if r.findingRef != "" {
        byId := byId[r.findingRef := (if r.findingRef in byId then byId[r.findingRef] else []) + [r]];
      }
    }
    assert results[..|results|] == results;
  }

  /** What the assembly loop has built after visiting `rs`. */
  ghost predicate Assembled(rs: seq<StepResult>, refs: seq<StepRef>, verdict: Verdict, seen: set<string>) {
    refs == RefsOf(rs) && verdict == VerdictOf(refs) && seen == IdsOf(refs)
  }

  lemma AssembleOne(rs: seq<StepResult>, refs: seq<StepRef>, verdict: Verdict, seen: set<string>, r: StepResult)
    requires Assembled(rs, refs, verdict, seen)
    ensures if r.verb in GLUE_VERBS || r.stepId in seen then Assembled(rs + [r], refs, verdict, seen)
            else Assembled(rs + [r], refs + [RefOf(r)], Joint(verdict, r.verdict), seen + {r.stepId})
  {
    assert (rs + [r])[..|rs|] == rs;
    assert (refs + [RefOf(r)])[..|refs|] == refs;
    assert r.stepId in seen <==> Listed(refs, r.stepId);
    IdsSnoc(refs, RefOf(r));
  }

  /** The results of one finding, added to a row under construction. */
  method AppendResults(own: seq<StepResult>, refs0: seq<StepRef>, verdict0: Verdict, seen0: set<string>,
                       ghost before: seq<StepResult>)
    returns (refs: seq<StepRef>, verdict: Verdict, seen: set<string>)
    requires Assembled(before, refs0, verdict0, seen0)
    ensures Assembled(before + own, refs, verdict, seen)
  {
    refs, verdict, seen := refs0, verdict0, seen0;
    assert before + own[..0] == before;
    for j := 0 to |own|
      invariant Assembled(before + own[..j], refs, verdict, seen)
    {
      var r := own[j];
      AssembleOne(before + own[..j], refs, verdict, seen, r);
      assert before + own[..j] + [r] == before + own[..j + 1];
      if r.verb in GLUE_VERBS || r.stepId in seen {
        continue;
      }
      seen := seen + {r.stepId};
      refs := refs + [RefOf(r)];
      verdict := Joint(verdict, r.verdict);
    }
    assert own[..|own|] == own;
  }

  method AssembleChain(fids: seq<string>, byId: map<string, seq<StepResult>>, ghost results: seq<StepResult>)
    returns (refs: seq<StepRef>, verdict: Verdict)
    requires forall id :: (if id in byId then byId[id] else []) == StepsFor(id, results)
    ensures refs == RefsOf(OnPath(fids, results)) && verdict == VerdictOf(refs)
  {
    refs, verdict := [], NotAttempted;
    var seen: set<string> := {};
    for i := 0 to |fids|
      invariant Assembled(OnPath(fids[..i], results), refs, verdict, seen)
    {
      assert fids[..i + 1][..i] == fids[..i];
      var own := if fids[i] in byId then byId[fids[i]] else [];
      refs, verdict, seen := AppendResults(own, refs, verdict, seen, OnPath(fids[..i], results));
    }
    assert fids[..|fids|] == fids;
  }

  lemma IdsSnoc(refs: seq<StepRef>, x: StepRef)
    ensures IdsOf(refs + [x]) == IdsOf(refs) + {x.stepId}
  {
    var all := refs + [x];
    assert all[|refs|] == x;
    forall id | id in IdsOf(refs)
      ensures id in IdsOf(all)
    {
      var i :| 0 <= i < |refs| && refs[i].stepId == id;
      assert all[i].stepId == id;
    }
  }

  /** The reference to the first result under its step id that is no connector. */
  ghost predicate ComesFrom(rs: seq<StepResult>, ref: StepRef) {
    exists k :: 0 <= k < |rs| && FirstUnderId(rs, k)
      && ref.stepId == rs[k].stepId && ref.findingRef == rs[k].findingRef && ref.verdict == rs[k].verdict
  }

  ghost predicate FirstUnderId(rs: seq<StepResult>, k: nat)
    requires k < |rs|
  {
    rs[k].verb != "glue" && forall j :: 0 <= j < k ==> rs[j].verb == "glue" || rs[j].stepId != rs[k].stepId
  }

  lemma ComesFromLonger(rs: seq<StepResult>, r: StepResult, ref: StepRef)
    requires ComesFrom(rs, ref)
    ensures ComesFrom(rs + [r], ref)
  {
    var all := rs + [r];
    var k :| 0 <= k < |rs| && FirstUnderId(rs, k)
      && ref.stepId == rs[k].stepId && ref.findingRef == rs[k].findingRef && ref.verdict == rs[k].verdict;
    assert all[k] == rs[k] && FirstUnderId(all, k);
  }

  /** A chain row lists each attempted step of its findings once and no connector. */
  lemma {:induction false} RowListsEachStepOnce(rs: seq<StepResult>)
    ensures var refs := RefsOf(rs);
      && (forall i, j :: 0 <= i < j < |refs| ==> refs[i].stepId != refs[j].stepId)
      && (forall i :: 0 <= i < |refs| ==> ComesFrom(rs, refs[i]))
      && (forall r :: r in rs && r.verb != "glue" ==> Listed(refs, r.stepId))
  {
    if rs != [] {
      var init, r := rs[..|rs| - 1], rs[|rs| - 1];
      assert rs == init + [r];
      RowListsEachStepOnce(init);
      ListedOneMore(init, r);
      var before, refs := RefsOf(init), RefsOf(rs);
      forall i | 0 <= i < |before|
        ensures ComesFrom(rs, before[i])
      {
        ComesFromLonger(init, r, before[i]);
      }
      if |refs| > |before| {
        assert forall j :: 0 <= j < |init| ==> init[j] in init && rs[j] == init[j];
        assert FirstUnderId(rs, |init|);
      }
    }
  }

  lemma ListedOneMore(rs: seq<StepResult>, r: StepResult)
    requires forall s :: s in rs && s.verb != "glue" ==> Listed(RefsOf(rs), s.stepId)
    ensures forall s :: s in rs + [r] && s.verb != "glue" ==> Listed(RefsOf(rs + [r]), s.stepId)
  {
    assert (rs + [r])[..|rs|] == rs;
    var before, refs := RefsOf(rs), RefsOf(rs + [r]);
    forall s | s in rs + [r] && s.verb != "glue"
      ensures Listed(refs, s.stepId)
    {
      if Listed(before, s.stepId) {
        var i :| 0 <= i < |before| && before[i].stepId == s.stepId;
        assert refs[i] == before[i];
      } else {
        assert refs[|before|] == RefOf(s);
      }
    }
  }

  /** A row is confirmed exactly when one of its listed steps is; otherwise the first listed step that
  was attempted decides, and with none it is `not_attempted`. */
  lemma {:induction false} RowVerdictExact(refs: seq<StepRef>)
    ensures VerdictOf(refs) == Confirmed <==> exists i :: 0 <= i < |refs| && refs[i].verdict == Confirmed
    ensures VerdictOf(refs) == NotAttempted <==> forall i :: 0 <= i < |refs| ==> refs[i].verdict == NotAttempted
    ensures VerdictOf(refs) !in {Confirmed, NotAttempted} ==>
      exists i :: 0 <= i < |refs| && refs[i].verdict == VerdictOf(refs) && forall j :: 0 <= j < i ==> refs[j].verdict == NotAttempted
  {
    if refs != [] {
      var init, last := refs[..|refs| - 1], refs[|refs| - 1];
      RowVerdictExact(init);
      assert forall i :: 0 <= i < |init| ==> refs[i] == init[i];
      assert refs[|refs| - 1] == last;
    }
  }

  ghost function RowOf(c: Chain, results: seq<StepResult>): ChainRow {
    var refs := RefsOf(OnPath(c.findingIds, results));
    ChainRow(c.id, refs, VerdictOf(refs))
  }

  /** One row per chain with at least two attempted steps, in chain order. */
  ghost function Rows(chains: seq<Chain>, results: seq<StepResult>): seq<ChainRow> {
    if chains == [] then []
    else
      var row, before := RowOf(chains[|chains| - 1], results), Rows(chains[..|chains| - 1], results);
      if |row.steps| < 2 then before else before + [row]
  }

  method ChainRows(chains: seq<Chain>, results: seq<StepResult>) returns (rows: seq<ChainRow>)
    ensures rows == Rows(chains, results)
  {
    var byId := ResultsByFinding(results);
    rows := [];
    for i := 0 to |chains|
      invariant rows == Rows(chains[..i], results)
    {
      assert chains[..i + 1][..i] == chains[..i];
      var refs, verdict := AssembleChain(chains[i].findingIds, byId, results);
      if |refs| < 2 {
        continue;
      }
      rows := rows + [ChainRow(chains[i].id, refs, verdict)];
    }
    assert chains[..|chains|] == chains;
  }

  ghost predicate FirstConfirmedRow(rows: seq<ChainRow>, highest: Option<nat>) {
    match highest
    case None => forall i :: 0 <= i < |rows| ==> rows[i].verdict != Confirmed
    case Some(id) => exists i :: 0 <= i < |rows| && FirstConfirmedAt(rows, i) && rows[i].chainId == id
  }

  ghost predicate FirstConfirmedAt(rows: seq<ChainRow>, i: nat)
    requires i < |rows|
  {
    rows[i].verdict == Confirmed && forall j :: 0 <= j < i ==> rows[j].verdict != Confirmed
  }

  method HighestChain(rows: seq<ChainRow>) returns (highest: Option<nat>)
    ensures FirstConfirmedRow(rows, highest)
  {
    for i := 0 to |rows|
      invariant forall j :: 0 <= j < i ==> rows[j].verdict != Confirmed
    {
      if rows[i].verdict == Confirmed {
        assert FirstConfirmedAt(rows, i);
        return Some(rows[i].chainId);
      }
    }
    return None;
  }

  method RollUpAndBackstop(findings: seq<string>, results: seq<StepResult>) returns (validated: Validated)
    ensures validated.Keys == set f | f in findings
    ensures forall id :: id in validated ==> validated[id] == Backstopped(Rolled(id, results))
  {
    var rolled := RollUp(findings, results);
    validated := Backstop(rolled);
  }

  /** `build_validation_json`, up to prose and metadata. */
  method BuildReport(findings: seq<string>, results: seq<StepResult>, chains: seq<Chain>)
    returns (validated: Validated, byVerdict: map<Verdict, nat>, naByReason: map<NaCategory, nat>,
             rows: seq<ChainRow>, highest: Option<nat>)
    ensures validated.Keys == set f | f in findings
    ensures forall id :: id in validated ==> validated[id] == Backstopped(Rolled(id, results))
    ensures forall v :: v in VERDICTS ==> v in byVerdict
    ensures forall v :: v in byVerdict ==> byVerdict[v] == |Class(validated.Keys, VerdictKey(validated), v)|
    ensures forall c :: c in naByReason ==> naByReason[c] == |Class(NotAttemptedIds(validated), NaKey(validated), c)|
    ensures forall c :: c !in naByReason ==> Class(NotAttemptedIds(validated), NaKey(validated), c) == {}
    ensures rows == Rows(chains, results)
    ensures FirstConfirmedRow(rows, highest)
  {
    validated := RollUpAndBackstop(findings, results);
    byVerdict := CountVerdicts(validated);
    naByReason := Tally(NotAttemptedIds(validated), NaKey(validated));
    rows := ChainRows(chains, results);
    highest := HighestChain(rows);
  }

  // ---------- from the executor to the report ----------

  /** The gate holds end to end: on the results of any run, the finding-level backstop is idle and
  whatever is reported refuted rests on a clean probe of a deployed target. */
  lemma GateHoldsEndToEnd(cfg: Executor.Config, steps: seq<Step>, id: string)
    ensures var results := Executor.Results(Executor.Play(cfg, steps));
      var e := Backstopped(Rolled(id, results));
      && e == Rolled(id, results)
      && (e.verdict == Refuted ==>
            !cfg.world.installFailed &&
            exists r :: r in results && Bears(id, r) && r.verdict == Refuted && Clean(r.verb, r.observed))
  {
    var results := Executor.Results(Executor.Play(cfg, steps));
    forall r | r in results && r.verdict == Refuted
      ensures !cfg.world.installFailed && Clean(r.verb, r.observed)
    {
      ExecutorSafety.RefutationsAreSound(cfg, steps, r);
    }
    BackstopIsIdleOnGatedResults(id, results);
    VerdictIsBest(id, results);
  }
}
