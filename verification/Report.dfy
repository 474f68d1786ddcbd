/** The finding roll-up, soundness backstop, counters and chain rows of report.py. */
module Report {
  import opened Options
  import opened Soundness
  import opened Steps

  const PRIMARY_VERBS: set<string> := {
    "apply-manifest", "raw", "exec", "port-forward+http", "invoke-export", "network-probe", "noop",
    "rbac-can-i", "get", "describe", "create-cr", "patch-cr"
  }
  const SKIP_VERBS: set<string> := {"noop", "placeholder"}
  const GLUE_VERBS: set<string> := {"glue"}

  datatype Technique = Skip | Replay | Novel

  /** One validated finding as the report builds it up. */
  datatype Entry = Entry(
    verdict: Verdict, skipReason: Option<string>, flag: Option<Flag>, technique: Technique,
    steps: seq<StepResult>, impact: Option<Transcript>, rollback: Option<bool>)

  const BLANK := Entry(NotAttempted, None, None, Skip, [], None, None)

  type Validated = map<string, Entry>

  function Precedence(v: Verdict): nat {
    match v
    case Confirmed => 0
    case Refuted => 1
    case Inconclusive => 2
    case BlockedByScope => 3
    case NotAttempted => 4
    case Unlisted(_) => 5
  }

  predicate Primary(r: StepResult) {
    r.verb in PRIMARY_VERBS && r.verb !in GLUE_VERBS
  }

  predicate PlannerSkip(r: StepResult) {
    r.verb in SKIP_VERBS && r.verdict == NotAttempted
  }

  /** A real attempt at the finding's claim; only these drive its verdict. */
  predicate Counted(r: StepResult) {
    Primary(r) && !PlannerSkip(r)
  }

  function Reason(r: StepResult): Option<string> {
    if r.scopeReason == "" then None else Some(r.scopeReason)
  }

  function Absorb(e: Entry, r: StepResult): Entry {
    var e1 := e.(steps := e.steps + [r],
                 rollback := if r.rollbackPerformed.Some? then r.rollbackPerformed else e.rollback);
    if !Primary(r) then e1
    else if PlannerSkip(r) then
      e1.(skipReason := if e1.skipReason.None? then Reason(r) else e1.skipReason)
    else
      var e2 := if Precedence(r.verdict) < Precedence(e1.verdict)
        then e1.(verdict := r.verdict, impact := Some(r.observed), flag := r.flag,
                 skipReason := if r.verdict in {NotAttempted, BlockedByScope} then Reason(r) else None)
        else e1;
      e2.(technique := if e2.technique == Skip then (if r.novelRef == "" then Replay else Novel) else e2.technique)
  }

  /** The entry of finding `id` after the results so far. */
  ghost function Rolled(id: string, results: seq<StepResult>): Entry {
    if results == [] then BLANK
    else
      var r := results[|results| - 1];
      var before := Rolled(id, results[..|results| - 1]);
      if r.findingRef == id && id != "" then Absorb(before, r) else before
  }

  method RollUp(findings: seq<string>, results: seq<StepResult>) returns (validated: Validated)
    ensures validated.Keys == set f | f in findings
    ensures forall id :: id in validated ==> validated[id] == Rolled(id, results)
  {
    validated := map[];
    for i := 0 to |findings|
      invariant validated.Keys == set f | f in findings[..i]
      invariant forall id :: id in validated ==> validated[id] == BLANK
    {
      validated := validated[findings[i] := BLANK];
    }
    assert findings[..|findings|] == findings;
    for i := 0 to |results|
      invariant validated.Keys == set f | f in findings
      invariant forall id :: id in validated ==> validated[id] == Rolled(id, results[..i])
    {
      var r := results[i];
      assert results[..i + 1][..i] == results[..i];
      if r.findingRef == "" || r.findingRef !in validated {
        continue;
      }
      validated := validated[r.findingRef := Absorb(validated[r.findingRef], r)];
    }
    assert results[..|results|] == results;
  }

  // ---------- the verdict of a finding ----------

  /** A real attempt at the finding's claim: one of the primary verbs, and not the planner's own note
  that it has nothing to run. */
  ghost predicate Bears(id: string, r: StepResult) {
    && r.findingRef == id && id != ""
    && r.verb in {"apply-manifest", "raw", "exec", "port-forward+http", "invoke-export", "network-probe", "noop",
                  "rbac-can-i", "get", "describe", "create-cr", "patch-cr"}
    && !(r.verb == "noop" && r.verdict == NotAttempted)
  }

  ghost predicate Reached(id: string, results: seq<StepResult>, v: Verdict) {
    exists r :: r in results && Bears(id, r) && r.verdict == v
  }

  /** The five listed verdicts, the better the earlier; one attempt reaching it is enough. */
  ghost function BestReached(id: string, results: seq<StepResult>): Verdict {
    if Reached(id, results, Confirmed) then Confirmed
    else if Reached(id, results, Refuted) then Refuted
    else if Reached(id, results, Inconclusive) then Inconclusive
    else if Reached(id, results, BlockedByScope) then BlockedByScope
    else NotAttempted
  }

  lemma BearsExact(id: string, r: StepResult)
    ensures Bears(id, r) <==> r.findingRef == id && id != "" && Counted(r)
  {
  }

  lemma ReachedOn(id: string, results: seq<StepResult>, r: StepResult, v: Verdict)
    ensures Reached(id, results + [r], v) <==> Reached(id, results, v) || (Bears(id, r) && r.verdict == v)
  {
    if Bears(id, r) && r.verdict == v {
      assert r in results + [r];
    }
  }

  /** A finding is confirmed when some attempt at it was; refuted when none was and some was refuted;
  failing both inconclusive, then blocked, when some attempt was; and otherwise not attempted. */
  lemma {:induction false} VerdictExact(id: string, results: seq<StepResult>)
    ensures Rolled(id, results).verdict == BestReached(id, results)
  {
    if results != [] {
      var init, r := results[..|results| - 1], results[|results| - 1];
      VerdictExact(id, init);
      BestOn(id, init, r);
      BearsExact(id, r);
      assert results == init + [r];
    }
  }

  lemma BestOn(id: string, results: seq<StepResult>, r: StepResult)
    ensures var before := BestReached(id, results);
      BestReached(id, results + [r]) ==
        if Bears(id, r) && Precedence(r.verdict) < Precedence(before) then r.verdict else before
  {
    forall v
      ensures Reached(id, results + [r], v) <==> Reached(id, results, v) || (Bears(id, r) && r.verdict == v)
    {
      ReachedOn(id, results, r, v);
    }
  }

  /** No counted attempt beats the rolled-up verdict, and some attempt reached it. */
  lemma VerdictIsBest(id: string, results: seq<StepResult>)
    ensures var v := Rolled(id, results).verdict;
      && (forall r :: r in results && Bears(id, r) ==> Precedence(v) <= Precedence(r.verdict))
      && (v == NotAttempted || exists r :: r in results && Bears(id, r) && r.verdict == v)
      && Precedence(v) <= Precedence(NotAttempted)
  {
    VerdictExact(id, results);
    forall r | r in results && Bears(id, r)
      ensures Precedence(Rolled(id, results).verdict) <= Precedence(r.verdict)
    {
      assert Reached(id, results, r.verdict);
    }
  }

  /** Shuffling the results never changes a verdict. */
  lemma VerdictIgnoresOrder(id: string, a: seq<StepResult>, b: seq<StepResult>)
    requires forall r :: r in a <==> r in b
    ensures Rolled(id, a).verdict == Rolled(id, b).verdict
  {
    VerdictExact(id, a);
    VerdictExact(id, b);
    forall v
      ensures Reached(id, a, v) <==> Reached(id, b, v)
    {
    }
  }

  lemma RolledOne(id: string, r: StepResult)
    requires id != "" && r.findingRef == id
    ensures Rolled(id, [r]) == Absorb(BLANK, r)
  {
    assert [r][..0] == [];
    assert Rolled(id, []) == BLANK;
  }

  ghost predicate Explains(id: string, r: StepResult, reason: Option<string>) {
    r.findingRef == id && Primary(r) && PlannerSkip(r) && Reason(r) == reason
  }

  /** A real attempt that ended `not_attempted` leaves no reason behind: it cannot improve on the
  initial verdict, so a finding nothing was attempted for is explained by planner skips alone. */
  lemma {:induction false} AttemptsNeverExplain(id: string, results: seq<StepResult>)
    requires Rolled(id, results).verdict == NotAttempted && Rolled(id, results).skipReason.Some?
    ensures exists r :: r in results && Explains(id, r, Rolled(id, results).skipReason)
  {
    if results != [] {
      var init, r := results[..|results| - 1], results[|results| - 1];
      assert results == init + [r];
      VerdictIsBest(id, init);
      var e := Rolled(id, init);
      if Rolled(id, results).skipReason == e.skipReason && e.skipReason.Some? && e.verdict == NotAttempted {
        AttemptsNeverExplain(id, init);
      } else {
        assert r in results;
      }
    }
  }

  // ---------- the backstop ----------

  function AsProbe(r: StepResult): Probe {
    Probe(r.verb, r.verdict, r.observed, [], None)
  }

  function AsRollup(e: Entry): Rollup {
    Rollup(e.verdict, e.flag, seq(|e.steps|, i requires 0 <= i < |e.steps| => AsProbe(e.steps[i])), e.impact)
  }

  ghost function Backstopped(e: Entry): Entry {
    if e.verdict != Refuted || e.flag.Some? then e
    else
      var flag := FlagOf(AsRollup(e), false, false, false);
      if flag.Some? then e.(verdict := Inconclusive, flag := flag) else e
  }

  method Backstop(validated: Validated) returns (out: Validated)
    ensures out.Keys == validated.Keys
    ensures forall id :: id in out ==> out[id] == Backstopped(validated[id])
  {
    out := validated;
    var todo := validated.Keys;
    while todo != {}
      invariant todo <= validated.Keys == out.Keys
      invariant forall id :: id in out ==> out[id] == if id in todo then validated[id] else Backstopped(validated[id])
      decreases todo
    {
      var id :| id in todo;
      todo := todo - {id};
      var vf := out[id];
      if vf.verdict != Refuted || vf.flag.Some? {
        continue;
      }
      var flag := FlagValidatedFinding(AsRollup(vf), false, false, false);
      if flag.Some? {
        out := out[id := vf.(verdict := Inconclusive, flag := flag)];
      }
    }
  }

  /** The results recorded for a finding, whatever their verb. */
  ghost function StepsFor(id: string, results: seq<StepResult>): seq<StepResult> {
    if results == [] then []
    else
      var r, before := results[|results| - 1], StepsFor(id, results[..|results| - 1]);
      if r.findingRef == id && id != "" then before + [r] else before
  }

  lemma {:induction false} EntrySteps(id: string, results: seq<StepResult>)
    ensures Rolled(id, results).steps == StepsFor(id, results)
  {
    if results != [] {
      EntrySteps(id, results[..|results| - 1]);
    }
  }

  lemma {:induction false} StepsForMembers(id: string, results: seq<StepResult>, r: StepResult)
    ensures r in StepsFor(id, results) <==> r in results && r.findingRef == id && id != ""
  {
    if results != [] {
      var init, last := results[..|results| - 1], results[|results| - 1];
      StepsForMembers(id, init, r);
      assert results == init + [last];
    }
  }

  ghost predicate CleanRefutation(id: string, r: StepResult) {
    r.findingRef == id && r.verdict == Refuted && Clean(r.verb, r.observed)
  }

  /** Among ungated results too, a finding is reported refuted with no flag exactly when its roll-up
  was so and at least one of its refuted steps, primary or not, is clean. */
  lemma BackstopExact(id: string, results: seq<StepResult>)
    ensures var before, after := Rolled(id, results), Backstopped(Rolled(id, results));
      after.verdict == Refuted && after.flag == None <==>
        before.verdict == Refuted && before.flag == None && exists r :: r in results && CleanRefutation(id, r)
  {
    var e := Rolled(id, results);
    if e.verdict == Refuted && e.flag == None {
      var vf := AsRollup(e);
      VerdictIsBest(id, results);
      EntrySteps(id, results);
      assert !HasControl(vf.steps, false) && !HasDifferential(vf.steps, false);
      RefutationStands(vf, false, false, false);
      SupportedExact(vf);
      var witness0 :| witness0 in results && Bears(id, witness0) && witness0.verdict == Refuted;
      ProbesAreRefutedSteps(id, results, witness0.verb, witness0.observed);
      assert RefutingProbes(vf.steps) != [];
      CleanProbeIsCleanStep(id, results);
    }
  }

  lemma ProbesAreRefutedSteps(id: string, results: seq<StepResult>, verb: string, observed: Transcript)
    ensures (verb, observed) in RefutingProbes(AsRollup(Rolled(id, results)).steps) <==>
      exists r :: r in results && r.findingRef == id && id != "" && r.verdict == Refuted && r.verb == verb && r.observed == observed
  {
    var e := Rolled(id, results);
    var steps := AsRollup(e).steps;
    EntrySteps(id, results);
    RefutingProbesMembers(steps, verb, observed);
    if r :| r in results && r.findingRef == id && id != "" && r.verdict == Refuted && r.verb == verb && r.observed == observed {
      StepsForMembers(id, results, r);
      var i :| 0 <= i < |e.steps| && e.steps[i] == r;
      assert Refuting(steps[i]) && steps[i].verb == verb && steps[i].observed == observed;
    }
    if i :| 0 <= i < |steps| && Refuting(steps[i]) && steps[i].verb == verb && steps[i].observed == observed {
      StepsForMembers(id, results, e.steps[i]);
      assert e.steps[i] in results;
    }
  }

  lemma CleanProbeIsCleanStep(id: string, results: seq<StepResult>)
    requires RefutingProbes(AsRollup(Rolled(id, results)).steps) != []
    ensures HasCleanProbe(AsRollup(Rolled(id, results))) <==> exists r :: r in results && CleanRefutation(id, r)
  {
    var vf := AsRollup(Rolled(id, results));
    var probes := ProbesOf(vf);
    ProbesAreRefutedSteps(id, results, probes[0].0, probes[0].1);
    if i :| 0 <= i < |probes| && Clean(probes[i].0, probes[i].1) {
      ProbesAreRefutedSteps(id, results, probes[i].0, probes[i].1);
      assert (probes[i].0, probes[i].1) == probes[i];
    }
    if r :| r in results && CleanRefutation(id, r) {
      ProbesAreRefutedSteps(id, results, r.verb, r.observed);
      var i :| 0 <= i < |probes| && probes[i] == (r.verb, r.observed);
    }
  }

  /** The two layers agree: on results that went through the executor's gate the backstop changes
  nothing. */
  lemma BackstopIsIdleOnGatedResults(id: string, results: seq<StepResult>)
    requires forall r :: r in results && r.verdict == Refuted ==> Clean(r.verb, r.observed)
    ensures Backstopped(Rolled(id, results)) == Rolled(id, results)
  {
    var e := Rolled(id, results);
    if e.verdict == Refuted && e.flag == None {
      VerdictIsBest(id, results);
      var r :| r in results && Bears(id, r) && r.verdict == Refuted;
      assert CleanRefutation(id, r);
      BackstopExact(id, results);
    }
  }

  const ERRORED_ATTEMPT :=
    StepResult("step-004", "k8s", "raw", Safe, Refuted, SILENT.(errors := {Forbidden}), None, "", None, "f", "")
  const REFUTED_GLUE := StepResult("step-009", "k8s", "glue", Safe, Refuted, SILENT, None, "", None, "f", "")

  /** The clean probe that lets a refutation stand may be a secondary step. In this list of ungated
  results, which no adapter as shipped returns, the only step that drove the verdict errored out, and
  a glue step vouches for it; without that step the refutation falls. */
  lemma GlueCanVouch()
    ensures Bears("f", ERRORED_ATTEMPT) && !Clean(ERRORED_ATTEMPT.verb, ERRORED_ATTEMPT.observed)
    ensures !Bears("f", REFUTED_GLUE)
    ensures var e := Backstopped(Rolled("f", [ERRORED_ATTEMPT, REFUTED_GLUE])); e.verdict == Refuted && e.flag == None
    ensures Backstopped(Rolled("f", [ERRORED_ATTEMPT])).verdict == Inconclusive
  {
    var alone, both := [ERRORED_ATTEMPT], [ERRORED_ATTEMPT, REFUTED_GLUE];
    assert both[..1] == alone;
    RolledOne("f", ERRORED_ATTEMPT);
    assert Primary(ERRORED_ATTEMPT) && !PlannerSkip(ERRORED_ATTEMPT);
    assert Rolled("f", both).verdict == Refuted && Rolled("f", both).flag == None;
    assert REFUTED_GLUE in both && CleanRefutation("f", REFUTED_GLUE);
    BackstopExact("f", both);
    BackstopExact("f", alone);
  }
}
