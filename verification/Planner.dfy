/** `build_plan` of plan.py: recon, one replay section per finding, glue for each chain, a novel
placeholder, and a final pass that classifies and scope-checks in place.

What the PoC and CWE builders would produce for a finding is an input, as drafts without id. */
module Planner {
  import opened Options
  import opened Steps
  import opened Text
  import ChainGraph

  datatype Draft = Draft(
    adapted: bool, adapter: string, verb: string, target: Target, commands: seq<KubeCommand>, classification: Class)

  /** A finding with what the step builders make of it: one optional draft per PoC, an adapted
  fallback, and the reason to give when there is neither. */
  datatype Candidate = Candidate(
    node: ChainGraph.Finding, confidence: int, surface: string, credential: Option<string>,
    pocs: seq<Option<Draft>>, fallback: Option<Draft>, noStepReason: string)

  function StepId(n: nat): string {
    "step-" + Padded(n, 3)
  }

  lemma StepIdInjective(m: nat, n: nat)
    requires StepId(m) == StepId(n)
    ensures m == n
  {
    assert StepId(m)[5..] == Padded(m, 3) && StepId(n)[5..] == Padded(n, 3);
    PaddedInjective(m, n, 3);
  }

  // ---------- what each finding contributes ----------

  function ReconStep(id: string, d: Draft): Step {
    Step(id, "recon", d.adapter, d.verb, d.target, d.commands, Safe, "", [], "", "")
  }

  function SkipStep(id: string, f: Candidate, reason: string): Step {
    Step(id, "skip", "k8s", "noop", NO_TARGET, [], Safe, reason, [], f.node.id, "")
  }

  function AttemptStep(id: string, f: Candidate, d: Draft): Step {
    Step(id, if d.adapted then "adapted" else "replay", d.adapter, d.verb, d.target, d.commands,
         d.classification, "", [], f.node.id, "")
  }

  function GlueStep(id: string, fid: string, base: Option<string>): Step {
    Step(id, "chained", "k8s", "glue", NO_TARGET, [], Safe, "", if base.Some? then [base.value] else [], fid, "")
  }

  function PlaceholderStep(id: string): Step {
    Step(id, "novel", "k8s", "placeholder", NO_TARGET, [], Safe, "deferred-until-recon", [], "", "")
  }

  predicate IsAttempt(s: Step) {
    s.technique == "replay" || s.technique == "adapted"
  }

  /** Why a finding is not attempted at all, if it is not. */
  function EarlySkip(f: Candidate): Option<string> {
    if f.node.falsePositive then Some("triage-false-positive")
    else if !f.node.runtime then Some("wrong-surface:" + f.surface)
    else if f.credential.Some? then Some("needs-credential:" + f.credential.value)
    else None
  }

  function Drafts(pocs: seq<Option<Draft>>): seq<Draft> {
    if pocs == [] then []
    else
      var last, before := pocs[|pocs| - 1], Drafts(pocs[..|pocs| - 1]);
      if last.Some? then before + [last.value] else before
  }

  lemma DraftsSnoc(pocs: seq<Option<Draft>>, i: nat)
    requires i < |pocs|
    ensures Drafts(pocs[..i + 1]) ==
      if pocs[i].Some? then Drafts(pocs[..i]) + [pocs[i].value] else Drafts(pocs[..i])
  {
    assert pocs[..i + 1][..i] == pocs[..i];
  }

  /** The drafts a finding is attempted with: every PoC that converts, or else the fallback. */
  function AttemptsFor(f: Candidate): seq<Draft> {
    if EarlySkip(f).Some? then []
    else if Drafts(f.pocs) != [] then Drafts(f.pocs)
    else if f.fallback.Some? then [f.fallback.value]
    else []
  }

  function SkipReasonFor(f: Candidate): string {
    if EarlySkip(f).Some? then EarlySkip(f).value else f.noStepReason
  }

  function Unnumbered(s: Step): Step {
    s.(id := "")
  }

  /** The section of one finding, up to step ids: its attempts, or a single reasoned skip. */
  ghost function Section(f: Candidate): seq<Step> {
    var ds := AttemptsFor(f);
    if ds == [] then [SkipStep("", f, SkipReasonFor(f))]
    else AttemptSteps(f, ds)
  }

  ghost function AttemptSteps(f: Candidate, ds: seq<Draft>): (r: seq<Step>)
    ensures |r| == |ds|
    ensures forall i :: 0 <= i < |r| ==> r[i] == AttemptStep("", f, ds[i])
  {
    if ds == [] then [] else AttemptSteps(f, ds[..|ds| - 1]) + [AttemptStep("", f, ds[|ds| - 1])]
  }

  lemma SectionCases(f: Candidate)
    ensures EarlySkip(f).Some? ==> Section(f) == [SkipStep("", f, EarlySkip(f).value)]
    ensures EarlySkip(f).None? && Drafts(f.pocs) != [] ==> Section(f) == AttemptSteps(f, Drafts(f.pocs))
    ensures EarlySkip(f).None? && Drafts(f.pocs) == [] ==>
      Section(f) == if f.fallback.Some? then [AttemptStep("", f, f.fallback.value)] else [SkipStep("", f, f.noStepReason)]
  {
    if f.fallback.Some? {
      assert [f.fallback.value][..0] == [];
    }
  }

  lemma AttemptsSnoc(start: seq<Step>, f: Candidate, ds: seq<Draft>, d: Draft)
    ensures start + AttemptSteps(f, ds + [d]) == (start + AttemptSteps(f, ds)) + [AttemptStep("", f, d)]
  {
    assert (ds + [d])[..|ds|] == ds;
  }

  ghost function ReconSteps(recon: seq<Draft>): seq<Step> {
    if recon == [] then [] else ReconSteps(recon[..|recon| - 1]) + [ReconStep("", recon[|recon| - 1])]
  }

  /** One glue step per finding of a chain, waiting for the first attempt at that finding if any. */
  ghost function GlueSteps(fids: seq<string>, first: map<string, string>): seq<Step> {
    if fids == [] then []
    else
      var fid := fids[|fids| - 1];
      GlueSteps(fids[..|fids| - 1], first) + [GlueStep("", fid, Base(first, fid))]
  }

  lemma GlueStepsSnoc(start: seq<Step>, fids: seq<string>, first: map<string, string>, i: nat)
    requires i < |fids|
    ensures start + GlueSteps(fids[..i + 1], first)
         == (start + GlueSteps(fids[..i], first)) + [GlueStep("", fids[i], Base(first, fids[i]))]
  {
    assert fids[..i + 1][..i] == fids[..i];
  }

  ghost function Shapes(steps: seq<Step>): seq<Step> {
    if steps == [] then [] else Shapes(steps[..|steps| - 1]) + [Unnumbered(steps[|steps| - 1])]
  }

  lemma ShapesSnoc(steps: seq<Step>, s: Step)
    ensures Shapes(steps + [s]) == Shapes(steps) + [Unnumbered(s)]
  {
    assert (steps + [s])[..|steps|] == steps;
  }

  // ---------- the planner's state ----------

  ghost predicate FirstAttempt(steps: seq<Step>, fid: string, id: string) {
    exists j :: 0 <= j < |steps| && FirstAttemptAt(steps, fid, id, j)
  }

  ghost predicate FirstAttemptAt(steps: seq<Step>, fid: string, id: string, j: nat)
    requires j < |steps|
  {
    && steps[j].id == id && steps[j].findingRef == fid && IsAttempt(steps[j])
    && forall i :: 0 <= i < j ==> !(steps[i].findingRef == fid && IsAttempt(steps[i]))
  }

  ghost predicate NeverAttempted(steps: seq<Step>, fid: string) {
    forall i :: 0 <= i < |steps| ==> !(steps[i].findingRef == fid && IsAttempt(steps[i]))
  }

  /** A precondition names an earlier attempt at the same finding. */
  ghost predicate Grounded(steps: seq<Step>, i: nat, p: string)
    requires i < |steps|
  {
    exists j :: 0 <= j < i && steps[j].id == p && steps[j].findingRef == steps[i].findingRef && IsAttempt(steps[j])
  }

  ghost predicate WellFounded(steps: seq<Step>) {
    forall i, p :: 0 <= i < |steps| && p in steps[i].preconditions ==> Grounded(steps, i, p)
  }

  /** Ids come from one counter, so they are strictly increasing along the plan. */
  ghost predicate NumberedBy(steps: seq<Step>, nums: seq<nat>, next: nat) {
    && |nums| == |steps|
    && (forall i :: 0 <= i < |steps| ==> steps[i].id == StepId(nums[i]) && nums[i] < next)
    && (forall i, j :: 0 <= i < j < |nums| ==> nums[i] < nums[j])
  }

  /** The first attempt at each finding. */
  ghost function FirstAttempts(steps: seq<Step>): map<string, string> {
    if steps == [] then map[]
    else
      var s, before := steps[|steps| - 1], FirstAttempts(steps[..|steps| - 1]);
      if IsAttempt(s) && s.findingRef !in before then before[s.findingRef := s.id] else before
  }

  lemma {:induction false} FirstAttemptsExact(steps: seq<Step>, fid: string)
    ensures var first := FirstAttempts(steps);
      if fid in first then FirstAttempt(steps, fid, first[fid]) else NeverAttempted(steps, fid)
  {
    if steps != [] {
      var init, s := steps[..|steps| - 1], steps[|steps| - 1];
      FirstAttemptsExact(init, fid);
      var first := FirstAttempts(init);
      if fid in first {
        var j :| 0 <= j < |init| && FirstAttemptAt(init, fid, first[fid], j);
        assert FirstAttemptAt(steps, fid, first[fid], j);
      } else if IsAttempt(s) && s.findingRef == fid {
        assert forall i :: 0 <= i < |init| ==> steps[i] == init[i];
        assert FirstAttemptAt(steps, fid, s.id, |init|);
      }
    }
  }

  /** A plan under construction: each step is numbered after the one before it, and waits at most
  for the first attempt at its own finding. */
  ghost predicate State(steps: seq<Step>, nums: seq<nat>, next: nat) {
    |nums| == |steps| &&
    (steps == [] ||
     var s, n, init := steps[|steps| - 1], nums[|steps| - 1], steps[..|steps| - 1];
     && s.id == StepId(n) && n < next
     && (s.preconditions == [] ||
         (s.findingRef in FirstAttempts(init) && s.preconditions == [FirstAttempts(init)[s.findingRef]]))
     && State(init, nums[..|steps| - 1], n))
  }

  lemma NumberedSnoc(steps: seq<Step>, nums: seq<nat>, n: nat, s: Step, next: nat)
    requires NumberedBy(steps, nums, n) && s.id == StepId(n) && n < next
    ensures NumberedBy(steps + [s], nums + [n], next)
  {
  }

  lemma {:induction false} StateNumbers(steps: seq<Step>, nums: seq<nat>, next: nat)
    requires State(steps, nums, next)
    ensures NumberedBy(steps, nums, next)
  {
    if steps != [] {
      var init, before := steps[..|steps| - 1], nums[..|steps| - 1];
      StateNumbers(init, before, nums[|steps| - 1]);
      NumberedSnoc(init, before, nums[|steps| - 1], steps[|steps| - 1], next);
      assert steps == init + [steps[|steps| - 1]] && nums == before + [nums[|steps| - 1]];
    }
  }

  lemma {:induction false} StateGrounds(steps: seq<Step>, nums: seq<nat>, next: nat)
    requires State(steps, nums, next)
    ensures WellFounded(steps)
  {
    if steps != [] {
      var init, s := steps[..|steps| - 1], steps[|steps| - 1];
      StateGrounds(init, nums[..|steps| - 1], nums[|steps| - 1]);
      FirstAttemptsExact(init, s.findingRef);
      forall i, p | 0 <= i < |steps| && p in steps[i].preconditions
        ensures Grounded(steps, i, p)
      {
        if i < |init| {
          assert Grounded(init, i, p);
          var j :| 0 <= j < i && init[j].id == p && init[j].findingRef == init[i].findingRef && IsAttempt(init[j]);
          assert steps[j] == init[j];
        } else {
          var j :| 0 <= j < |init| && FirstAttemptAt(init, s.findingRef, p, j);
          assert steps[j] == init[j];
        }
      }
    }
  }

  class Planner {
    var steps: seq<Step>
    var next: nat
    var findingStep: map<string, string>
    ghost var nums: seq<nat>

    ghost predicate Valid()
      reads this
    {
      State(steps, nums, next) && findingStep == FirstAttempts(steps)
    }

    constructor ()
      ensures Valid() && steps == []
    {
      steps, next, findingStep := [], 1, map[];
      nums := [];
    }

    /** Append a step under the next id; an attempt also becomes its finding's first if it is. */
    method Append(shape: Step)
      requires Valid()
      requires shape.preconditions == [] ||
        (shape.findingRef in findingStep && shape.preconditions == [findingStep[shape.findingRef]])
      modifies this
      ensures Valid() && steps == old(steps) + [shape.(id := StepId(old(next)))]
      ensures Shapes(steps) == Shapes(old(steps)) + [Unnumbered(shape)]
      ensures !IsAttempt(shape) ==> findingStep == old(findingStep)
    {
      var n := Sid();
      var s := shape.(id := StepId(n));
      ShapesSnoc(steps, s);
      assert (steps + [s])[..|steps|] == steps && (nums + [n])[..|steps|] == nums;
      steps := steps + [s];
      nums := nums + [n];
      if IsAttempt(s) && s.findingRef !in findingStep {
        findingStep := findingStep[s.findingRef := s.id];
      }
    }

    /** Draw the next id; every number drawn so far stays below it. */
    method Sid() returns (n: nat)
      requires Valid()
      modifies this`next
      ensures State(steps, nums, n) && n == old(next) && next == n + 1 && Valid()
    {
      n := next;
      next := next + 1;
    }

    method AddRecon(recon: seq<Draft>)
      requires Valid()
      modifies this
      ensures Valid() && Shapes(steps) == Shapes(old(steps)) + ReconSteps(recon)
    {
      for i := 0 to |recon|
        invariant Valid() && Shapes(steps) == Shapes(old(steps)) + ReconSteps(recon[..i])
      {
        assert recon[..i + 1][..i] == recon[..i];
        Append(ReconStep("", recon[i]));
      }
      assert recon[..|recon|] == recon;
    }

    method AddSkip(f: Candidate, reason: string)
      requires Valid()
      modifies this
      ensures Valid() && Shapes(steps) == Shapes(old(steps)) + [SkipStep("", f, reason)]
    {
      Append(SkipStep("", f, reason));
    }

    method AddAttempt(f: Candidate, d: Draft)
      requires Valid()
      modifies this
      ensures Valid() && Shapes(steps) == Shapes(old(steps)) + [AttemptStep("", f, d)]
    {
      Append(AttemptStep("", f, d));
    }

    /** One PoC of a finding: an attempt if a step can be made of it. */
    method AddPoc(f: Candidate, pocs: seq<Option<Draft>>, i: nat, ghost start: seq<Step>) returns (made: bool)
      requires Valid() && i < |pocs|
      requires Shapes(steps) == start + AttemptSteps(f, Drafts(pocs[..i]))
      modifies this
      ensures Valid() && Shapes(steps) == start + AttemptSteps(f, Drafts(pocs[..i + 1]))
      ensures made == pocs[i].Some?
    {
      DraftsSnoc(pocs, i);
      made := pocs[i].Some?;
      if made {
        AttemptsSnoc(start, f, Drafts(pocs[..i]), pocs[i].value);
        AddAttempt(f, pocs[i].value);
      }
    }

    method AddPocs(f: Candidate) returns (made: bool)
      requires Valid()
      modifies this
      ensures Valid() && made == (Drafts(f.pocs) != [])
      ensures Shapes(steps) == Shapes(old(steps)) + AttemptSteps(f, Drafts(f.pocs))
    {
      made := false;
      ghost var start := Shapes(steps);
      for i := 0 to |f.pocs|
        invariant Valid() && made == (Drafts(f.pocs[..i]) != [])
        invariant Shapes(steps) == start + AttemptSteps(f, Drafts(f.pocs[..i]))
      {
        DraftsSnoc(f.pocs, i);
        var added := AddPoc(f, f.pocs, i, start);
        made := made || added;
      }
      assert f.pocs[..|f.pocs|] == f.pocs;
    }

    /** No PoC converts: the adapted fallback, or a skip under an id of its own. */
    method AddFallback(f: Candidate)
      requires Valid()
      modifies this
      ensures Valid()
      ensures Shapes(steps) == Shapes(old(steps)) +
        if f.fallback.Some? then [AttemptStep("", f, f.fallback.value)] else [SkipStep("", f, f.noStepReason)]
    {
      if f.fallback.Some? {
        AddAttempt(f, f.fallback.value);
      } else {
        // the fallback builders had already drawn an id
        var unused := Sid();
        AddSkip(f, f.noStepReason);
      }
    }

    method AddReplay(f: Candidate)
      requires Valid()
      modifies this
      ensures Valid() && Shapes(steps) == Shapes(old(steps)) + Section(f)
    {
      SectionCases(f);
      var early := EarlySkip(f);
      if early.Some? {
        AddSkip(f, early.value);
        return;
      }
      var made := AddPocs(f);
      if !made {
        assert AttemptSteps(f, []) == [];
        AddFallback(f);
      }
    }

    method AddGlue(fids: seq<string>)
      requires Valid()
      modifies this
      ensures Valid() && findingStep == old(findingStep)
      ensures Shapes(steps) == Shapes(old(steps)) + GlueSteps(fids, findingStep)
    {
      ghost var start := Shapes(steps);
      for i := 0 to |fids|
        invariant Valid() && findingStep == old(findingStep)
        invariant Shapes(steps) == start + GlueSteps(fids[..i], findingStep)
      {
        GlueStepsSnoc(start, fids, findingStep, i);
        Append(GlueStep("", fids[i], Base(findingStep, fids[i])));
      }
      assert fids[..|fids|] == fids;
    }

    method AddPlaceholder()
      requires Valid()
      modifies this
      ensures Valid() && findingStep == old(findingStep)
      ensures Shapes(steps) == Shapes(old(steps)) + [PlaceholderStep("")]
    {
      Append(PlaceholderStep(""));
    }
  }

  function Base(first: map<string, string>, fid: string): Option<string> {
    if fid in first then Some(first[fid]) else None
  }
}
