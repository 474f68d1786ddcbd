/** What the sections of a plan hold, field by field. */
module PlanContents {
  import opened Options
  import opened Steps
  import opened Sorting
  import opened Planner
  import opened Plan
  import ChainInputs

  // ---------- the section of a finding ----------

  /** A step that tries a draft as the builder made it. */
  ghost predicate Tries(f: Candidate, d: Draft, s: Step) {
    && s.technique == (if d.adapted then "adapted" else "replay")
    && s.adapter == d.adapter && s.verb == d.verb && s.target == d.target && s.commands == d.commands
    && s.classification == d.classification
    && s.findingRef == f.node.id && s.novelRef == "" && s.skip == "" && s.preconditions == []
  }

  ghost predicate SkipsWith(f: Candidate, reason: string, s: Step) {
    && s.technique == "skip" && s.adapter == "k8s" && s.verb == "noop" && s.classification == Safe && s.skip == reason
    && s.findingRef == f.node.id && s.novelRef == "" && s.commands == [] && s.preconditions == []
  }

  /** One attempt for each PoC a step can be made of, in the order of the PoCs. */
  ghost predicate TriesEach(f: Candidate, pocs: seq<Option<Draft>>, steps: seq<Step>) {
    if pocs == [] then steps == []
    else if pocs[0].None? then TriesEach(f, pocs[1..], steps)
    else steps != [] && Tries(f, pocs[0].value, steps[0]) && TriesEach(f, pocs[1..], steps[1..])
  }

  lemma {:induction false} TriesOneMore(f: Candidate, pocs: seq<Option<Draft>>, steps: seq<Step>, poc: Option<Draft>, s: Step)
    requires TriesEach(f, pocs, steps)
    ensures poc.None? ==> TriesEach(f, pocs + [poc], steps)
    ensures poc.Some? && Tries(f, poc.value, s) ==> TriesEach(f, pocs + [poc], steps + [s])
  {
    if pocs == [] {
      assert [poc][1..] == [] && [s][1..] == [];
      assert pocs + [poc] == [poc] && steps + [s] == [s];
    } else {
      assert (pocs + [poc])[1..] == pocs[1..] + [poc];
      if pocs[0].None? {
        TriesOneMore(f, pocs[1..], steps, poc, s);
      } else {
        TriesOneMore(f, pocs[1..], steps[1..], poc, s);
        assert (steps + [s])[1..] == steps[1..] + [s];
      }
    }
  }

  lemma {:induction false} DraftsTried(f: Candidate, pocs: seq<Option<Draft>>)
    ensures TriesEach(f, pocs, AttemptSteps(f, Drafts(pocs)))
  {
    if pocs != [] {
      var init, last := pocs[..|pocs| - 1], pocs[|pocs| - 1];
      DraftsTried(f, init);
      DraftTried(f, init, last);
      LastBack(pocs);
    }
  }

  lemma DraftTried(f: Candidate, pocs: seq<Option<Draft>>, poc: Option<Draft>)
    requires TriesEach(f, pocs, AttemptSteps(f, Drafts(pocs)))
    ensures TriesEach(f, pocs + [poc], AttemptSteps(f, Drafts(pocs + [poc])))
  {
    var ds, made := Drafts(pocs), AttemptSteps(f, Drafts(pocs));
    assert (pocs + [poc])[..|pocs|] == pocs;
    if poc.Some? {
      var s := AttemptStep("", f, poc.value);
      TriesOneMore(f, pocs, made, poc, s);
      assert (ds + [poc.value])[..|ds|] == ds;
    } else {
      TriesOneMore(f, pocs, made, poc, SkipStep("", f, ""));
    }
  }

  lemma {:induction false} DraftsExact(pocs: seq<Option<Draft>>)
    ensures Drafts(pocs) == [] <==> forall i :: 0 <= i < |pocs| ==> pocs[i].None?
  {
    if pocs != [] {
      DraftsExact(pocs[..|pocs| - 1]);
    }
  }

  /** A finding is planned as one skip, for a triaged false positive, a surface that cannot be reached
  or a credential that is missing, whichever comes first; otherwise as one attempt for each PoC that
  converts; with none as one attempt by the fallback; and without that either as one skip. */
  lemma SectionExact(f: Candidate)
    ensures var s := Section(f);
      if f.node.falsePositive then |s| == 1 && SkipsWith(f, "triage-false-positive", s[0])
      else if !f.node.runtime then |s| == 1 && SkipsWith(f, "wrong-surface:" + f.surface, s[0])
      else if f.credential.Some? then |s| == 1 && SkipsWith(f, "needs-credential:" + f.credential.value, s[0])
      else if exists i :: 0 <= i < |f.pocs| && f.pocs[i].Some? then s != [] && TriesEach(f, f.pocs, s)
      else if f.fallback.Some? then |s| == 1 && Tries(f, f.fallback.value, s[0])
      else |s| == 1 && SkipsWith(f, f.noStepReason, s[0])
  {
    SectionCases(f);
    DraftsExact(f.pocs);
    DraftsTried(f, f.pocs);
  }

  /** An attempt is known as one by its technique, so the first of each finding is on record. */
  lemma AttemptsAreKnown(f: Candidate, d: Draft, s: Step)
    requires Tries(f, d, s)
    ensures IsAttempt(s)
  {
  }

  // ---------- the other sections ----------

  lemma {:induction false} ReconExact(recon: seq<Draft>, i: nat)
    requires i < |recon|
    ensures |ReconSteps(recon)| == |recon|
    ensures var d, s := recon[i], ReconSteps(recon)[i];
      && s.technique == "recon" && s.adapter == d.adapter && s.verb == d.verb && s.target == d.target
      && s.commands == d.commands && s.classification == Safe && s.skip == "" && s.preconditions == [] && s.findingRef == ""
  {
    if |recon| > 1 {
      ReconExact(recon[..|recon| - 1], if i < |recon| - 1 then i else 0);
    } else {
      assert recon[..0] == [];
    }
  }

  /** A connector for every finding of a chain, in path order, waiting for the first attempt at it. */
  lemma {:induction false} GlueExact(fids: seq<string>, first: map<string, string>, i: nat)
    requires i < |fids|
    ensures |GlueSteps(fids, first)| == |fids|
    ensures var s := GlueSteps(fids, first)[i];
      && s.technique == "chained" && s.adapter == "k8s" && s.verb == "glue" && s.classification == Safe && s.skip == ""
      && s.commands == [] && s.findingRef == fids[i]
      && s.preconditions == if fids[i] in first then [first[fids[i]]] else []
  {
    if |fids| > 1 {
      GlueExact(fids[..|fids| - 1], first, if i < |fids| - 1 then i else 0);
    } else {
      assert fids[..0] == [];
    }
  }

  /** The steps of a plan are those of its sections but for their ids, and end, when wanted, in the one
  second-pass placeholder. */
  lemma {:induction false} ShapesExact(steps: seq<Step>)
    ensures |Shapes(steps)| == |steps|
    ensures forall i :: 0 <= i < |steps| ==> Shapes(steps)[i].(id := steps[i].id) == steps[i]
  {
    if steps != [] {
      ShapesExact(steps[..|steps| - 1]);
    }
  }

  lemma PlaceholderExact(id: string)
    ensures var s := PlaceholderStep(id);
      && s.id == id && s.technique == "novel" && s.verb == "placeholder" && s.skip == "deferred-until-recon"
      && s.preconditions == [] && s.findingRef == ""
  {
  }

  // ---------- the order of findings ----------

  /** The graver finding is planned first, and of two equally grave ones the more confident. */
  lemma OrderExact(order: seq<Candidate>, i: nat, j: nat)
    requires SortedBy(order, PlanOrder) && i < j < |order|
    ensures ChainInputs.Gravity(order[i].node.severity) >= ChainInputs.Gravity(order[j].node.severity)
    ensures order[i].node.severity == order[j].node.severity ==> order[i].confidence >= order[j].confidence
  {
    assert PlanOrder(order[i], order[j]);
  }
}
