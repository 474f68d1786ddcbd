/** Where each field of a rolled-up finding comes from. */
module ReportEntries {
  import opened Options
  import opened Soundness
  import opened Steps
  import opened Report

  /** The position of the attempt a verdict is taken from: the first to reach it. */
  ghost predicate FirstToReach(id: string, results: seq<StepResult>, v: Verdict, i: nat) {
    && i < |results| && Bears(id, results[i]) && results[i].verdict == v
    && forall j :: 0 <= j < i && Bears(id, results[j]) ==> results[j].verdict != v
  }

  lemma EarlierReach(id: string, init: seq<StepResult>, r: StepResult, i: nat)
    requires i < |init| && FirstToReach(id, init + [r], Rolled(id, init + [r]).verdict, i)
    ensures Rolled(id, init).verdict == Rolled(id, init + [r]).verdict && FirstToReach(id, init, Rolled(id, init).verdict, i)
  {
    var v := Rolled(id, init + [r]).verdict;
    VerdictExact(id, init);
    VerdictExact(id, init + [r]);
    assert forall j :: 0 <= j < |init| ==> (init + [r])[j] == init[j];
    assert init[i] in init && Reached(id, init, v);
    BestStays(id, init, r);
  }

  lemma LastReach(id: string, init: seq<StepResult>, r: StepResult)
    requires FirstToReach(id, init + [r], Rolled(id, init + [r]).verdict, |init|)
    requires Rolled(id, init + [r]).verdict != NotAttempted
    ensures Rolled(id, init).verdict != Rolled(id, init + [r]).verdict
  {
    var v := Rolled(id, init + [r]).verdict;
    VerdictExact(id, init);
    assert forall j :: 0 <= j < |init| ==> (init + [r])[j] == init[j];
    assert forall x :: x in init && Bears(id, x) ==> x.verdict != v;
  }

  lemma RolledOn(id: string, init: seq<StepResult>, r: StepResult)
    ensures Rolled(id, init + [r]) == if r.findingRef == id && id != "" then Absorb(Rolled(id, init), r) else Rolled(id, init)
  {
    assert (init + [r])[..|init|] == init;
  }

  /** Impact and flag come from the first attempt that reached the verdict. */
  lemma {:induction false} FirstAttemptReported(id: string, results: seq<StepResult>, i: nat)
    requires FirstToReach(id, results, Rolled(id, results).verdict, i) && Rolled(id, results).verdict != NotAttempted
    ensures Rolled(id, results).impact == Some(results[i].observed) && Rolled(id, results).flag == results[i].flag
  {
    var init, r := results[..|results| - 1], results[|results| - 1];
    assert results == init + [r];
    RolledOn(id, init, r);
    BearsExact(id, r);
    if i < |init| {
      EarlierReach(id, init, r, i);
      FirstAttemptReported(id, init, i);
    } else {
      LastReach(id, init, r);
    }
  }

  lemma BestStays(id: string, results: seq<StepResult>, r: StepResult)
    requires Reached(id, results, BestReached(id, results + [r]))
    ensures BestReached(id, results) == BestReached(id, results + [r])
  {
    forall v
      ensures Reached(id, results + [r], v) <==> Reached(id, results, v) || (Bears(id, r) && r.verdict == v)
    {
      ReachedOn(id, results, r, v);
    }
  }

  lemma {:induction false} NothingReached(id: string, results: seq<StepResult>)
    requires Rolled(id, results).verdict == NotAttempted
    ensures Rolled(id, results).impact == None && Rolled(id, results).flag == None
  {
    if results != [] {
      VerdictIsBest(id, results[..|results| - 1]);
      NothingReached(id, results[..|results| - 1]);
    }
  }

  ghost function FirstAttempt(id: string, results: seq<StepResult>): Option<StepResult> {
    if results == [] then None
    else if Bears(id, results[0]) then Some(results[0])
    else FirstAttempt(id, results[1..])
  }

  lemma {:induction false} FirstAttemptOn(id: string, results: seq<StepResult>, r: StepResult)
    ensures FirstAttempt(id, results + [r]) ==
      if FirstAttempt(id, results).Some? then FirstAttempt(id, results) else if Bears(id, r) then Some(r) else None
  {
    if results == [] {
      assert [r][1..] == [];
    } else {
      assert (results + [r])[1..] == results[1..] + [r];
      FirstAttemptOn(id, results[1..], r);
    }
  }

  /** The first attempt says how the finding was tried. */
  lemma {:induction false} TechniqueExact(id: string, results: seq<StepResult>)
    ensures Rolled(id, results).technique ==
      match FirstAttempt(id, results)
      case None => Technique.Skip
      case Some(r) => if r.novelRef == "" then Technique.Replay else Technique.Novel
  {
    if results != [] {
      var init, r := results[..|results| - 1], results[|results| - 1];
      TechniqueExact(id, init);
      BearsExact(id, r);
      assert results == init + [r];
      FirstAttemptOn(id, init, r);
    }
  }

  ghost function LastUndo(id: string, results: seq<StepResult>): Option<bool> {
    if results == [] then None
    else if LastUndo(id, results[1..]).Some? then LastUndo(id, results[1..])
    else if results[0].findingRef == id then results[0].rollbackPerformed else None
  }

  lemma {:induction false} LastUndoOn(id: string, results: seq<StepResult>, r: StepResult)
    ensures LastUndo(id, results + [r]) ==
      if r.findingRef == id && r.rollbackPerformed.Some? then r.rollbackPerformed else LastUndo(id, results)
  {
    if results == [] {
      assert [r][1..] == [];
    } else {
      assert (results + [r])[1..] == results[1..] + [r];
      LastUndoOn(id, results[1..], r);
    }
  }

  /** The last rollback of any of its steps, whatever their verb, is the finding's. */
  lemma {:induction false} RollbackExact(id: string, results: seq<StepResult>)
    requires id != ""
    ensures Rolled(id, results).rollback == LastUndo(id, results)
  {
    if results != [] {
      var init, r := results[..|results| - 1], results[|results| - 1];
      RollbackExact(id, init);
      assert results == init + [r];
      LastUndoOn(id, init, r);
    }
  }

  // ---------- the skip reason ----------

  /** The planner's note that it has nothing to run, with its reason. */
  ghost predicate Notes(id: string, r: StepResult) {
    r.findingRef == id && id != "" && r.verb == "noop" && r.verdict == NotAttempted && r.scopeReason != ""
  }

  ghost function FirstNote(id: string, results: seq<StepResult>): Option<string> {
    if results == [] then None
    else if Notes(id, results[0]) then Some(results[0].scopeReason)
    else FirstNote(id, results[1..])
  }

  lemma {:induction false} FirstNoteOn(id: string, results: seq<StepResult>, r: StepResult)
    ensures FirstNote(id, results + [r]) ==
      if FirstNote(id, results).Some? then FirstNote(id, results)
      else if Notes(id, r) then Some(r.scopeReason) else None
  {
    if results == [] {
      assert ([r])[1..] == [];
    } else {
      assert (results + [r])[1..] == results[1..] + [r];
      FirstNoteOn(id, results[1..], r);
    }
  }

  lemma {:induction false} UnattemptedReasonExact(id: string, results: seq<StepResult>)
    requires Rolled(id, results).verdict == NotAttempted
    ensures Rolled(id, results).skipReason == FirstNote(id, results)
  {
    if results != [] {
      var init, r := results[..|results| - 1], results[|results| - 1];
      assert results == init + [r];
      VerdictIsBest(id, init);
      VerdictIsBest(id, results);
      UnattemptedReasonExact(id, init);
      FirstNoteOn(id, init, r);
    }
  }

  /** Reaching a verdict wipes the reasons noted before it, and scope's own reason, if it gave one, is
  the first of those that count from there. */
  lemma {:induction false} AttemptedReasonExact(id: string, results: seq<StepResult>, i: nat)
    requires FirstToReach(id, results, Rolled(id, results).verdict, i) && Rolled(id, results).verdict != NotAttempted
    ensures Rolled(id, results).skipReason ==
      if results[i].verdict == BlockedByScope && results[i].scopeReason != "" then Some(results[i].scopeReason)
      else FirstNote(id, results[i + 1..])
  {
    var init, r := results[..|results| - 1], results[|results| - 1];
    assert results == init + [r];
    RolledOn(id, init, r);
    if i < |init| {
      EarlierReach(id, init, r, i);
      AttemptedReasonExact(id, init, i);
      ReasonAfter(id, Rolled(id, init), r);
      assert results[i + 1..] == init[i + 1..] + [r];
      FirstNoteOn(id, init[i + 1..], r);
    } else {
      LastReach(id, init, r);
      assert results[i + 1..] == [];
    }
  }

  /** Once its verdict stands, only a note gives an unexplained finding a reason. */
  lemma ReasonAfter(id: string, e: Entry, r: StepResult)
    requires r.findingRef == id && id != "" ==> Absorb(e, r).verdict == e.verdict
    ensures (if r.findingRef == id && id != "" then Absorb(e, r).skipReason else e.skipReason) ==
      if e.skipReason.Some? then e.skipReason else if Notes(id, r) then Some(r.scopeReason) else None
  {
  }
}
