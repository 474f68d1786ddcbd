/** The refutation-soundness gate of soundness.py.

A probe that errored out, enumerated no subject, or ran against nothing deployed has refuted
nothing. The regular expressions are inputs here: a `Transcript` records which of them match. */
module Soundness {
  import opened Options

  datatype Verdict = Confirmed | Refuted | Inconclusive | BlockedByScope | NotAttempted | Unlisted(word: string)

  datatype ErrorSignature =
    | Forbidden | CommandNotFound | JsonpathError | NotFound | DoesNotExist | CouldNotConnect | UnsubstitutedTemplate

  const ERROR_SIGNATURES: seq<ErrorSignature> :=
    [Forbidden, CommandNotFound, JsonpathError, NotFound, DoesNotExist, CouldNotConnect, UnsubstitutedTemplate]

  /** What the patterns find in a probe's output. */
  datatype Transcript = Transcript(errors: set<ErrorSignature>, rbacMarker: bool, rbacTemplate: bool, triedNothing: bool)

  const SILENT := Transcript({}, false, false, false)

  datatype Flag =
    | ErrorIn(signature: ErrorSignature)
    | RbacZeroSubjects | RbacTemplate | TargetNotDeployed
    | FailedControl | MissingControl
    | NonDiscriminating | MissingDifferential

  predicate IsRbacProbe(verb: string, observed: Transcript) {
    verb == "rbac-can-i" || observed.rbacMarker
  }

  /** The first signature, in table order, that the transcript matches. */
  method MatchErrorSignature(observed: Transcript) returns (r: Option<ErrorSignature>)
    ensures r == FirstSignature(observed)
  {
    for i := 0 to |ERROR_SIGNATURES|
      invariant forall j :: 0 <= j < i ==> ERROR_SIGNATURES[j] !in observed.errors
    {
      if ERROR_SIGNATURES[i] in observed.errors {
        FirstSignatureAt(observed, i);
        return Some(ERROR_SIGNATURES[i]);
      }
    }
    NoSignature(observed);
    return None;
  }

  function FirstFrom(observed: Transcript, i: nat): Option<ErrorSignature>
    requires i <= |ERROR_SIGNATURES|
    decreases |ERROR_SIGNATURES| - i
  {
    if i == |ERROR_SIGNATURES| then None
    else if ERROR_SIGNATURES[i] in observed.errors then Some(ERROR_SIGNATURES[i])
    else FirstFrom(observed, i + 1)
  }

  function FirstSignature(observed: Transcript): Option<ErrorSignature> {
    FirstFrom(observed, 0)
  }

  lemma {:induction false} FirstFromAt(observed: Transcript, from: nat, i: nat)
    requires from <= i < |ERROR_SIGNATURES| && ERROR_SIGNATURES[i] in observed.errors
    requires forall j :: from <= j < i ==> ERROR_SIGNATURES[j] !in observed.errors
    ensures FirstFrom(observed, from) == Some(ERROR_SIGNATURES[i])
    decreases i - from
  {
    if from < i {
      FirstFromAt(observed, from + 1, i);
    }
  }

  lemma FirstSignatureAt(observed: Transcript, i: nat)
    requires i < |ERROR_SIGNATURES| && ERROR_SIGNATURES[i] in observed.errors
    requires forall j :: 0 <= j < i ==> ERROR_SIGNATURES[j] !in observed.errors
    ensures FirstSignature(observed) == Some(ERROR_SIGNATURES[i])
  {
    FirstFromAt(observed, 0, i);
  }

  lemma {:induction false} NoSignatureFrom(observed: Transcript, from: nat)
    requires from <= |ERROR_SIGNATURES|
    requires forall j :: from <= j < |ERROR_SIGNATURES| ==> ERROR_SIGNATURES[j] !in observed.errors
    ensures FirstFrom(observed, from) == None
    decreases |ERROR_SIGNATURES| - from
  {
    if from < |ERROR_SIGNATURES| {
      NoSignatureFrom(observed, from + 1);
    }
  }

  lemma NoSignature(observed: Transcript)
    requires forall j :: 0 <= j < |ERROR_SIGNATURES| ==> ERROR_SIGNATURES[j] !in observed.errors
    ensures FirstSignature(observed) == None
  {
    NoSignatureFrom(observed, 0);
  }

  /** The table lists every signature, so no matched error goes unreported. */
  lemma SignatureReported(observed: Transcript)
    ensures FirstSignature(observed) == None <==> observed.errors == {}
    ensures FirstSignature(observed).Some? ==> FirstSignature(observed).value in observed.errors
  {
    if observed.errors != {} {
      var e :| e in observed.errors;
      assert ERROR_SIGNATURES[0] == Forbidden && ERROR_SIGNATURES[1] == CommandNotFound
          && ERROR_SIGNATURES[2] == JsonpathError && ERROR_SIGNATURES[3] == NotFound
          && ERROR_SIGNATURES[4] == DoesNotExist && ERROR_SIGNATURES[5] == CouldNotConnect
          && ERROR_SIGNATURES[6] == UnsubstitutedTemplate;
      var i :| 0 <= i < |ERROR_SIGNATURES| && ERROR_SIGNATURES[i] == e;
      FirstIsMember(observed, 0, i);
    } else {
      NoSignature(observed);
    }
  }

  lemma {:induction false} FirstIsMember(observed: Transcript, from: nat, i: nat)
    requires from <= i < |ERROR_SIGNATURES| && ERROR_SIGNATURES[i] in observed.errors
    ensures FirstFrom(observed, from).Some? && FirstFrom(observed, from).value in observed.errors
    decreases i - from
  {
    if ERROR_SIGNATURES[from] !in observed.errors {
      FirstIsMember(observed, from + 1, i);
    }
  }

  /** The flag a refutation resting on this probe would carry. */
  function SoundnessFlag(verb: string, observed: Transcript, installFailure: bool): Option<Flag> {
    if installFailure then Some(TargetNotDeployed)
    else
      var sig := FirstSignature(observed);
      if sig.Some? then Some(ErrorIn(sig.value))
      else if IsRbacProbe(verb, observed) && observed.rbacTemplate then Some(RbacTemplate)
      else if IsRbacProbe(verb, observed) && observed.triedNothing then Some(RbacZeroSubjects)
      else None
  }

  /** The probe put the claim to the proof: it did not error out, and an authorization probe named
  and tried real subjects. */
  predicate Clean(verb: string, observed: Transcript) {
    observed.errors == {} && (IsRbacProbe(verb, observed) ==> !observed.rbacTemplate && !observed.triedNothing)
  }

  lemma UnflaggedIsClean(verb: string, observed: Transcript, installFailure: bool)
    ensures SoundnessFlag(verb, observed, installFailure) == None <==> !installFailure && Clean(verb, observed)
  {
    SignatureReported(observed);
  }

  function GateVerdict(verdict: Verdict, verb: string, observed: Transcript, installFailure: bool): (Verdict, Option<Flag>) {
    if verdict != Refuted then (verdict, None)
    else
      var flag := SoundnessFlag(verb, observed, installFailure);
      if flag.Some? then (Inconclusive, flag) else (verdict, None)
  }

  /** `refuted` leaves the gate exactly when it went in and the probe is clean on a deployed
  target; nothing else changes, and a flag is raised exactly on a downgrade. */
  lemma GateExact(verdict: Verdict, verb: string, observed: Transcript, installFailure: bool)
    ensures var (out, flag) := GateVerdict(verdict, verb, observed, installFailure);
      && (out == Refuted <==> verdict == Refuted && !installFailure && Clean(verb, observed))
      && (flag.Some? <==> out != verdict)
      && (out != verdict ==> verdict == Refuted && out == Inconclusive)
      && GateVerdict(out, verb, observed, installFailure).0 == out
  {
    UnflaggedIsClean(verb, observed, installFailure);
  }

  /** The order in which error signatures are looked for. */
  ghost function Turn(e: ErrorSignature): nat {
    match e
    case Forbidden => 0
    case CommandNotFound => 1
    case JsonpathError => 2
    case NotFound => 3
    case DoesNotExist => 4
    case CouldNotConnect => 5
    case UnsubstitutedTemplate => 6
  }

  /** An authorization probe is known by its verb or by its output. */
  ghost predicate Untried(verb: string, observed: Transcript) {
    (verb == "rbac-can-i" || observed.rbacMarker) && (observed.rbacTemplate || observed.triedNothing)
  }

  lemma CleanExact(verb: string, observed: Transcript)
    ensures Clean(verb, observed) <==> observed.errors == {} && !Untried(verb, observed)
  {
  }

  lemma {:induction false} FirstIsEarliest(observed: Transcript, from: nat)
    requires from <= |ERROR_SIGNATURES|
    ensures var sig := FirstFrom(observed, from);
      && (sig.Some? ==> sig.value in observed.errors)
      && forall e :: e in observed.errors && from <= Turn(e) ==> sig.Some? && Turn(sig.value) <= Turn(e)
    decreases |ERROR_SIGNATURES| - from
  {
    if from < |ERROR_SIGNATURES| {
      FirstIsEarliest(observed, from + 1);
      assert forall e :: Turn(e) == from <==> ERROR_SIGNATURES[from] == e;
    }
  }

  /** The flag of a refutation that falls: no target first, then the earliest error, then an
  authorization probe left as a template, then one that tried no subject. */
  lemma FlagExact(verb: string, observed: Transcript, installFailure: bool)
    requires installFailure || !Clean(verb, observed)
    ensures var flag := GateVerdict(Refuted, verb, observed, installFailure).1;
      if installFailure then flag == Some(TargetNotDeployed)
      else if observed.errors != {} then
        && flag.Some? && flag.value.ErrorIn? && flag.value.signature in observed.errors
        && forall e :: e in observed.errors ==> Turn(flag.value.signature) <= Turn(e)
      else if observed.rbacTemplate then flag == Some(RbacTemplate)
      else flag == Some(RbacZeroSubjects)
  {
    CleanExact(verb, observed);
    SignatureReported(observed);
    FirstIsEarliest(observed, 0);
  }

  // ---------- the finding-level gate ----------

  /** One executed step of a finding. A control or a differential may leave its outcome unsaid. */
  datatype Probe = Probe(
    verb: string, verdict: Verdict, observed: Transcript,
    controls: seq<Option<bool>>, differential: Option<Option<bool>>)

  datatype Rollup = Rollup(verdict: Verdict, flag: Option<Flag>, steps: seq<Probe>, impact: Option<Transcript>)

  predicate Refuting(p: Probe) { p.verdict == Refuted }

  ghost predicate HasControl(steps: seq<Probe>, ok: bool) {
    exists i :: 0 <= i < |steps| && Refuting(steps[i]) && Some(ok) in steps[i].controls
  }

  ghost predicate HasDifferential(steps: seq<Probe>, discriminated: bool) {
    exists i :: 0 <= i < |steps| && Refuting(steps[i]) && steps[i].differential == Some(Some(discriminated))
  }

  ghost predicate HasAuthzProbe(steps: seq<Probe>) {
    exists i :: 0 <= i < |steps| && Refuting(steps[i]) && IsRbacProbe(steps[i].verb, steps[i].observed)
  }

  ghost function ControlsFlagOf(vf: Rollup, required: bool): Option<Flag> {
    if vf.verdict != Refuted then None
    else if HasControl(vf.steps, false) then Some(FailedControl)
    else if required && !HasControl(vf.steps, true) then Some(MissingControl)
    else None
  }

  /** A failed control anywhere wins; otherwise a required one must have passed. */
  method ControlsFlag(vf: Rollup, required: bool) returns (r: Option<Flag>)
    ensures r == ControlsFlagOf(vf, required)
  {
    if vf.verdict != Refuted {
      return None;
    }
    var controls: seq<Option<bool>> := [];
    for i := 0 to |vf.steps|
      invariant forall ok: bool :: Some(ok) in controls <==> HasControl(vf.steps[..i], ok)
    {
      ghost var before := controls;
      if vf.steps[i].verdict == Refuted {
        controls := controls + vf.steps[i].controls;
      }
      forall ok: bool
        ensures Some(ok) in controls <==> HasControl(vf.steps[..i + 1], ok)
      {
        assert HasControl(vf.steps[..i], ok) ==> HasControl(vf.steps[..i + 1], ok) by {
          if j :| 0 <= j < i && Refuting(vf.steps[j]) && Some(ok) in vf.steps[j].controls {
            assert vf.steps[..i + 1][j] == vf.steps[j];
          }
        }
        if Refuting(vf.steps[i]) && Some(ok) in vf.steps[i].controls {
          assert vf.steps[..i + 1][i] == vf.steps[i];
        }
      }
    }
    assert vf.steps[..|vf.steps|] == vf.steps;
    if Some(false) in controls {
      return Some(FailedControl);
    }
    if required && Some(true) !in controls {
      return Some(MissingControl);
    }
    return None;
  }

  ghost function DifferentialFlagOf(vf: Rollup, required: bool): Option<Flag> {
    if vf.verdict != Refuted then None
    else if HasDifferential(vf.steps, false) then Some(NonDiscriminating)
    else if required && HasAuthzProbe(vf.steps) && !HasDifferential(vf.steps, true) then Some(MissingDifferential)
    else None
  }

  method DifferentialFlag(vf: Rollup, required: bool) returns (r: Option<Flag>)
    ensures r == DifferentialFlagOf(vf, required)
  {
    if vf.verdict != Refuted {
      return None;
    }
    var sawAuthz, sawDiscriminating := false, false;
    for i := 0 to |vf.steps|
      invariant !HasDifferential(vf.steps[..i], false)
      invariant sawDiscriminating <==> HasDifferential(vf.steps[..i], true)
      invariant sawAuthz <==> HasAuthzProbe(vf.steps[..i])
    {
      var step := vf.steps[i];
      assert vf.steps[..i + 1] == vf.steps[..i] + [step];
      HasSnoc(vf.steps[..i], step);
      if step.verdict != Refuted {
        continue;
      }
      if step.differential.Some? {
        if step.differential.value == Some(false) {
          assert vf.steps[i] == step;
          return Some(NonDiscriminating);
        }
        if step.differential.value == Some(true) {
          sawDiscriminating := true;
        }
      }
      if IsRbacProbe(step.verb, step.observed) {
        sawAuthz := true;
      }
    }
    assert vf.steps[..|vf.steps|] == vf.steps;
    if required && sawAuthz && !sawDiscriminating {
      return Some(MissingDifferential);
    }
    return None;
  }

  lemma HasSnoc(steps: seq<Probe>, p: Probe)
    ensures forall d :: HasDifferential(steps + [p], d) <==>
      HasDifferential(steps, d) || (Refuting(p) && p.differential == Some(Some(d)))
    ensures HasAuthzProbe(steps + [p]) <==> HasAuthzProbe(steps) || (Refuting(p) && IsRbacProbe(p.verb, p.observed))
  {
    var all := steps + [p];
    assert all[|steps|] == p;
    forall d
      ensures HasDifferential(all, d) <==> HasDifferential(steps, d) || (Refuting(p) && p.differential == Some(Some(d)))
    {
      if i :| 0 <= i < |steps| && Refuting(steps[i]) && steps[i].differential == Some(Some(d)) {
        assert all[i] == steps[i];
      }
    }
    if i :| 0 <= i < |steps| && Refuting(steps[i]) && IsRbacProbe(steps[i].verb, steps[i].observed) {
      assert all[i] == steps[i];
    }
  }

  /** The transcripts a refutation rests on: its refuting steps, or failing any its stated impact. */
  function RefutingProbes(steps: seq<Probe>): (r: seq<(string, Transcript)>) {
    if steps == [] then []
    else
      var p, before := steps[|steps| - 1], RefutingProbes(steps[..|steps| - 1]);
      if Refuting(p) then before + [(p.verb, p.observed)] else before
  }

  lemma {:induction false} RefutingProbesMembers(steps: seq<Probe>, verb: string, observed: Transcript)
    ensures (verb, observed) in RefutingProbes(steps) <==>
      exists i :: 0 <= i < |steps| && Refuting(steps[i]) && steps[i].verb == verb && steps[i].observed == observed
  {
    if steps != [] {
      var init := steps[..|steps| - 1];
      RefutingProbesMembers(init, verb, observed);
      if i :| 0 <= i < |init| && Refuting(init[i]) && init[i].verb == verb && init[i].observed == observed {
        assert steps[i] == init[i];
      }
      if i :| 0 <= i < |steps| && Refuting(steps[i]) && steps[i].verb == verb && steps[i].observed == observed {
        assert i < |init| ==> init[i] == steps[i];
      }
    }
  }

  function ProbesOf(vf: Rollup): seq<(string, Transcript)> {
    var probes := RefutingProbes(vf.steps);
    if probes == [] && vf.impact.Some? then [("", vf.impact.value)] else probes
  }

  predicate AllFlagged(probes: seq<(string, Transcript)>) {
    forall i :: 0 <= i < |probes| ==> SoundnessFlag(probes[i].0, probes[i].1, false).Some?
  }

  ghost function FlagOf(vf: Rollup, installFailure: bool, controlsRequired: bool, differentialRequired: bool): Option<Flag> {
    if vf.flag.Some? then vf.flag
    else if vf.verdict != Refuted then None
    else if installFailure then Some(TargetNotDeployed)
    else if ControlsFlagOf(vf, controlsRequired).Some? then ControlsFlagOf(vf, controlsRequired)
    else if DifferentialFlagOf(vf, differentialRequired).Some? then DifferentialFlagOf(vf, differentialRequired)
    else
      var probes := ProbesOf(vf);
      if probes != [] && AllFlagged(probes) then SoundnessFlag(probes[0].0, probes[0].1, false) else None
  }

  /** soundness.py's `flag_validated_finding`. */
  method FlagValidatedFinding(vf: Rollup, installFailure: bool, controlsRequired: bool, differentialRequired: bool)
    returns (r: Option<Flag>)
    ensures r == FlagOf(vf, installFailure, controlsRequired, differentialRequired)
  {
    if vf.flag.Some? {
      return vf.flag;
    }
    if installFailure && vf.verdict == Refuted {
      return Some(TargetNotDeployed);
    }
    if vf.verdict != Refuted {
      return None;
    }
    var cflag := ControlsFlag(vf, controlsRequired);
    if cflag.Some? {
      return cflag;
    }
    var dflag := DifferentialFlag(vf, differentialRequired);
    if dflag.Some? {
      return dflag;
    }
    var probes := ProbesOf(vf);
    var flags: seq<Flag> := [];
    for i := 0 to |probes|
      invariant |flags| <= i
      invariant |flags| == i <==> AllFlagged(probes[..i])
      invariant |flags| == i > 0 ==> Some(flags[0]) == SoundnessFlag(probes[0].0, probes[0].1, false)
    {
      assert probes[..i + 1] == probes[..i] + [probes[i]];
      assert AllFlagged(probes[..i + 1]) <==>
        AllFlagged(probes[..i]) && SoundnessFlag(probes[i].0, probes[i].1, false).Some?;
      var flag := SoundnessFlag(probes[i].0, probes[i].1, false);
      if flag.Some? {
        flags := flags + [flag.value];
      }
    }
    assert probes[..|probes|] == probes;
    if flags == [] {
      return None;
    }
    if |flags| == |probes| {
      return Some(flags[0]);
    }
    return None;
  }

  ghost predicate HasCleanProbe(vf: Rollup) {
    exists i :: 0 <= i < |ProbesOf(vf)| && Clean(ProbesOf(vf)[i].0, ProbesOf(vf)[i].1)
  }

  ghost predicate CleanlyRefuted(p: Probe) {
    p.verdict == Refuted && Clean(p.verb, p.observed)
  }

  /** What a refutation rests on is clean somewhere, or there is nothing it rests on: its refuted steps,
  or its stated impact when it has none. */
  ghost predicate Supported(vf: Rollup) {
    if exists i :: 0 <= i < |vf.steps| && vf.steps[i].verdict == Refuted
    then exists i :: 0 <= i < |vf.steps| && CleanlyRefuted(vf.steps[i])
    else vf.impact.None? || Clean("", vf.impact.value)
  }

  lemma SupportedExact(vf: Rollup)
    ensures HasCleanProbe(vf) || ProbesOf(vf) == [] <==> Supported(vf)
  {
    var probes, all := RefutingProbes(vf.steps), ProbesOf(vf);
    if i :| 0 <= i < |vf.steps| && vf.steps[i].verdict == Refuted {
      var p := vf.steps[i];
      RefutingProbesMembers(vf.steps, p.verb, p.observed);
      assert (p.verb, p.observed) in probes;
    }
    if i :| 0 <= i < |vf.steps| && CleanlyRefuted(vf.steps[i]) {
      var p := vf.steps[i];
      RefutingProbesMembers(vf.steps, p.verb, p.observed);
      var j :| 0 <= j < |probes| && probes[j] == (p.verb, p.observed);
      assert Clean(all[j].0, all[j].1);
    }
    if probes != [] {
      RefutingProbesMembers(vf.steps, probes[0].0, probes[0].1);
      assert (probes[0].0, probes[0].1) == probes[0];
      if j :| 0 <= j < |all| && Clean(all[j].0, all[j].1) {
        RefutingProbesMembers(vf.steps, all[j].0, all[j].1);
        assert (all[j].0, all[j].1) == all[j];
      }
    } else if vf.impact.Some? {
      assert all == [("", vf.impact.value)];
      assert all[0] == ("", vf.impact.value);
    }
  }

  /** When a refutation stands: nothing was stamped on it, the target was there, controls and
  differentials held up, and what it rests on supports it. */
  lemma RefutationStands(vf: Rollup, installFailure: bool, controlsRequired: bool, differentialRequired: bool)
    requires vf.verdict == Refuted
    ensures FlagOf(vf, installFailure, controlsRequired, differentialRequired) == None <==>
      && vf.flag == None && !installFailure
      && !HasControl(vf.steps, false) && (controlsRequired ==> HasControl(vf.steps, true))
      && !HasDifferential(vf.steps, false)
      && (differentialRequired && HasAuthzProbe(vf.steps) ==> HasDifferential(vf.steps, true))
      && Supported(vf)
  {
    SupportedExact(vf);
    var probes := ProbesOf(vf);
    forall i | 0 <= i < |probes|
      ensures SoundnessFlag(probes[i].0, probes[i].1, false).Some? <==> !Clean(probes[i].0, probes[i].1)
    {
      UnflaggedIsClean(probes[i].0, probes[i].1, false);
    }
  }

  /** The flag of a refutation that falls for its probes alone is that of the first of them. */
  lemma FirstProbeFlags(vf: Rollup, i: nat)
    requires vf.verdict == Refuted && vf.flag == None && !HasControl(vf.steps, false) && !HasDifferential(vf.steps, false)
    requires !Supported(vf) && i < |vf.steps| && vf.steps[i].verdict == Refuted
    requires forall j :: 0 <= j < i ==> vf.steps[j].verdict != Refuted
    ensures FlagOf(vf, false, false, false) == GateVerdict(Refuted, vf.steps[i].verb, vf.steps[i].observed, false).1
  {
    RefutationStands(vf, false, false, false);
    FirstProbe(vf.steps, i);
  }

  lemma {:induction false} FirstProbe(steps: seq<Probe>, i: nat)
    requires i < |steps| && Refuting(steps[i]) && forall j :: 0 <= j < i ==> !Refuting(steps[j])
    ensures RefutingProbes(steps) != [] && RefutingProbes(steps)[0] == (steps[i].verb, steps[i].observed)
  {
    var init := steps[..|steps| - 1];
    if i < |init| {
      FirstProbe(init, i);
    } else {
      NoProbe(init);
    }
  }

  lemma {:induction false} NoProbe(steps: seq<Probe>)
    requires forall j :: 0 <= j < |steps| ==> !Refuting(steps[j])
    ensures RefutingProbes(steps) == []
  {
    if steps != [] {
      NoProbe(steps[..|steps| - 1]);
    }
  }
}
