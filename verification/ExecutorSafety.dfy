/** What every run of the executor keeps, for any plan, any adapters and any probes. */
module ExecutorSafety {
  import opened Options
  import opened Soundness
  import opened Scope
  import opened Steps
  import opened Text
  import opened Executor
  import opened Sorting

  // ---------- reading a trace ----------

  ghost predicate LastConfirmedAt(t: Trace, id: string, j: nat)
    requires j < |t|
  {
    && t[j].Recorded? && t[j].result.stepId == id && t[j].result.verdict == Confirmed
    && forall k :: j < k < |t| && t[k].Recorded? ==> t[k].result.stepId != id
  }

  /** The last result recorded under `id` before the end of `t` is a confirmation. */
  ghost predicate LastConfirmed(t: Trace, id: string) {
    exists j :: 0 <= j < |t| && LastConfirmedAt(t, id, j)
  }

  lemma {:induction false} DoneIsLast(t: Trace, id: string)
    ensures ConfirmedIn(Done(t), id) <==> LastConfirmed(t, id)
  {
    if t != [] {
      var init, e := t[..|t| - 1], t[|t| - 1];
      DoneIsLast(init, id);
      if e.Recorded? && e.result.stepId == id {
        assert e.result.verdict == Confirmed ==> LastConfirmedAt(t, id, |t| - 1);
      } else {
        if j :| 0 <= j < |init| && LastConfirmedAt(init, id, j) {
          assert LastConfirmedAt(t, id, j);
        }
        if j :| 0 <= j < |t| && LastConfirmedAt(t, id, j) {
          assert LastConfirmedAt(init, id, j);
        }
      }
    }
  }

  lemma {:induction false} UnmetExact(done: map<string, StepResult>, preconditions: seq<string>)
    ensures Unmet(done, preconditions) == [] <==> forall p :: p in preconditions ==> ConfirmedIn(done, p)
  {
    if preconditions != [] {
      var init, last := preconditions[..|preconditions| - 1], preconditions[|preconditions| - 1];
      UnmetExact(done, init);
      assert preconditions == init + [last];
    }
  }

  /** Each precondition, in order, is listed exactly when it is not confirmed. */
  lemma {:induction false} UnmetInOrder(done: map<string, StepResult>, preconditions: seq<string>)
    requires preconditions != []
    ensures Unmet(done, preconditions) ==
      (if ConfirmedIn(done, preconditions[0]) then [] else [preconditions[0]]) + Unmet(done, preconditions[1..])
  {
    if |preconditions| == 1 {
      assert preconditions[..0] == [] == preconditions[1..];
    } else {
      var init, last := preconditions[..|preconditions| - 1], preconditions[|preconditions| - 1];
      UnmetInOrder(done, init);
      assert preconditions[1..][..|preconditions| - 2] == init[1..];
    }
  }

  lemma {:induction false} CommaJoinedExact(words: seq<string>)
    ensures words == [] ==> CommaJoined(words) == ""
    ensures |words| == 1 ==> CommaJoined(words) == words[0]
    ensures |words| >= 2 ==> CommaJoined(words) == words[0] + "," + CommaJoined(words[1..])
  {
    if |words| >= 2 {
      var init, last := words[..|words| - 1], words[|words| - 1];
      CommaJoinedExact(init);
      assert words[1..][..|words| - 2] == init[1..];
      if |words| > 2 {
        Regroup(words[0] + ",", CommaJoined(init[1..]), "," + last);
        Regroup(words[0] + ",", CommaJoined(init[1..]) + ",", last);
      }
    }
  }

  // ---------- one step at a time ----------

  /** No command retargets the cluster or the credential, and scope allows the declared action and
  everything the commands really ask for. */
  ghost predicate WithinScope(cfg: Config, step: Step) {
    && (step.adapter == "k8s" ==> forall i :: 0 <= i < |step.commands| ==> step.commands[i].deniedFlags == [])
    && (forall a :: Declares(step, a) ==> cfg.bounds.Decide(cfg.env, a) == Allowed)
    && (step.adapter == "k8s" ==>
          forall i, a :: 0 <= i < |step.commands| && AsksAbout(step, step.commands[i], a) ==>
            cfg.bounds.Decide(cfg.env, a) == Allowed)
  }

  lemma InScopeExact(cfg: Config, step: Step)
    ensures InScope(cfg, step) <==> WithinScope(cfg, step)
  {
    OverridesExact(step);
    forall a
      ensures a in AllActions(step) <==>
        Declares(step, a) || (step.adapter == "k8s" && exists i :: 0 <= i < |step.commands| && AsksAbout(step, step.commands[i], a))
    {
      ActionsExact(step, a);
    }
    if InScope(cfg, step) {
      assert forall a :: a in AllActions(step) ==> cfg.bounds.Decide(cfg.env, a) == Allowed;
    }
    if WithinScope(cfg, step) {
      forall i | 0 <= i < |AllActions(step)|
        ensures cfg.bounds.Decide(cfg.env, AllActions(step)[i]) == Allowed
      {
        assert AllActions(step)[i] in AllActions(step);
      }
    }
  }

  /** Everything that must hold before an adapter may be asked to execute a step. */
  ghost predicate Authorised(cfg: Config, t: Trace, step: Step) {
    && (step.skip == "" || step.verb == "placeholder")
    && !(step.verb == "placeholder" && step.technique == "novel")
    && (forall p :: p in step.preconditions ==> LastConfirmed(t, p))
    && WithinScope(cfg, step)
    && (step.classification == Destructive ==> cfg.permitDestructive)
  }

  lemma ReadyExact(t: Trace, preconditions: seq<string>)
    ensures Unmet(Done(t), preconditions) == [] <==> forall p :: p in preconditions ==> LastConfirmed(t, p)
  {
    UnmetExact(Done(t), preconditions);
    forall p
      ensures ConfirmedIn(Done(t), p) <==> LastConfirmed(t, p)
    {
      DoneIsLast(t, p);
    }
  }

  lemma DispatchExact(cfg: Config, t: Trace, step: Step)
    ensures Rule(cfg, t, step) == Dispatch <==> Authorised(cfg, t, step)
  {
    ReadyExact(t, step.preconditions);
    InScopeExact(cfg, step);
  }

  /** The four things a step can leave in the trace: nothing, for a second-pass placeholder or when
  there is no such adapter and the run stops; or the result alone; or it after the adapter's calls. */
  ghost predicate Shape(cfg: Config, t: Trace, step: Step, h: Trace) {
    if h == [] then
      || (step.verb == "placeholder" && step.technique == "novel")
      || (Authorised(cfg, t, step) && step.adapter !in {"k8s", "container", "wasm"})
    else
      var r := h[|h| - 1];
      && r.Recorded? && r.step == step
      && (r.result.verdict == Refuted ==>
            !cfg.world.installFailed && Clean(r.result.verb, r.result.observed))
      && (if |h| == 1 then Withheld(cfg, t, step, r.result)
          else
            && Authorised(cfg, t, step) && step.adapter in {"k8s", "container", "wasm"}
            && h[0] == Executed(step)
            && (if step.classification == Mutating then |h| == 3 && h[1] == RolledBack(step) else |h| == 2)
            && Answered(cfg, t, step, r.result))
  }

  /** A result no adapter had a hand in: the step's own data, an empty transcript and no flag. */
  ghost function Unanswered(step: Step, verdict: Verdict, reason: string): StepResult {
    StepResult(step.id, step.adapter, step.verb, step.classification, verdict, Transcript({}, false, false, false),
               None, reason, None, step.findingRef, step.novelRef)
  }

  /** Why a step is kept from its adapter: the plan says so; or some precondition is not confirmed, and
  all those are named; or it is out of scope; or it is destructive without permission. */
  ghost predicate Withheld(cfg: Config, t: Trace, step: Step, r: StepResult) {
    && !Authorised(cfg, t, step)
    && !(step.verb == "placeholder" && step.technique == "novel")
    && r == (
      if step.skip != "" && step.verb != "placeholder" then
        Unanswered(step, if Contains(step.skip, "blocked_by_scope") then BlockedByScope else NotAttempted, step.skip)
      else if exists p :: p in step.preconditions && !LastConfirmed(t, p) then
        Unanswered(step, NotAttempted, "precondition-failed:" + CommaJoined(Unmet(Done(t), step.preconditions)))
      else if !WithinScope(cfg, step) then Unanswered(step, BlockedByScope, "out-of-scope")
      else Unanswered(step, NotAttempted, "destructive-not-permitted"))
  }

  /** What the adapter answered; one that raised leaves the step inconclusive. */
  ghost function Reported(cfg: Config, t: Trace, step: Step): StepResult {
    var reply := cfg.world.execute(step, t);
    if reply.Returned? then reply.value else Unanswered(step, Inconclusive, "")
  }

  /** The recorded result is the adapter's own but for the gate, which turns a refutation inconclusive
  and flags it exactly when its probe is not clean or nothing was deployed, and for the note whether a
  mutating step's rollback came back and succeeded. */
  ghost predicate Answered(cfg: Config, t: Trace, step: Step, r: StepResult) {
    var res := Reported(cfg, t, step);
    && r.(verdict := res.verdict, flag := res.flag, rollbackPerformed := res.rollbackPerformed) == res
    && (if res.verdict == Refuted && (cfg.world.installFailed || !Clean(res.verb, res.observed))
        then r.verdict == Inconclusive && r.flag.Some?
        else r.verdict == res.verdict && r.flag == res.flag)
    && (if step.classification == Mutating
        then
          var undo := cfg.world.rollback(step, res, t + [Executed(step)]);
          r.rollbackPerformed == Some(undo.Returned? && undo.value)
        else r.rollbackPerformed == res.rollbackPerformed)
  }

  lemma LoggedOne(cfg: Config, step: Step, res: StepResult)
    ensures var r := Gated(res, cfg.world.installFailed);
      && Logged(cfg, step, res) == [Recorded(step, r)]
      && r.(verdict := res.verdict, flag := res.flag) == res
      && (if res.verdict == Refuted && (cfg.world.installFailed || !Clean(res.verb, res.observed))
          then r.verdict == Inconclusive && r.flag.Some?
          else r.verdict == res.verdict && r.flag == res.flag)
  {
    UnflaggedIsClean(res.verb, res.observed, cfg.world.installFailed);
  }

  lemma HandleShape(cfg: Config, t: Trace, step: Step)
    ensures Shape(cfg, t, step, Handle(cfg, t, step))
  {
    if Rule(cfg, t, step) == Dispatch {
      DispatchedShape(cfg, t, step);
    } else {
      WithheldShape(cfg, t, step);
    }
  }

  lemma DispatchedShape(cfg: Config, t: Trace, step: Step)
    requires Rule(cfg, t, step) == Dispatch
    ensures Shape(cfg, t, step, Handle(cfg, t, step))
  {
    DispatchExact(cfg, t, step);
    if KnownAdapter(step.adapter) {
      LoggedOne(cfg, step, Attempt(cfg, t, step).1);
    }
  }

  lemma WithheldShape(cfg: Config, t: Trace, step: Step)
    requires Rule(cfg, t, step) != Dispatch
    ensures Shape(cfg, t, step, Handle(cfg, t, step))
  {
    DispatchExact(cfg, t, step);
    ReadyExact(t, step.preconditions);
    InScopeExact(cfg, step);
    match Rule(cfg, t, step)
    case PreSkipped =>
      LoggedOne(cfg, step, Undispatched(step, SkipVerdict(step.skip), step.skip));
    case Materialise =>
    case PreconditionFailed =>
      LoggedOne(cfg, step,
        Undispatched(step, NotAttempted, "precondition-failed:" + CommaJoined(Unmet(Done(t), step.preconditions))));
    case OutOfScope =>
      LoggedOne(cfg, step, Undispatched(step, BlockedByScope, SCOPE_REASON));
    case NotPermitted =>
      LoggedOne(cfg, step, Undispatched(step, NotAttempted, DESTRUCTIVE_REASON));
    case Dispatch =>
  }

  // ---------- whole runs ----------

  /** An adapter executes a step only when authorised by what was recorded before; a mutating one is
  rolled back before anything else happens; then, and only then, its result is recorded. */
  ghost predicate Guarded(cfg: Config, t: Trace) {
    forall k :: 0 <= k < |t| ==> GuardedAt(cfg, t, k)
  }

  ghost predicate GuardedAt(cfg: Config, t: Trace, k: nat)
    requires k < |t|
  {
    match t[k]
    case Executed(s) =>
      && Authorised(cfg, t[..k], s) && s.adapter in {"k8s", "container", "wasm"}
      && (if s.classification == Mutating
          then k + 2 < |t| && t[k + 1] == RolledBack(s) && t[k + 2].Recorded? && t[k + 2].step == s
          else k + 1 < |t| && t[k + 1].Recorded? && t[k + 1].step == s)
    case RolledBack(s) => s.classification == Mutating && k >= 1 && t[k - 1] == Executed(s)
    case Recorded(s, r) =>
      && (r.verdict == Refuted ==> !cfg.world.installFailed && Clean(r.verb, r.observed))
      && (r.verdict == Confirmed ==>
            k >= 1 && (t[k - 1] == Executed(s) || (k >= 2 && t[k - 2] == Executed(s))))
  }

  lemma {:induction false} EveryRunIsGuarded(cfg: Config, steps: seq<Step>)
    ensures Guarded(cfg, Play(cfg, steps))
  {
    if steps != [] {
      var init, step := steps[..|steps| - 1], steps[|steps| - 1];
      var t := Play(cfg, init);
      var h := Handle(cfg, t, step);
      EveryRunIsGuarded(cfg, init);
      HandleShape(cfg, t, step);
      forall k | 0 <= k < |t + h|
        ensures GuardedAt(cfg, t + h, k)
      {
        if k < |t| {
          assert GuardedAt(cfg, t, k);
          GuardedPrefix(cfg, t, h, k);
        } else {
          GuardedSuffix(cfg, t, step, h, k);
        }
      }
    }
  }

  lemma GuardedSuffix(cfg: Config, t: Trace, step: Step, h: Trace, k: nat)
    requires Shape(cfg, t, step, h) && |t| <= k < |t + h|
    ensures GuardedAt(cfg, t + h, k)
  {
    assert (t + h)[k] == h[k - |t|];
    if k == |t| {
      assert (t + h)[..k] == t;
    }
    assert |h| >= 2 ==> (t + h)[|t|] == h[0] && (t + h)[|t| + 1] == h[1];
    assert |h| >= 3 ==> (t + h)[|t| + 2] == h[2];
  }

  lemma GuardedPrefix(cfg: Config, t: Trace, h: Trace, k: nat)
    requires k < |t| && GuardedAt(cfg, t, k)
    ensures GuardedAt(cfg, t + h, k)
  {
    assert (t + h)[..k] == t[..k];
    assert forall j :: 0 <= j < |t| ==> (t + h)[j] == t[j];
  }

  /** No destructive step reaches an adapter without permission, in any run. */
  lemma DestructiveNeedsPermission(cfg: Config, steps: seq<Step>, step: Step)
    requires Executed(step) in Play(cfg, steps) && step.classification == Destructive
    ensures cfg.permitDestructive
  {
    var t := Play(cfg, steps);
    var k :| 0 <= k < |t| && t[k] == Executed(step);
    EveryRunIsGuarded(cfg, steps);
    assert GuardedAt(cfg, t, k);
  }

  /** What a refuted result in a run rests on: a deployed target and a clean transcript. */
  lemma RefutationsAreSound(cfg: Config, steps: seq<Step>, r: StepResult)
    requires r in Results(Play(cfg, steps)) && r.verdict == Refuted
    ensures !cfg.world.installFailed && Clean(r.verb, r.observed)
  {
    var t := Play(cfg, steps);
    var k := ResultSource(t, r);
    EveryRunIsGuarded(cfg, steps);
    assert GuardedAt(cfg, t, k);
  }

  lemma {:induction false} ResultSource(t: Trace, r: StepResult) returns (k: nat)
    requires r in Results(t)
    ensures k < |t| && t[k].Recorded? && t[k].result == r
  {
    var e := t[|t| - 1];
    if e.Recorded? && e.result == r {
      k := |t| - 1;
    } else {
      assert r in Results(t[..|t| - 1]);
      k := ResultSource(t[..|t| - 1], r);
    }
  }

  // ---------- one result per step ----------

  ghost function Concrete(steps: seq<Step>): seq<Step> {
    if steps == [] then []
    else
      var s, before := steps[|steps| - 1], Concrete(steps[..|steps| - 1]);
      if s.verb == "placeholder" && s.technique == "novel" then before else before + [s]
  }

  lemma {:induction false} ProjectionsConcat(t: Trace, h: Trace)
    ensures Handled(t + h) == Handled(t) + Handled(h)
    ensures Results(t + h) == Results(t) + Results(h)
    ensures Audit(t + h) == Audit(t) + Audit(h)
  {
    if h == [] {
      assert t + h == t;
    } else {
      var init, e := h[..|h| - 1], h[|h| - 1];
      ProjectionsConcat(t, init);
      assert (t + h)[..|t + h| - 1] == t + init;
      if e.Recorded? {
        Regroup(Handled(t), Handled(init), [e.step]);
        Regroup(Results(t), Results(init), [e.result]);
        Regroup(Audit(t), Audit(init), [AuditOf(e.result)]);
      }
    }
  }

  lemma ShapeHandlesOnce(cfg: Config, t: Trace, step: Step, h: Trace)
    requires Shape(cfg, t, step, h) && !Aborts(cfg, t, step)
    ensures Handled(h) == if h == [] then [] else [step]
  {
    if |h| >= 1 {
      var r := h[|h| - 1];
      var calls := h[..|h| - 1];
      assert calls + [r] == h;
      ResultsSnoc(calls, r);
      assert forall i :: 0 <= i < |calls| ==> calls[i] == h[i];
      NoRecords(calls);
    }
  }

  lemma {:induction false} NoRecords(t: Trace)
    requires forall i :: 0 <= i < |t| ==> !t[i].Recorded?
    ensures Handled(t) == [] && Results(t) == [] && Audit(t) == []
  {
    if t != [] {
      NoRecords(t[..|t| - 1]);
    }
  }

  lemma PlaceholderLeavesNothing(cfg: Config, t: Trace, step: Step)
    requires !Aborts(cfg, t, step)
    ensures Handle(cfg, t, step) == [] <==> Placeholder(step)
  {
  }

  /** Results, handled steps and audit lines always keep step with each other. */
  lemma {:induction false} ProjectionsAlign(t: Trace)
    ensures |Results(t)| == |Handled(t)| == |Audit(t)|
    ensures forall i :: 0 <= i < |Results(t)| ==> Audit(t)[i] == AuditOf(Results(t)[i])
  {
    if t != [] {
      ProjectionsAlign(t[..|t| - 1]);
    }
  }

  lemma {:induction false} HandlesConcrete(cfg: Config, steps: seq<Step>)
    requires Unaborted(cfg, steps)
    ensures Handled(Play(cfg, steps)) == Concrete(steps)
  {
    if steps != [] {
      var init, step := steps[..|steps| - 1], steps[|steps| - 1];
      var t := Play(cfg, init);
      var h := Handle(cfg, t, step);
      HandlesConcrete(cfg, init);
      HandledOnce(cfg, t, step);
      ProjectionsConcat(t, h);
    }
  }

  lemma HandledOnce(cfg: Config, t: Trace, step: Step)
    requires !Aborts(cfg, t, step)
    ensures Handled(Handle(cfg, t, step)) == if Placeholder(step) then [] else [step]
  {
    HandleShape(cfg, t, step);
    PlaceholderLeavesNothing(cfg, t, step);
    ShapeHandlesOnce(cfg, t, step, Handle(cfg, t, step));
  }

  /** An audit line repeats its result; the scope check passed when the result names no reason. */
  ghost predicate Audits(r: StepResult, line: AuditLine) {
    && line.stepId == r.stepId && line.adapter == r.adapter && line.verb == r.verb
    && line.classification == r.classification && line.verdict == r.verdict && line.flag == r.flag
    && line.findingRef == r.findingRef && line.novelRef == r.novelRef && (line.scopePass <==> r.scopeReason == "")
  }

  /** The results answer, in order and one for one, the steps that are not placeholders, and each
  result has its own audit line. */
  lemma OneResultPerStep(cfg: Config, steps: seq<Step>)
    requires Unaborted(cfg, steps)
    ensures var t := Play(cfg, steps);
      && Handled(t) == Concrete(steps)
      && |Results(t)| == |Concrete(steps)| == |Audit(t)|
      && forall i :: 0 <= i < |Results(t)| ==> Audits(Results(t)[i], Audit(t)[i])
  {
    HandlesConcrete(cfg, steps);
    ProjectionsAlign(Play(cfg, steps));
  }

  // ---------- the final worklist ----------

  ghost predicate VettedProbe(cfg: Config, step: Step) {
    && !(step.verb == "placeholder" && step.technique == "novel")
    && (step.classification == Destructive && !cfg.permitDestructive ==> step.skip == "destructive-not-permitted")
  }

  /** `final` is `plan` in its own order with only vetted probes put in between. */
  ghost predicate Interleaves(cfg: Config, plan: seq<Step>, final: seq<Step>)
    decreases |final|
  {
    if final == [] then plan == []
    else
      (plan != [] && final[0] == plan[0] && Interleaves(cfg, plan[1..], final[1..]))
      || (VettedProbe(cfg, final[0]) && Interleaves(cfg, plan, final[1..]))
  }

  lemma {:induction false} ProbesInterleave(cfg: Config, extra: seq<Step>, plan: seq<Step>, final: seq<Step>)
    requires forall i :: 0 <= i < |extra| ==> VettedProbe(cfg, extra[i])
    requires Interleaves(cfg, extra + plan, final)
    ensures Interleaves(cfg, plan, final)
    decreases |final|
  {
    if extra == [] {
      assert extra + plan == plan;
    } else {
      var all := extra + plan;
      assert all[1..] == extra[1..] + plan;
      if final[0] == all[0] && Interleaves(cfg, all[1..], final[1..]) {
        ProbesInterleave(cfg, extra[1..], plan, final[1..]);
      } else {
        ProbesInterleave(cfg, extra, plan, final[1..]);
      }
    }
  }

  /** Whatever the recon parser suggests, a run's final list keeps the plan and adds vetted probes. */
  lemma {:induction false} UnrolledInterleaves(cfg: Config, walked: seq<Step>, rest: seq<Step>)
    requires ProbesAreConcrete(cfg.world)
    ensures var final := Unrolled(cfg, walked, rest);
      walked <= final && Interleaves(cfg, rest, final[|walked|..])
    decreases Placeholders(rest), |rest|
  {
    if rest != [] {
      var t := Play(cfg, walked);
      RemainingShrinks(cfg, t, rest);
      var next, r := walked + [rest[0]], Remaining(cfg, t, rest);
      UnrolledInterleaves(cfg, next, r);
      var final := Unrolled(cfg, walked, rest);
      assert final == Unrolled(cfg, next, r);
      assert final[|walked|..][0] == rest[0];
      assert final[|walked|..][1..] == final[|next|..];
      if Rule(cfg, t, rest[0]) == Materialise && cfg.secondPassNovel {
        var extra := Extra(cfg.world, cfg.permitDestructive, Results(t));
        ProbesInterleave(cfg, extra, rest[1..], final[|next|..]);
      }
    }
  }

  /** A suggested step with its own class put in, and a skip if that calls for one. */
  ghost predicate ProbeFor(cfg: Config, suggested: Step, s: Step) {
    && s.(classification := suggested.classification, skip := suggested.skip) == suggested
    && s.classification == cfg.world.classify(suggested)
    && s.skip == (if s.classification == Destructive && !cfg.permitDestructive then "destructive-not-permitted" else suggested.skip)
  }

  ghost predicate IsProbe(cfg: Config, s: Step) {
    exists rs, i :: 0 <= i < |cfg.world.probes(rs)| && ProbeFor(cfg, cfg.world.probes(rs)[i], s)
  }

  lemma ReconSnoc(rs: seq<StepResult>, r: StepResult)
    ensures ReconResults(rs + [r]) == if ReconUsable(r) then ReconResults(rs) + [r] else ReconResults(rs)
  {
    assert (rs + [r])[..|rs|] == rs;
  }

  ghost function IfShown(r: StepResult): seq<StepResult> {
    if r.adapter != "" && r.verdict != NotAttempted && r.classification == Safe then [r] else []
  }

  lemma {:induction false} ReconFront(r: StepResult, rs: seq<StepResult>)
    ensures ReconResults([r] + rs) == IfShown(r) + ReconResults(rs)
  {
    if rs == [] {
      ReconSnoc([], r);
      assert [r] + rs == [] + [r];
    } else {
      var init, last := rs[..|rs| - 1], rs[|rs| - 1];
      ReconFront(r, init);
      ReconSnoc([r] + init, last);
      ReconSnoc(init, last);
      assert rs == init + [last];
      Regroup([r], init, [last]);
      Regroup(IfShown(r), ReconResults(init), [last]);
    }
  }

  /** What the recon parser is shown: in order, each result so far with an adapter and a verdict, of a
  step classed safe. */
  lemma ReconInOrder(rs: seq<StepResult>)
    requires rs != []
    ensures ReconResults(rs) == IfShown(rs[0]) + ReconResults(rs[1..])
  {
    ReconFront(rs[0], rs[1..]);
    assert rs == [rs[0]] + rs[1..];
  }

  /** A reached placeholder is followed by one vetted probe for each suggestion, in order, before the
  rest of the plan. */
  lemma MaterialisedExact(cfg: Config, t: Trace, rest: seq<Step>)
    requires rest != [] && cfg.secondPassNovel
    requires rest[0].verb == "placeholder" && rest[0].technique == "novel"
    ensures var suggested, r := cfg.world.probes(ReconResults(Results(t))), Remaining(cfg, t, rest);
      && |r| == |suggested| + |rest| - 1 && r[|suggested|..] == rest[1..]
      && forall i :: 0 <= i < |suggested| ==> ProbeFor(cfg, suggested[i], r[i])
  {
    var suggested := cfg.world.probes(ReconResults(Results(t)));
    var extra := Extra(cfg.world, cfg.permitDestructive, Results(t));
    var r := Remaining(cfg, t, rest);
    assert r == extra + rest[1..];
    forall i | 0 <= i < |suggested|
      ensures ProbeFor(cfg, suggested[i], r[i])
    {
      assert r[i] == extra[i] == Vetted(cfg.world, cfg.permitDestructive, suggested[i]);
    }
  }

  /** What is on the final list was planned or comes from the probe catalogue. */
  lemma {:induction false} UnrolledSources(cfg: Config, walked: seq<Step>, rest: seq<Step>, s: Step)
    requires ProbesAreConcrete(cfg.world) && s in Unrolled(cfg, walked, rest)
    ensures s in walked || s in rest || IsProbe(cfg, s)
    decreases Placeholders(rest), |rest|
  {
    if rest != [] {
      var t := Play(cfg, walked);
      RemainingShrinks(cfg, t, rest);
      var r := Remaining(cfg, t, rest);
      UnrolledSources(cfg, walked + [rest[0]], r, s);
      if s in r {
        RemainingSources(cfg, t, rest, s);
      }
    }
  }

  lemma RemainingSources(cfg: Config, t: Trace, rest: seq<Step>, s: Step)
    requires rest != [] && s in Remaining(cfg, t, rest)
    ensures s in rest || IsProbe(cfg, s)
  {
    if s !in rest[1..] {
      var rs := ReconResults(Results(t));
      var extra := VettedAll(cfg.world, cfg.permitDestructive, cfg.world.probes(rs));
      assert s in extra;
      var i :| 0 <= i < |extra| && extra[i] == s;
      assert ProbeFor(cfg, cfg.world.probes(rs)[i], s);
    }
  }

  lemma {:induction false} PlayPrefix(cfg: Config, a: seq<Step>, b: seq<Step>)
    ensures Play(cfg, a) <= Play(cfg, a + b)
  {
    if b == [] {
      assert a + b == a;
    } else {
      PlayPrefix(cfg, a, b[..|b| - 1]);
      PlayToTheEnd(cfg, a, b);
    }
  }

  lemma PlayToTheEnd(cfg: Config, a: seq<Step>, b: seq<Step>)
    requires b != [] && Play(cfg, a) <= Play(cfg, a + b[..|b| - 1])
    ensures Play(cfg, a) <= Play(cfg, a + b)
  {
    PlayLonger(cfg, a, b[..|b| - 1], b[|b| - 1]);
    LastBack(b);
  }

  lemma PlayLonger(cfg: Config, a: seq<Step>, b: seq<Step>, step: Step)
    requires Play(cfg, a) <= Play(cfg, a + b)
    ensures Play(cfg, a) <= Play(cfg, a + (b + [step]))
  {
    Regroup(a, b, [step]);
    PlaySnoc(cfg, a + b, step);
    PrefixOn(Play(cfg, a), Play(cfg, a + b), Handle(cfg, Play(cfg, a + b), step));
  }

  lemma PrefixOn(a: Trace, b: Trace, c: Trace)
    requires a <= b
    ensures a <= b + c
  {
  }

  /** However far a run gets, its trace is the beginning of the trace of the plan unrolled. */
  lemma RunsArePrefixes(cfg: Config, plan: seq<Step>, steps: seq<Step>, i: nat, t: Trace)
    requires ProbesAreConcrete(cfg.world) && At(cfg, plan, steps, i, t)
    ensures t <= Play(cfg, Unrolled(cfg, [], plan))
  {
    WalkIsPrefix(cfg, plan, steps[..i], steps[i..], t);
  }

  lemma WalkIsPrefix(cfg: Config, plan: seq<Step>, walked: seq<Step>, rest: seq<Step>, t: Trace)
    requires ProbesAreConcrete(cfg.world) && Walking(cfg, plan, walked, rest, t)
    ensures t <= Play(cfg, Unrolled(cfg, [], plan))
  {
    var final := Unrolled(cfg, [], plan);
    UnrolledInterleaves(cfg, walked, rest);
    assert walked + final[|walked|..] == final;
    PlayPrefix(cfg, walked, final[|walked|..]);
  }

  /** With the second pass off, the list is left alone. */
  lemma {:induction false} NoSecondPassNoChange(cfg: Config, walked: seq<Step>, rest: seq<Step>)
    requires ProbesAreConcrete(cfg.world) && !cfg.secondPassNovel
    ensures Unrolled(cfg, walked, rest) == walked + rest
    decreases |rest|
  {
    if rest == [] {
      assert walked + [] == walked;
    } else {
      RemainingShrinks(cfg, Play(cfg, walked), rest);
      assert Remaining(cfg, Play(cfg, walked), rest) == rest[1..];
      NoSecondPassNoChange(cfg, walked + [rest[0]], rest[1..]);
      Regroup(walked, [rest[0]], rest[1..]);
      assert [rest[0]] + rest[1..] == rest;
    }
  }

  // ---------- precondition cycles ----------

  ghost predicate DistinctIds(steps: seq<Step>) {
    forall i, j :: 0 <= i < j < |steps| ==> steps[i].id != steps[j].id
  }

  /** The one thing asked of adapters here: a result carries the id of the step it is for. */
  ghost predicate AnswersForItself(world: World) {
    forall s, t :: world.execute(s, t).Returned? ==> world.execute(s, t).value.stepId == s.id
  }

  /** Each step of the cycle is a precondition of the next. */
  ghost predicate PreconditionCycle(cycle: seq<Step>) {
    |cycle| >= 1 && forall i :: 0 <= i < |cycle| ==> cycle[i].id in cycle[if i + 1 == |cycle| then 0 else i + 1].preconditions
  }

  lemma HandleEvents(cfg: Config, t: Trace, step: Step, e: Event)
    requires AnswersForItself(cfg.world) && e in Handle(cfg, t, step)
    ensures e.step == step
    ensures e.Recorded? ==> e.result.stepId == step.id
  {
    match Rule(cfg, t, step)
    case Dispatch =>
    case _ =>
  }

  lemma {:induction false} EventSource(cfg: Config, steps: seq<Step>, k: nat)
    requires AnswersForItself(cfg.world) && k < |Play(cfg, steps)|
    ensures var e := Play(cfg, steps)[k];
      e.step in steps && (e.Recorded? ==> e.result.stepId == e.step.id)
  {
    var init, step := steps[..|steps| - 1], steps[|steps| - 1];
    var t := Play(cfg, init);
    var h := Handle(cfg, t, step);
    if k < |t| {
      EventSource(cfg, init, k);
      assert Play(cfg, steps)[k] == t[k];
    } else {
      assert Play(cfg, steps)[k] == h[k - |t|];
      HandleEvents(cfg, t, step, h[k - |t|]);
    }
  }

  /** A confirmation comes from dispatching the step it is recorded for: before a step is executed,
  one bearing each precondition id was, and was recorded confirmed in between. */
  lemma DispatchWaits(cfg: Config, steps: seq<Step>, k: nat, id: string) returns (j: nat, r: nat)
    requires AnswersForItself(cfg.world)
    requires k < |Play(cfg, steps)| && Play(cfg, steps)[k].Executed?
    requires id in Play(cfg, steps)[k].step.preconditions
    ensures j < r < k && Play(cfg, steps)[j].Executed?
    ensures Play(cfg, steps)[j].step in steps && Play(cfg, steps)[j].step.id == id
    ensures Play(cfg, steps)[r].Recorded? && Play(cfg, steps)[r].step == Play(cfg, steps)[j].step
    ensures Play(cfg, steps)[r].result.stepId == id && Play(cfg, steps)[r].result.verdict == Confirmed
  {
    var t := Play(cfg, steps);
    EveryRunIsGuarded(cfg, steps);
    assert GuardedAt(cfg, t, k);
    assert LastConfirmed(t[..k], id);
    r :| 0 <= r < k && LastConfirmedAt(t[..k], id, r);
    assert t[r] == t[..k][r];
    EventSource(cfg, steps, r);
    assert GuardedAt(cfg, t, r);
    j := if t[r - 1] == Executed(t[r].step) then r - 1 else r - 2;
  }

  lemma IdsIdentify(steps: seq<Step>, a: Step, b: Step)
    requires DistinctIds(steps) && a in steps && b in steps && a.id == b.id
    ensures a == b
  {
  }

  /** Waiting on itself through any chain of preconditions, a step never reaches an adapter: only a
  dispatch can record the confirmation each member of the cycle waits for. */
  lemma {:induction false} CycleIsNeverDispatched(cfg: Config, steps: seq<Step>, cycle: seq<Step>, i: nat, k: nat)
    requires DistinctIds(steps) && AnswersForItself(cfg.world)
    requires PreconditionCycle(cycle) && (forall s :: s in cycle ==> s in steps)
    requires i < |cycle| && k < |Play(cfg, steps)|
    ensures Play(cfg, steps)[k] != Executed(cycle[i])
    decreases k
  {
    var t := Play(cfg, steps);
    if t[k] == Executed(cycle[i]) {
      var prev := if i == 0 then |cycle| - 1 else i - 1;
      assert cycle[prev].id in cycle[i].preconditions;
      var j, r := DispatchWaits(cfg, steps, k, cycle[prev].id);
      IdsIdentify(steps, t[j].step, cycle[prev]);
      CycleIsNeverDispatched(cfg, steps, cycle, prev, j);
    }
  }
}
