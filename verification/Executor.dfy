/** The staged executor of execute.py.

Adapters, the cluster behind them and the recon parser are a `World`: any replies at all, each free
to depend on everything that happened before. A run is described by its trace, the adapter calls
and the recorded results in order. `Play` says what trace a list of steps must leave; the class
`Executor` is the loop of the original, which inserts into the list it is walking. */
module Executor {
  import opened Options
  import opened Soundness
  import opened Scope
  import opened Steps
  import opened Text

  datatype Event =
    | Executed(step: Step)
    | RolledBack(step: Step)
    | Recorded(step: Step, result: StepResult)

  type Trace = seq<Event>

  datatype Reply<+T> = Raised | Returned(value: T)

  datatype World = World(
    execute: (Step, Trace) -> Reply<StepResult>,
    rollback: (Step, StepResult, Trace) -> Reply<bool>,
    probes: seq<StepResult> -> seq<Step>,
    classify: Step -> Class,
    installFailed: bool)

  datatype Config = Config(bounds: Bounds, env: Surroundings, world: World, permitDestructive: bool, secondPassNovel: bool)

  // ---------- what a trace amounts to ----------

  ghost function Results(t: Trace): seq<StepResult> {
    if t == [] then []
    else
      var e, before := t[|t| - 1], Results(t[..|t| - 1]);
      if e.Recorded? then before + [e.result] else before
  }

  /** The steps that got a result, in order. */
  ghost function Handled(t: Trace): seq<Step> {
    if t == [] then []
    else
      var e, before := t[|t| - 1], Handled(t[..|t| - 1]);
      if e.Recorded? then before + [e.step] else before
  }

  /** The last result recorded under each step id. */
  ghost function Done(t: Trace): map<string, StepResult> {
    if t == [] then map[]
    else
      var e := t[|t| - 1];
      if e.Recorded? then Done(t[..|t| - 1])[e.result.stepId := e.result] else Done(t[..|t| - 1])
  }

  datatype AuditLine = AuditLine(
    stepId: string, adapter: string, verb: string, classification: Class, verdict: Verdict,
    scopePass: bool, findingRef: string, novelRef: string, flag: Option<Flag>)

  function AuditOf(r: StepResult): AuditLine {
    AuditLine(r.stepId, r.adapter, r.verb, r.classification, r.verdict, r.scopeReason == "", r.findingRef, r.novelRef, r.flag)
  }

  ghost function Audit(t: Trace): seq<AuditLine> {
    if t == [] then []
    else
      var e, before := t[|t| - 1], Audit(t[..|t| - 1]);
      if e.Recorded? then before + [AuditOf(e.result)] else before
  }

  // ---------- what happens to one step ----------

  predicate ConfirmedIn(done: map<string, StepResult>, id: string) {
    id in done && done[id].verdict == Confirmed
  }

  function Unmet(done: map<string, StepResult>, preconditions: seq<string>): seq<string> {
    if preconditions == [] then []
    else
      var p, before := preconditions[|preconditions| - 1], Unmet(done, preconditions[..|preconditions| - 1]);
      if ConfirmedIn(done, p) then before else before + [p]
  }

  function CommaJoined(words: seq<string>): string {
    if words == [] then ""
    else if |words| == 1 then words[0]
    else CommaJoined(words[..|words| - 1]) + "," + words[|words| - 1]
  }

  /** A result the executor writes itself, without calling an adapter. */
  function Undispatched(step: Step, verdict: Verdict, reason: string): StepResult {
    StepResult(step.id, step.adapter, step.verb, step.classification, verdict, SILENT, None, reason, None,
               step.findingRef, step.novelRef)
  }

  function Gated(r: StepResult, installFailed: bool): StepResult {
    var (verdict, flag) := GateVerdict(r.verdict, r.verb, r.observed, installFailed);
    if flag.Some? then r.(verdict := verdict, flag := flag) else r
  }

  ghost predicate InScope(cfg: Config, step: Step) {
    && !Overrides(step)
    && forall i :: 0 <= i < |AllActions(step)| ==> cfg.bounds.Decide(cfg.env, AllActions(step)[i]) == Allowed
  }

  datatype Ruling = PreSkipped | Materialise | PreconditionFailed | OutOfScope | NotPermitted | Dispatch

  ghost function Rule(cfg: Config, t: Trace, step: Step): Ruling {
    if step.skip != "" && step.verb != "placeholder" then PreSkipped
    else if Placeholder(step) then Materialise
    else if Unmet(Done(t), step.preconditions) != [] then PreconditionFailed
    else if !InScope(cfg, step) then OutOfScope
    else if step.classification == Destructive && !cfg.permitDestructive then NotPermitted
    else Dispatch
  }

  predicate KnownAdapter(name: string) {
    name == "k8s" || name == "container" || name == "wasm"
  }

  /** `get_adapter` raises outside the loop's `try`: the run stops there. */
  ghost predicate Aborts(cfg: Config, t: Trace, step: Step) {
    Rule(cfg, t, step) == Dispatch && !KnownAdapter(step.adapter)
  }

  const SCOPE_REASON := "out-of-scope"
  const DESTRUCTIVE_REASON := "destructive-not-permitted"

  function SkipVerdict(skip: string): Verdict {
    if Contains(skip, "blocked_by_scope") then BlockedByScope else NotAttempted
  }

  /** The result before the gate, and the adapter calls that led to it. */
  ghost function Attempt(cfg: Config, t: Trace, step: Step): (Trace, StepResult) {
    var reply := cfg.world.execute(step, t);
    var res := if reply.Returned? then reply.value else Undispatched(step, Inconclusive, "");
    var t1 := [Executed(step)];
    if step.classification == Mutating then
      var undo := cfg.world.rollback(step, res, t + t1);
      (t1 + [RolledBack(step)], res.(rollbackPerformed := Some(undo.Returned? && undo.value)))
    else (t1, res)
  }

  /** The events one step adds to a run. */
  ghost function Handle(cfg: Config, t: Trace, step: Step): Trace {
    match Rule(cfg, t, step)
    case PreSkipped => Logged(cfg, step, Undispatched(step, SkipVerdict(step.skip), step.skip))
    case Materialise => []
    case PreconditionFailed =>
      Logged(cfg, step, Undispatched(step, NotAttempted, "precondition-failed:" + CommaJoined(Unmet(Done(t), step.preconditions))))
    case OutOfScope => Logged(cfg, step, Undispatched(step, BlockedByScope, SCOPE_REASON))
    case NotPermitted => Logged(cfg, step, Undispatched(step, NotAttempted, DESTRUCTIVE_REASON))
    case Dispatch =>
      if !KnownAdapter(step.adapter) then []
      else
        var (calls, res) := Attempt(cfg, t, step);
        calls + Logged(cfg, step, res)
  }

  ghost function Logged(cfg: Config, step: Step, res: StepResult): Trace {
    [Recorded(step, Gated(res, cfg.world.installFailed))]
  }

  /** The trace of a list of steps taken in order. */
  ghost function Play(cfg: Config, steps: seq<Step>): Trace {
    if steps == [] then []
    else
      var t := Play(cfg, steps[..|steps| - 1]);
      t + Handle(cfg, t, steps[|steps| - 1])
  }

  // ---------- the worklist ----------

  function ReconUsable(r: StepResult): bool {
    r.adapter != "" && r.verdict != NotAttempted && r.classification == Safe
  }

  function ReconResults(rs: seq<StepResult>): seq<StepResult> {
    if rs == [] then []
    else
      var r, before := rs[|rs| - 1], ReconResults(rs[..|rs| - 1]);
      if ReconUsable(r) then before + [r] else before
  }

  function Vetted(world: World, permit: bool, ex: Step): Step {
    var cls := world.classify(ex);
    ex.(classification := cls, skip := if cls == Destructive && !permit then DESTRUCTIVE_REASON else ex.skip)
  }

  function VettedAll(world: World, permit: bool, extra: seq<Step>): seq<Step> {
    seq(|extra|, i requires 0 <= i < |extra| => Vetted(world, permit, extra[i]))
  }

  function Extra(world: World, permit: bool, results: seq<StepResult>): seq<Step> {
    VettedAll(world, permit, world.probes(ReconResults(results)))
  }

  /** The probe catalogue holds no placeholder, so materialising never reserves more of the same. */
  ghost predicate ProbesAreConcrete(world: World) {
    forall rs, i :: 0 <= i < |world.probes(rs)| ==> !Placeholder(world.probes(rs)[i])
  }

  ghost function Placeholders(steps: seq<Step>): nat {
    if steps == [] then 0 else Placeholders(steps[1..]) + (if Placeholder(steps[0]) then 1 else 0)
  }

  lemma {:induction false} PlaceholdersConcat(a: seq<Step>, b: seq<Step>)
    ensures Placeholders(a + b) == Placeholders(a) + Placeholders(b)
  {
    if a == [] {
      assert a + b == b;
    } else {
      PlaceholdersConcat(a[1..], b);
      assert (a + b)[1..] == a[1..] + b;
    }
  }

  lemma {:induction false} NoPlaceholders(steps: seq<Step>)
    requires forall i :: 0 <= i < |steps| ==> !Placeholder(steps[i])
    ensures Placeholders(steps) == 0
  {
    if steps != [] {
      NoPlaceholders(steps[1..]);
    }
  }

  /** The steps still to come once `next`, the head of the worklist, has been taken. */
  ghost function Remaining(cfg: Config, t: Trace, rest: seq<Step>): seq<Step>
    requires rest != []
  {
    if Rule(cfg, t, rest[0]) == Materialise && cfg.secondPassNovel
    then Extra(cfg.world, cfg.permitDestructive, Results(t)) + rest[1..]
    else rest[1..]
  }

  lemma RemainingShrinks(cfg: Config, t: Trace, rest: seq<Step>)
    requires rest != [] && ProbesAreConcrete(cfg.world)
    ensures var r := Remaining(cfg, t, rest);
      Placeholders(r) < Placeholders(rest) || (Placeholders(r) == Placeholders(rest) && |r| < |rest|)
  {
    if Rule(cfg, t, rest[0]) == Materialise && cfg.secondPassNovel {
      var extra := Extra(cfg.world, cfg.permitDestructive, Results(t));
      assert forall i :: 0 <= i < |extra| ==> !Placeholder(extra[i]);
      NoPlaceholders(extra);
      PlaceholdersConcat(extra, rest[1..]);
    }
  }

  /** The list as it stands at the end of the run. */
  ghost function Unrolled(cfg: Config, done: seq<Step>, rest: seq<Step>): seq<Step>
    requires ProbesAreConcrete(cfg.world)
    decreases Placeholders(rest), |rest|
  {
    if rest == [] then done
    else
      RemainingShrinks(cfg, Play(cfg, done), rest);
      Unrolled(cfg, done + [rest[0]], Remaining(cfg, Play(cfg, done), rest))
  }

  lemma ResultsSnoc(t: Trace, e: Event)
    ensures Results(t + [e]) == if e.Recorded? then Results(t) + [e.result] else Results(t)
    ensures Handled(t + [e]) == if e.Recorded? then Handled(t) + [e.step] else Handled(t)
    ensures Audit(t + [e]) == if e.Recorded? then Audit(t) + [AuditOf(e.result)] else Audit(t)
    ensures Done(t + [e]) == if e.Recorded? then Done(t)[e.result.stepId := e.result] else Done(t)
  {
    assert (t + [e])[..|t|] == t;
  }

  lemma PlaySnoc(cfg: Config, steps: seq<Step>, step: Step)
    ensures Play(cfg, steps + [step]) == Play(cfg, steps) + Handle(cfg, Play(cfg, steps), step)
  {
    assert (steps + [step])[..|steps|] == steps;
  }

  /** No unknown adapter stopped the walk. */
  ghost predicate Unaborted(cfg: Config, walked: seq<Step>) {
    walked == [] ||
    (Unaborted(cfg, walked[..|walked| - 1])
     && !Aborts(cfg, Play(cfg, walked[..|walked| - 1]), walked[|walked| - 1]))
  }

  /** A run that has walked `walked` and still has `rest` before it. */
  ghost predicate Walking(cfg: Config, plan: seq<Step>, walked: seq<Step>, rest: seq<Step>, t: Trace)
    requires ProbesAreConcrete(cfg.world)
  {
    && t == Play(cfg, walked)
    && Unaborted(cfg, walked)
    && Unrolled(cfg, walked, rest) == Unrolled(cfg, [], plan)
  }

  lemma WalkOn(cfg: Config, plan: seq<Step>, walked: seq<Step>, rest: seq<Step>, t: Trace)
    requires ProbesAreConcrete(cfg.world) && rest != []
    requires Walking(cfg, plan, walked, rest, t) && !Aborts(cfg, t, rest[0])
    ensures Walking(cfg, plan, walked + [rest[0]], Remaining(cfg, t, rest), t + Handle(cfg, t, rest[0]))
  {
    PlaySnoc(cfg, walked, rest[0]);
    assert (walked + [rest[0]])[..|walked|] == walked;
  }

  /** The same, for a worklist walked up to position `i`. */
  ghost predicate At(cfg: Config, plan: seq<Step>, steps: seq<Step>, i: nat, t: Trace)
    requires ProbesAreConcrete(cfg.world)
  {
    i <= |steps| && Walking(cfg, plan, steps[..i], steps[i..], t)
  }

  lemma StepOn(cfg: Config, plan: seq<Step>, steps: seq<Step>, i: nat, t: Trace, longer: seq<Step>)
    requires ProbesAreConcrete(cfg.world) && i < |steps|
    requires At(cfg, plan, steps, i, t) && !Aborts(cfg, t, steps[i])
    requires |longer| > i && longer[..i + 1] == steps[..i + 1]
    requires longer[i + 1..] == Remaining(cfg, t, steps[i..])
    ensures At(cfg, plan, longer, i + 1, t + Handle(cfg, t, steps[i]))
  {
    var walked, rest := steps[..i], steps[i..];
    assert rest[0] == steps[i];
    WalkOn(cfg, plan, walked, rest, t);
    HeadMoved(steps, i, longer);
  }

  lemma HeadMoved(steps: seq<Step>, i: nat, longer: seq<Step>)
    requires i < |steps| && i < |longer| && longer[..i + 1] == steps[..i + 1]
    ensures longer[..i + 1] == steps[..i] + [steps[i]]
  {
  }

  lemma HandleNothing(cfg: Config, t: Trace, step: Step)
    requires Placeholder(step)
    ensures t + Handle(cfg, t, step) == t && !Aborts(cfg, t, step)
  {
    assert Handle(cfg, t, step) == [];
  }

  lemma SetOut(cfg: Config, plan: seq<Step>)
    requires ProbesAreConcrete(cfg.world)
    ensures At(cfg, plan, plan, 0, [])
  {
    assert plan[..0] == [] && plan[0..] == plan;
  }

  /** With nothing left before it, a run has walked its list out. */
  lemma WalkDone(cfg: Config, plan: seq<Step>, steps: seq<Step>, i: nat, t: Trace)
    requires ProbesAreConcrete(cfg.world) && At(cfg, plan, steps, i, t) && i == |steps|
    ensures steps[..i] == steps == Unrolled(cfg, [], plan)
  {
    assert steps[..i] == steps && steps[i..] == [];
    assert Unrolled(cfg, steps, []) == steps;
  }

  lemma SplicedBehind(steps: seq<Step>, k: nat, extra: seq<Step>)
    requires k <= |steps|
    ensures var longer := steps[..k] + extra + steps[k..];
      |longer| >= k && longer[..k] == steps[..k] && longer[k..] == extra + steps[k..]
  {
  }

  // ---------- the loop ----------

  class Executor {
    const scope: Scope
    const env: Surroundings
    const world: World
    const permitDestructive: bool
    const secondPassNovel: bool

    var results: seq<StepResult>
    var done: map<string, StepResult>
    var audit: seq<AuditLine>
    var trace: Trace

    constructor (scope: Scope, env: Surroundings, world: World, permitDestructive: bool, secondPassNovel: bool)
      ensures this.scope == scope && this.env == env && this.world == world
      ensures this.permitDestructive == permitDestructive && this.secondPassNovel == secondPassNovel
      ensures trace == [] && Valid()
    {
      this.scope, this.env, this.world := scope, env, world;
      this.permitDestructive, this.secondPassNovel := permitDestructive, secondPassNovel;
      results, done, audit, trace := [], map[], [], [];
    }

    /** The run's bookkeeping is exactly what its trace amounts to. */
    ghost predicate Valid()
      reads this
    {
      results == Results(trace) && done == Done(trace) && audit == Audit(trace)
    }

    ghost function Cfg(): Config
      reads scope
    {
      Config(scope.State(), env, world, permitDestructive, secondPassNovel)
    }

    method Call(e: Event)
      requires Valid() && !e.Recorded?
      modifies this
      ensures Valid() && trace == old(trace) + [e]
    {
      ResultsSnoc(trace, e);
      trace := trace + [e];
    }

    method Record(step: Step, res: StepResult)
      requires Valid()
      modifies this
      ensures Valid() && trace == old(trace) + Logged(Cfg(), step, res)
    {
      var gated := Gated(res, world.installFailed);
      ResultsSnoc(trace, Recorded(step, gated));
      results := results + [gated];
      done := done[gated.stepId := gated];
      audit := audit + [AuditOf(gated)];
      trace := trace + [Recorded(step, gated)];
    }

    method CheckScope(step: Step) returns (ok: bool)
      ensures ok <==> InScope(Cfg(), step)
    {
      var actions, deny := StepActions(step);
      if deny {
        return false;
      }
      for i := 0 to |actions|
        invariant forall j :: 0 <= j < i ==> scope.IsInScope(env, actions[j]) == Allowed
      {
        if scope.IsInScope(env, actions[i]) != Allowed {
          assert Cfg().bounds.Decide(env, AllActions(step)[i]) != Allowed;
          return false;
        }
      }
      return true;
    }

    method DispatchStep(step: Step)
      requires Valid() && KnownAdapter(step.adapter)
      modifies this
      ensures Valid()
      ensures var (calls, res) := Attempt(Cfg(), old(trace), step);
        trace == old(trace) + (calls + Logged(Cfg(), step, res))
    {
      var reply := world.execute(step, trace);
      var res := if reply.Returned? then reply.value else Undispatched(step, Inconclusive, "");
      Call(Executed(step));
      if step.classification == Mutating {
        var undo := world.rollback(step, res, trace);
        Call(RolledBack(step));
        res := res.(rollbackPerformed := Some(undo.Returned? && undo.value));
      }
      Record(step, res);
    }

    /** One pass of the loop body over a step that is not a placeholder. */
    method Process(step: Step) returns (ok: bool)
      requires Valid() && !(Rule(Cfg(), trace, step) == Materialise)
      modifies this
      ensures Valid() && trace == old(trace) + Handle(Cfg(), old(trace), step)
      ensures ok <==> !Aborts(Cfg(), old(trace), step)
    {
      if step.skip != "" && step.verb != "placeholder" {
        Record(step, Undispatched(step, SkipVerdict(step.skip), step.skip));
        return true;
      }
      var unmet := Unmet(done, step.preconditions);
      if unmet != [] {
        Record(step, Undispatched(step, NotAttempted, "precondition-failed:" + CommaJoined(unmet)));
        return true;
      }
      var inScope := CheckScope(step);
      if !inScope {
        Record(step, Undispatched(step, BlockedByScope, SCOPE_REASON));
        return true;
      }
      if step.classification == Destructive && !permitDestructive {
        Record(step, Undispatched(step, NotAttempted, DESTRUCTIVE_REASON));
        return true;
      }
      if !KnownAdapter(step.adapter) {
        return false;
      }
      DispatchStep(step);
      return true;
    }

    /** A placeholder is used up: the probes it yields, if any, go in right behind it. */
    method Materialised(steps: seq<Step>, i: nat) returns (longer: seq<Step>)
      requires Valid() && i < |steps| && Placeholder(steps[i])
      ensures |longer| > i && longer[..i + 1] == steps[..i + 1]
      ensures longer[i + 1..] == Remaining(Cfg(), trace, steps[i..])
    {
      longer := steps;
      if secondPassNovel {
        var extra := Extra(world, permitDestructive, results);
        longer := steps[..i + 1] + extra + steps[i + 1..];
        SplicedBehind(steps, i + 1, extra);
        assert steps[i..][1..] == steps[i + 1..];
      }
    }

    /** One turn of the loop at position `i`. */
    method Turn(ghost plan: seq<Step>, steps: seq<Step>, i: nat) returns (ok: bool, longer: seq<Step>)
      requires Valid() && i < |steps| && ProbesAreConcrete(world)
      requires At(Cfg(), plan, steps, i, trace)
      modifies this
      ensures Valid()
      ensures ok ==> At(Cfg(), plan, longer, i + 1, trace)
      ensures ok ==> longer[i + 1..] == Remaining(Cfg(), old(trace), steps[i..])
      ensures !ok ==> trace == old(trace) && Aborts(Cfg(), trace, steps[i])
    {
      if Placeholder(steps[i]) {
        ok := true;
        longer := Materialised(steps, i);
        HandleNothing(Cfg(), trace, steps[i]);
        StepOn(Cfg(), plan, steps, i, trace, longer);
      } else {
        longer := steps;
        ok := ProcessAt(steps, i);
        if ok {
          StepOn(Cfg(), plan, steps, i, old(trace), longer);
        }
      }
    }

    /** The step at position `i`, which leaves the list alone. */
    method ProcessAt(steps: seq<Step>, i: nat) returns (ok: bool)
      requires Valid() && i < |steps| && !Placeholder(steps[i])
      modifies this
      ensures Valid() && trace == old(trace) + Handle(Cfg(), old(trace), steps[i])
      ensures ok <==> !Aborts(Cfg(), old(trace), steps[i])
      ensures !ok ==> trace == old(trace)
      ensures steps[i + 1..] == Remaining(Cfg(), old(trace), steps[i..])
    {
      assert steps[i..][1..] == steps[i + 1..];
      ok := Process(steps[i]);
      if !ok {
        assert old(trace) + [] == old(trace);
      }
    }

    /** execute.py's `run`: walk the plan, inserting materialised probes after the placeholder.
    `finished` is false when an unknown adapter raised; `steps[..i]` is what was walked. */
    method Run(plan: seq<Step>) returns (finished: bool, steps: seq<Step>, i: nat)
      requires Valid() && trace == [] && ProbesAreConcrete(world)
      modifies this
      ensures Valid() && i <= |steps|
      ensures At(Cfg(), plan, steps, i, trace)
      ensures finished ==> steps[..i] == steps == Unrolled(Cfg(), [], plan)
      ensures !finished ==> i < |steps| && Aborts(Cfg(), trace, steps[i])
    {
      steps := plan;
      i := 0;
      SetOut(Cfg(), plan);
      while i < |steps|
        invariant Valid() && At(Cfg(), plan, steps, i, trace)
        decreases Placeholders(steps[i..]), |steps| - i
      {
        RemainingShrinks(Cfg(), trace, steps[i..]);
        var ok, longer := Turn(plan, steps, i);
        if !ok {
          return false, steps, i;
        }
        steps := longer;
        i := i + 1;
      }
      WalkDone(Cfg(), plan, steps, i, trace);
      finished := true;
    }
  }
}
