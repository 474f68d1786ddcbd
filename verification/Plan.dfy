/** The whole of `build_plan`, and what a plan guarantees to the run that executes it. */
module Plan {
  import opened Options
  import opened Soundness
  import opened Scope
  import opened Steps
  import opened Sorting
  import opened Planner
  import opened Executor
  import opened ExecutorSafety
  import ChainGraph
  import ChainSearch
  import ChainSynthesis

  // ---------- the final pass ----------

  function ClassRank(c: Class): nat {
    match c
    case Safe => 0
    case Mutating => 1
    case Destructive => 2
  }

  predicate Exempt(s: Step) {
    s.technique == "skip" || s.verb == "noop" || s.verb == "placeholder" || s.verb == "glue"
  }

  const BLOCKED_REASON := "blocked_by_scope: "

  /** The plan-time authorities: the bound scope, the adapters' classification, the operator. */
  datatype Authority = Authority(bounds: Bounds, env: Surroundings, classify: Step -> Class, permitDestructive: bool)

  function Finalised(auth: Authority, s: Step): Step {
    if Exempt(s) then s
    else
      var cls := auth.classify(s);
      var s1 := if ClassRank(cls) >= ClassRank(s.classification) then s.(classification := cls) else s;
      var s2 := if s1.classification == Destructive && !auth.permitDestructive
                then s1.(skip := DESTRUCTIVE_REASON) else s1;
      if auth.bounds.Decide(auth.env, BaseAction(s)) != Allowed && s2.skip == ""
      then s2.(skip := BLOCKED_REASON) else s2
  }

  /** Skips, no-ops, placeholders and connectors are left alone by the final pass. */
  ghost predicate LeftAlone(s: Step) {
    s.technique == "skip" || s.verb in {"noop", "placeholder", "glue"}
  }

  /** The final class is the graver of the planner's and the adapter's. A destructive step without
  permission is to be skipped, whatever else; failing that a step keeps the skip it has; and failing
  that one whose declared action scope denies gets one. Nothing else moves. */
  lemma FinalisedExact(auth: Authority, s: Step)
    ensures LeftAlone(s) ==> Finalised(auth, s) == s
    ensures !LeftAlone(s) ==>
      var f, cls := Finalised(auth, s), auth.classify(s);
      && f.(classification := s.classification, skip := s.skip) == s
      && f.classification == (if Destructive in {s.classification, cls} then Destructive
                              else if Mutating in {s.classification, cls} then Mutating else Safe)
      && f.skip == (if f.classification == Destructive && !auth.permitDestructive then "destructive-not-permitted"
                    else if s.skip != "" then s.skip
                    else if exists a :: Declares(s, a) && auth.bounds.Decide(auth.env, a) != Allowed then "blocked_by_scope: "
                    else "")
  {
    DeclaredExact(s);
  }

  lemma DeclaredExact(s: Step)
    ensures forall a :: Declares(s, a) <==> a == BaseAction(s)
  {
  }

  ghost function FinalisedAll(auth: Authority, steps: seq<Step>): seq<Step> {
    seq(|steps|, i requires 0 <= i < |steps| => Finalised(auth, steps[i]))
  }

  method Finalise(auth: Authority, planned: seq<Step>) returns (steps: seq<Step>)
    ensures steps == FinalisedAll(auth, planned)
  {
    steps := planned;
    for i := 0 to |steps|
      invariant |steps| == |planned|
      invariant forall j :: 0 <= j < |steps| ==> steps[j] == if j < i then Finalised(auth, planned[j]) else planned[j]
    {
      var s := steps[i];
      if Exempt(s) {
        continue;
      }
      var cls := auth.classify(s);
      if ClassRank(cls) >= ClassRank(s.classification) {
        steps := steps[i := steps[i].(classification := cls)];
      }
      if steps[i].classification == Destructive && !auth.permitDestructive {
        steps := steps[i := steps[i].(skip := DESTRUCTIVE_REASON)];
      }
      var decision := auth.bounds.Decide(auth.env, BaseAction(steps[i]));
      if decision != Allowed && steps[i].skip == "" {
        steps := steps[i := steps[i].(skip := BLOCKED_REASON)];
      }
    }
  }

  lemma FinalisedKeepsNumbers(auth: Authority, planned: seq<Step>, nums: seq<nat>, next: nat)
    requires NumberedBy(planned, nums, next)
    ensures NumberedBy(FinalisedAll(auth, planned), nums, next)
  {
  }

  lemma FinalisedKeepsFoundations(auth: Authority, planned: seq<Step>)
    requires WellFounded(planned)
    ensures WellFounded(FinalisedAll(auth, planned))
  {
    var steps := FinalisedAll(auth, planned);
    forall i, p | 0 <= i < |steps| && p in steps[i].preconditions
      ensures Grounded(steps, i, p)
    {
      FinalisedStays(auth, planned[i]);
      assert Grounded(planned, i, p);
      var j :| 0 <= j < i && planned[j].id == p && planned[j].findingRef == planned[i].findingRef && IsAttempt(planned[j]);
      FinalisedStays(auth, planned[j]);
      assert steps[j] == Finalised(auth, planned[j]);
    }
  }

  lemma FinalisedStays(auth: Authority, s: Step)
    ensures var f := Finalised(auth, s);
      f.id == s.id && f.technique == s.technique && f.findingRef == s.findingRef && f.preconditions == s.preconditions
  {
  }

  // ---------- the sections of a plan ----------

  predicate PlanOrder(a: Candidate, b: Candidate) {
    var x, y := ChainGraph.SeverityRank(a.node.severity), ChainGraph.SeverityRank(b.node.severity);
    x < y || (x == y && a.confidence >= b.confidence)
  }

  ghost function ReplayShapes(order: seq<Candidate>): seq<Step> {
    if order == [] then [] else ReplayShapes(order[..|order| - 1]) + Section(order[|order| - 1])
  }

  ghost function GlueShapes(chains: seq<ChainSearch.Chain>, first: map<string, string>): seq<Step> {
    if chains == [] then []
    else GlueShapes(chains[..|chains| - 1], first) + GlueSteps(chains[|chains| - 1].findingIds, first)
  }

  lemma ReplaySnoc(start: seq<Step>, order: seq<Candidate>, i: nat)
    requires i < |order|
    ensures start + ReplayShapes(order[..i + 1]) == (start + ReplayShapes(order[..i])) + Section(order[i])
  {
    assert order[..i + 1][..i] == order[..i];
    Regroup(start, ReplayShapes(order[..i]), Section(order[i]));
  }

  lemma GlueSnoc(start: seq<Step>, chains: seq<ChainSearch.Chain>, first: map<string, string>, i: nat)
    requires i < |chains|
    ensures start + GlueShapes(chains[..i + 1], first)
         == (start + GlueShapes(chains[..i], first)) + GlueSteps(chains[i].findingIds, first)
  {
    assert chains[..i + 1][..i] == chains[..i];
    Regroup(start, GlueShapes(chains[..i], first), GlueSteps(chains[i].findingIds, first));
  }

  method AddAllReplays(p: Planner, order: seq<Candidate>)
    requires p.Valid()
    modifies p
    ensures p.Valid() && Shapes(p.steps) == Shapes(old(p.steps)) + ReplayShapes(order)
  {
    ghost var start := Shapes(p.steps);
    assert start + ReplayShapes([]) == start;
    for i := 0 to |order|
      invariant p.Valid() && Shapes(p.steps) == start + ReplayShapes(order[..i])
    {
      ReplaySnoc(start, order, i);
      p.AddReplay(order[i]);
    }
    assert order[..|order|] == order;
  }

  method AddAllGlue(p: Planner, chains: seq<ChainSearch.Chain>)
    requires p.Valid()
    modifies p
    ensures p.Valid() && p.findingStep == old(p.findingStep)
    ensures Shapes(p.steps) == Shapes(old(p.steps)) + GlueShapes(chains, p.findingStep)
  {
    ghost var start, first := Shapes(p.steps), p.findingStep;
    assert start + GlueShapes([], first) == start;
    for i := 0 to |chains|
      invariant p.Valid() && p.findingStep == first
      invariant Shapes(p.steps) == start + GlueShapes(chains[..i], first)
    {
      GlueSnoc(start, chains, first, i);
      p.AddGlue(chains[i].findingIds);
    }
    assert chains[..|chains|] == chains;
  }

  /** The defaults of `find_chains`, which the planner runs it with. */
  const MAX_LEN := 6
  const MAX_FINDINGS := 200
  const MAX_EDGES := 8
  const MAX_CHAINS := 100

  function Nodes(findings: seq<Candidate>): seq<ChainGraph.Finding> {
    seq(|findings|, i requires 0 <= i < |findings| => findings[i].node)
  }

  ghost function PlanShapes(recon: seq<Draft>, replayed: seq<Candidate>, chains: seq<ChainSearch.Chain>,
                            first: map<string, string>, novel: bool): seq<Step> {
    ((ReconSteps(recon) + ReplayShapes(replayed)) + GlueShapes(chains, first))
    + (if novel then [PlaceholderStep("")] else [])
  }

  /** The sections in order, before the final pass. */
  method Assemble(recon: seq<Draft>, replayed: seq<Candidate>, chains: seq<ChainSearch.Chain>, novel: bool)
    returns (planned: seq<Step>, ghost nums: seq<nat>, ghost next: nat)
    ensures State(planned, nums, next)
    ensures Shapes(planned) == PlanShapes(recon, replayed, chains, FirstAttempts(planned), novel)
  {
    var p := new Planner();
    ghost var a, b := ReconSteps(recon), ReplayShapes(replayed);
    assert Shapes(p.steps) == [] && [] + a == a;
    p.AddRecon(recon);
    AddAllReplays(p, replayed);
    assert Shapes(p.steps) == a + b;
    AddAllGlue(p, chains);
    ghost var c := GlueShapes(chains, p.findingStep);
    assert Shapes(p.steps) == (a + b) + c && ((a + b) + c) + [] == (a + b) + c;
    if novel {
      p.AddPlaceholder();
      assert Shapes(p.steps) == ((a + b) + c) + [PlaceholderStep("")];
    }
    assert c == GlueShapes(chains, FirstAttempts(p.steps));
    planned, nums, next := p.steps, p.nums, p.next;
  }

  /** plan.py's `build_plan`. */
  method BuildPlan(findings: seq<Candidate>, recon: seq<Draft>, tm: ChainGraph.ThreatModel, auth: Authority,
                   replay: bool, chained: bool, novel: bool)
    returns (steps: seq<Step>, chains: seq<ChainSearch.Chain>, ghost planned: seq<Step>, ghost order: seq<Candidate>,
             ghost nums: seq<nat>, ghost next: nat, ghost search: Option<ChainSynthesis.Synthesis>)
    ensures multiset(order) == multiset(findings) && SortedBy(order, PlanOrder)
    ensures forall x :: Peers(order, x, PlanOrder) == Peers(findings, x, PlanOrder)
    ensures Shapes(planned) == PlanShapes(recon, if replay then order else [], chains, FirstAttempts(planned), novel)
    ensures steps == FinalisedAll(auth, planned)
    ensures NumberedBy(steps, nums, next) && WellFounded(steps)
    ensures if chained then search.Some? && ChainSynthesis.Synthesised(
              Nodes(findings), tm, 6, 200, 8, 100, search.value, chains)
            else chains == []
  {
    var sorted := Sort(findings, PlanOrder);
    SortsStably(findings, PlanOrder);
    order := sorted;
    chains, search := [], None;
    if chained {
      var s;
      chains, s := ChainSynthesis.FindChains(Nodes(findings), tm, MAX_LEN, MAX_FINDINGS, MAX_EDGES, MAX_CHAINS);
      search := Some(s);
    }
    var draft;
    draft, nums, next := Assemble(recon, if replay then sorted else [], chains, novel);
    planned := draft;
    StateNumbers(planned, nums, next);
    StateGrounds(planned, nums, next);
    FinalisedKeepsNumbers(auth, planned, nums, next);
    FinalisedKeepsFoundations(auth, planned);
    steps := Finalise(auth, draft);
  }

  // ---------- what a plan guarantees ----------

  lemma NumberedIdsDiffer(steps: seq<Step>, nums: seq<nat>, next: nat)
    requires NumberedBy(steps, nums, next)
    ensures DistinctIds(steps)
  {
    forall i, j | 0 <= i < j < |steps|
      ensures steps[i].id != steps[j].id
    {
      if steps[i].id == steps[j].id {
        StepIdInjective(nums[i], nums[j]);
      }
    }
  }

  /** Every finding has its section somewhere in the replay part of the plan. */
  lemma {:induction false} EveryFindingPlanned(order: seq<Candidate>, f: Candidate) returns (a: seq<Step>, b: seq<Step>)
    requires f in order
    ensures ReplayShapes(order) == (a + Section(f)) + b
  {
    var init, last := order[..|order| - 1], order[|order| - 1];
    assert order == init + [last];
    if f == last {
      a, b := ReplayShapes(init), [];
      assert (a + Section(f)) + [] == a + Section(f);
    } else {
      var c;
      a, c := EveryFindingPlanned(init, f);
      b := c + Section(last);
      Regroup(a + Section(f), c, Section(last));
    }
  }

  /** No plan holds a precondition cycle: preconditions only point back. */
  lemma PlansHaveNoCycle(steps: seq<Step>, nums: seq<nat>, next: nat, cycle: seq<Step>)
    requires NumberedBy(steps, nums, next) && WellFounded(steps)
    requires forall s :: s in cycle ==> s in steps
    ensures !PreconditionCycle(cycle)
  {
    if PreconditionCycle(cycle) {
      NumberedIdsDiffer(steps, nums, next);
      assert cycle[0] in cycle;
      var i :| 0 <= i < |steps| && steps[i] == cycle[0];
      CycleDescends(steps, cycle, 0, i);
    }
  }

  lemma {:induction false} CycleDescends(steps: seq<Step>, cycle: seq<Step>, c: nat, i: nat)
    requires DistinctIds(steps) && WellFounded(steps) && PreconditionCycle(cycle)
    requires forall s :: s in cycle ==> s in steps
    requires c < |cycle| && i < |steps| && steps[i] == cycle[c]
    ensures false
    decreases i
  {
    var prev := if c == 0 then |cycle| - 1 else c - 1;
    assert cycle[prev].id in steps[i].preconditions;
    assert Grounded(steps, i, cycle[prev].id);
    var j :| 0 <= j < i && steps[j].id == cycle[prev].id;
    IdsIdentify(steps, steps[j], cycle[prev]);
    CycleDescends(steps, cycle, prev, j);
  }

  /** Plan then run: whatever is inserted on the way, no planned step that its adapter, or the
  planner, holds destructive reaches an adapter without permission, and none the plan skips does. */
  lemma PlannedRunsNeedPermission(cfg: Config, auth: Authority, planned: seq<Step>, i: nat)
    requires ProbesAreConcrete(cfg.world) && i < |planned| && !LeftAlone(planned[i])
    requires Executed(FinalisedAll(auth, planned)[i]) in Play(cfg, Unrolled(cfg, [], FinalisedAll(auth, planned)))
    ensures auth.classify(planned[i]) == Destructive || planned[i].classification == Destructive ==>
      cfg.permitDestructive && auth.permitDestructive
    ensures planned[i].skip == ""
    ensures forall a :: Declares(planned[i], a) ==> auth.bounds.Decide(auth.env, a) == Allowed
  {
    var steps := FinalisedAll(auth, planned);
    var final := Unrolled(cfg, [], steps);
    var t := Play(cfg, final);
    var k :| 0 <= k < |t| && t[k] == Executed(steps[i]);
    EveryRunIsGuarded(cfg, final);
    assert GuardedAt(cfg, t, k);
    assert steps[i] == Finalised(auth, planned[i]);
    FinalisedExact(auth, planned[i]);
  }

  /** No probe of the catalogue bears the id of a planned step. */
  ghost predicate ProbesHaveOwnIds(world: World, plan: seq<Step>) {
    forall rs, i, s :: 0 <= i < |world.probes(rs)| && s in plan ==> world.probes(rs)[i].id != s.id
  }

  /** In any run of a plan, a step that waits for its finding, as glue does, is executed only after an
  attempt at that finding was executed and recorded confirmed. */
  lemma GlueWaitsForItsFinding(cfg: Config, plan: seq<Step>, nums: seq<nat>, next: nat, i: nat, k: nat, p: string)
    returns (j: nat, r: nat)
    requires NumberedBy(plan, nums, next) && WellFounded(plan)
    requires ProbesAreConcrete(cfg.world) && ProbesHaveOwnIds(cfg.world, plan) && AnswersForItself(cfg.world)
    requires i < |plan| && p in plan[i].preconditions
    requires var t := Play(cfg, Unrolled(cfg, [], plan)); k < |t| && t[k] == Executed(plan[i])
    ensures var t := Play(cfg, Unrolled(cfg, [], plan));
      && j < r < k && t[j].Executed? && t[r].Recorded? && t[r].step == t[j].step
      && t[j].step in plan && IsAttempt(t[j].step) && t[j].step.findingRef == plan[i].findingRef
      && t[r].result.stepId == p && t[r].result.verdict == Confirmed
  {
    var final := Unrolled(cfg, [], plan);
    j, r := DispatchWaits(cfg, final, k, p);
    var s := Play(cfg, final)[j].step;
    assert Grounded(plan, i, p);
    var m :| 0 <= m < i && plan[m].id == p && plan[m].findingRef == plan[i].findingRef && IsAttempt(plan[m]);
    PlannedById(cfg, plan, s, plan[m]);
    NumberedIdsDiffer(plan, nums, next);
    IdsIdentify(plan, s, plan[m]);
  }

  lemma PlannedById(cfg: Config, plan: seq<Step>, s: Step, planned: Step)
    requires ProbesAreConcrete(cfg.world) && ProbesHaveOwnIds(cfg.world, plan)
    requires s in Unrolled(cfg, [], plan) && planned in plan && s.id == planned.id
    ensures s in plan
  {
    UnrolledSources(cfg, [], plan, s);
    if IsProbe(cfg, s) {
      ProbeIdsDiffer(cfg, plan, s, planned);
    }
  }

  lemma ProbeIdsDiffer(cfg: Config, plan: seq<Step>, probe: Step, planned: Step)
    requires ProbesHaveOwnIds(cfg.world, plan) && IsProbe(cfg, probe) && planned in plan
    ensures probe.id != planned.id
  {
    var rs, i :| 0 <= i < |cfg.world.probes(rs)| && ProbeFor(cfg, cfg.world.probes(rs)[i], probe);
    assert probe.id == cfg.world.probes(rs)[i].id;
  }
}
