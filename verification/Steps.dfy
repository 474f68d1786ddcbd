/** Plan steps, their results, and the actions a step really performs. */
module Steps {
  import opened Options
  import opened Soundness
  import opened Scope

  datatype Class = Safe | Mutating | Destructive

  datatype Target = Target(
    context: Option<string>, namespace: Option<string>, resource: Option<string>,
    name: Option<string>, image: Option<string>, artifact: Option<string>)

  const NO_TARGET := Target(None, None, None, None, None, None)

  /** One kube command found in a step's command text. */
  datatype KubeCommand = KubeCommand(
    subcommand: Option<string>, namespaces: seq<string>, allNamespaces: bool,
    resource: Option<string>, deniedFlags: seq<string>)

  /** `skip`, `findingRef` and `novelRef` are empty when absent; `commands` is what the argv
  analysis finds in the command text. */
  datatype Step = Step(
    id: string, technique: string, adapter: string, verb: string, target: Target,
    commands: seq<KubeCommand>, classification: Class, skip: string, preconditions: seq<string>,
    findingRef: string, novelRef: string)

  datatype StepResult = StepResult(
    stepId: string, adapter: string, verb: string, classification: Class, verdict: Verdict,
    observed: Transcript, rollbackPerformed: Option<bool>, scopeReason: string, flag: Option<Flag>,
    findingRef: string, novelRef: string)

  /** Where novel probes are materialised mid-run. */
  predicate Placeholder(step: Step) {
    step.verb == "placeholder" && step.technique == "novel"
  }

  function BaseAction(step: Step): Action {
    var t := step.target;
    Action(step.adapter, step.verb, t.context, t.namespace, t.resource, t.name, t.image, t.artifact)
  }

  function Reach(step: Step, k: KubeCommand): seq<Option<string>> {
    if k.allNamespaces then [None]
    else if k.namespaces != [] then seq(|k.namespaces|, i requires 0 <= i < |k.namespaces| => Some(k.namespaces[i]))
    else [step.target.namespace]
  }

  function CommandAction(step: Step, k: KubeCommand, ns: Option<string>): Action {
    Action("k8s", if Given(k.subcommand) then k.subcommand.value else step.verb, step.target.context, ns,
           if Given(k.resource) then k.resource else step.target.resource,
           step.target.name, step.target.image, None)
  }

  function CommandActions(step: Step, k: KubeCommand): seq<Action> {
    seq(|Reach(step, k)|, i requires 0 <= i < |Reach(step, k)| => CommandAction(step, k, Reach(step, k)[i]))
  }

  function FlaggedCommands(step: Step): seq<KubeCommand> {
    if step.adapter == "k8s" then step.commands else []
  }

  ghost function ActionsUpTo(step: Step, n: nat): seq<Action>
    requires n <= |FlaggedCommands(step)|
  {
    if n == 0 then [BaseAction(step)]
    else ActionsUpTo(step, n - 1) + CommandActions(step, FlaggedCommands(step)[n - 1])
  }

  /** The declared action followed by one per namespace of every command. */
  ghost function AllActions(step: Step): seq<Action> {
    ActionsUpTo(step, |FlaggedCommands(step)|)
  }

  ghost predicate Overrides(step: Step) {
    exists i :: 0 <= i < |FlaggedCommands(step)| && FlaggedCommands(step)[i].deniedFlags != []
  }

  /** execute.py's `_step_actions`. */
  method StepActions(step: Step) returns (actions: seq<Action>, deny: bool)
    ensures deny <==> Overrides(step)
    ensures !deny ==> actions == AllActions(step)
  {
    actions := [BaseAction(step)];
    var commands := FlaggedCommands(step);
    for i := 0 to |commands|
      invariant actions == ActionsUpTo(step, i)
      invariant forall j :: 0 <= j < i ==> commands[j].deniedFlags == []
    {
      if commands[i].deniedFlags != [] {
        return actions, true;
      }
      var reach := Reach(step, commands[i]);
      ghost var before := actions;
      for j := 0 to |reach|
        invariant actions == before + CommandActions(step, commands[i])[..j]
      {
        actions := actions + [CommandAction(step, commands[i], reach[j])];
      }
      assert CommandActions(step, commands[i])[..|reach|] == CommandActions(step, commands[i]);
    }
    return actions, false;
  }

  // ---------- what scope is asked, by the fields of the step ----------

  ghost predicate Declares(step: Step, a: Action) {
    && a.adapter == step.adapter && a.verb == step.verb && a.context == step.target.context
    && a.namespace == step.target.namespace && a.resource == step.target.resource && a.name == step.target.name
    && a.image == step.target.image && a.artifact == step.target.artifact
  }

  /** The command's own subcommand, resource and namespaces go before what the step declares; `-A`
  stands for no namespace, whatever else is named. */
  ghost predicate AsksAbout(step: Step, k: KubeCommand, a: Action) {
    && a.adapter == "k8s" && a.context == step.target.context && a.name == step.target.name
    && a.image == step.target.image && a.artifact == None
    && a.verb == (if k.subcommand.Some? && k.subcommand.value != "" then k.subcommand.value else step.verb)
    && a.resource == (if k.resource.Some? && k.resource.value != "" then k.resource else step.target.resource)
    && (if k.allNamespaces then a.namespace == None
        else if k.namespaces == [] then a.namespace == step.target.namespace
        else a.namespace.Some? && a.namespace.value in k.namespaces)
  }

  lemma CommandAsks(step: Step, k: KubeCommand, a: Action)
    ensures a in CommandActions(step, k) <==> AsksAbout(step, k, a)
  {
    var actions := CommandActions(step, k);
    if AsksAbout(step, k, a) {
      if k.allNamespaces || k.namespaces == [] {
        assert actions[0] == a;
      } else {
        var i :| 0 <= i < |k.namespaces| && k.namespaces[i] == a.namespace.value;
        assert actions[i] == a;
      }
    }
    if i :| 0 <= i < |actions| && actions[i] == a {
      if !k.allNamespaces && k.namespaces != [] {
        assert a.namespace == Some(k.namespaces[i]);
      }
    }
  }

  lemma {:induction false} ActionsUpToExact(step: Step, n: nat, a: Action)
    requires n <= |FlaggedCommands(step)|
    ensures a in ActionsUpTo(step, n) <==>
      Declares(step, a) || exists i :: 0 <= i < n && AsksAbout(step, FlaggedCommands(step)[i], a)
  {
    if n > 0 {
      ActionsUpToExact(step, n - 1, a);
      CommandAsks(step, FlaggedCommands(step)[n - 1], a);
    }
  }

  /** Scope is asked about the declared action and, for a k8s step, about what each of its commands
  really does in each namespace it really names; about nothing else. */
  lemma ActionsExact(step: Step, a: Action)
    ensures a in AllActions(step) <==>
      Declares(step, a) || (step.adapter == "k8s" && exists i :: 0 <= i < |step.commands| && AsksAbout(step, step.commands[i], a))
  {
    ActionsUpToExact(step, |FlaggedCommands(step)|, a);
  }

  /** Every namespace a command really names is among the actions that scope is asked about, under
  the command's own subcommand and resource, whatever the step declared. */
  lemma CommandsAreChecked(step: Step, i: nat, ns: string)
    requires step.adapter == "k8s" && i < |step.commands|
    requires !step.commands[i].allNamespaces && ns in step.commands[i].namespaces
    ensures exists a :: a in AllActions(step) && a.namespace == Some(ns) && AsksAbout(step, step.commands[i], a)
  {
    var k, t := step.commands[i], step.target;
    var verb := if k.subcommand.Some? && k.subcommand.value != "" then k.subcommand.value else step.verb;
    var resource := if k.resource.Some? && k.resource.value != "" then k.resource else t.resource;
    var a := Action("k8s", verb, t.context, Some(ns), resource, t.name, t.image, None);
    assert AsksAbout(step, k, a);
    ActionsExact(step, a);
  }

  lemma OverridesExact(step: Step)
    ensures Overrides(step) <==>
      step.adapter == "k8s" && exists i :: 0 <= i < |step.commands| && step.commands[i].deniedFlags != []
  {
    if step.adapter == "k8s" {
      var commands := FlaggedCommands(step);
      assert forall i :: 0 <= i < |commands| ==> commands[i] == step.commands[i];
    }
  }
}
