/** What an allowed action needs to stay allowed through merges. */
module ScopeReach {
  import opened Options
  import opened Globs
  import opened Collections
  import opened Scope
  import opened ScopeMerges

  ghost predicate Grants(names: set<string>, ns: Option<string>) {
    match ns
    case None => "*" in names
    case Some(n) => exists p :: p in names && Glob(n, p)
  }

  /** A shadowed context keeps an action only by what the merges themselves grant it, and loses any
  explicit coverage. */
  ghost predicate KeepsContext(b: Bounds, ms: seq<Merge>, a: Action) {
    Shadowed(b, ms, a.context) ==>
      (TouchesControlPlane(a) ==> Overlooked(a)) && Grants(NamespacesNamed(ms, a.context.value), a.namespace)
  }

  /** Images named by merges restrict a scope that restricted none. */
  ghost predicate KeepsImage(b: Bounds, ms: seq<Merge>, a: Action) {
    Given(a.image) && b.images == [] ==>
      ImagesNamed(ms) == {} || exists p :: p in ImagesNamed(ms) && Glob(a.image.value, p)
  }

  /** Everything here can be read off the scope, the merges to come and the action. */
  ghost predicate Keeps(b: Bounds, ms: seq<Merge>, a: Action) {
    && (a.adapter == "k8s" ==> KeepsContext(b, ms, a))
    && (a.adapter == "k8s" || a.adapter == "container" ==> KeepsImage(b, ms, a))
  }

  lemma GlobAnyMonotone(s: string, ps: seq<string>, qs: seq<string>)
    requires ps <= qs && GlobAny(s, ps)
    ensures GlobAny(s, qs)
  {
    var p :| p in ps && Glob(s, p);
    assert p in qs;
  }

  lemma GrantsAllow(cs: ClusterScope, ns: Option<string>)
    ensures cs.NsAllowed(ns) <==> Grants(Elements(cs.namespaces), ns)
  {
  }

  lemma ImageExact(b: Bounds, ms: seq<Merge>, a: Action)
    requires b.ImageOk(a)
    ensures MergedAll(b, ms).ImageOk(a) <==> KeepsImage(b, ms, a)
  {
    var b' := MergedAll(b, ms);
    OtherwiseWidened(b, ms);
    ImagesAfter(b, ms);
    assert b'.images == [] <==> Elements(b'.images) == {} by {
      if b'.images != [] {
        assert b'.images[0] in Elements(b'.images);
      }
    }
    if Given(a.image) && b.images != [] {
      GlobAnyMonotone(a.image.value, b.images, b'.images);
    }
    if Given(a.image) && b.images == [] {
      assert Elements(b'.images) == ImagesNamed(ms);
      assert GlobAny(a.image.value, b'.images) <==> exists p :: p in ImagesNamed(ms) && Glob(a.image.value, p);
    }
  }

  lemma LockKept(b: Bounds, ms: seq<Merge>, a: Action)
    requires b.ControlPlaneLocked(a) == None
    ensures MergedAll(b, ms).ControlPlaneLocked(a) == None <==>
      (Shadowed(b, ms, a.context) && TouchesControlPlane(a) ==> Overlooked(a))
  {
    LockExact(b, a);
    LockExact(MergedAll(b, ms), a);
    ExplicitCoverageExact(b, ms, a);
  }

  lemma K8sExact(b: Bounds, ms: seq<Merge>, a: Action)
    requires b.DecideK8s(a) == Allowed
    ensures MergedAll(b, ms).DecideK8s(a) == Allowed <==>
      && (Shadowed(b, ms, a.context) ==> Grants(NamespacesNamed(ms, a.context.value), a.namespace))
      && KeepsImage(b, ms, a)
  {
    LookupAfter(b, ms, a.context);
    ImageExact(b, ms, a);
    var before, after := b.Lookup(a.context).value, MergedAll(b, ms).Lookup(a.context).value;
    if Shadowed(b, ms, a.context) {
      GrantsAllow(after, a.namespace);
    } else if a.namespace.Some? {
      GlobAnyMonotone(a.namespace.value, before.namespaces, after.namespaces);
    }
  }

  lemma ContainerExact(b: Bounds, ms: seq<Merge>, a: Action)
    requires b.DecideContainer(a) == Allowed
    ensures MergedAll(b, ms).DecideContainer(a) == Allowed <==> KeepsImage(b, ms, a)
  {
    OtherwiseWidened(b, ms);
    ImageExact(b, ms, a);
    if Given(a.name) {
      GlobAnyMonotone(a.name.value, b.containers, MergedAll(b, ms).containers);
    }
  }

  lemma WasmKept(b: Bounds, ms: seq<Merge>, env: Surroundings, a: Action)
    requires b.DecideWasm(env, a) == Allowed
    ensures MergedAll(b, ms).DecideWasm(env, a) == Allowed
  {
    OtherwiseWidened(b, ms);
  }

  /** What an allowed action needs to be allowed still after any merges, and no more: merges can take
  it away only by shadowing its context or by naming images where none were named. */
  lemma AllowedStaysExact(b: Bounds, ms: seq<Merge>, env: Surroundings, a: Action)
    requires b.Decide(env, a) == Allowed
    ensures MergedAll(b, ms).Decide(env, a) == Allowed <==> Keeps(b, ms, a)
  {
    OtherwiseWidened(b, ms);
    assert MergedAll(b, ms).OffLimits(a) == b.OffLimits(a);
    LockKept(b, ms, a);
    if a.adapter == "k8s" {
      K8sExact(b, ms, a);
    } else if a.adapter == "container" {
      ContainerExact(b, ms, a);
    } else if a.adapter == "wasm" {
      WasmKept(b, ms, env, a);
    }
  }

  const PINNED := MergeInline([], [], ["registry/operator:*"], [], [], [])

  function Exec(image: string): Action {
    Action("k8s", "exec", None, Some("team-a"), None, None, Some(image), None)
  }

  /** Merges withdraw by image too: naming one image closes a scope that took any. */
  lemma NamingAnImageRestricts(env: Surroundings)
    ensures CurrentOnly([]).Decide(env, Exec("other/tool:1")) == Allowed
    ensures MergedAll(CurrentOnly([]), [PINNED]).Decide(env, Exec("other/tool:1")) == Denied(ImageOut)
  {
    var b, a := CurrentOnly([]), Exec("other/tool:1");
    TeamIsOrdinary();
    StarMatchesAll("team-a");
    assert ["*"][0] == "*";
    LockExact(b, a);
    assert b.Lookup(a.context) == Some(ClusterScope(CURRENT, ["*"], [], {}));
    var b' := MergedAll(b, [PINNED]);
    assert [PINNED][..0] == [] && MergedAll(b, []) == b;
    assert InlineKeys([], []) == [] && Extended(b.clusters, [], []) == b.clusters;
    assert b'.clusters == b.clusters && b'.images == ["registry/operator:*"];
    LockExact(b', a);
    assert "other/tool:1"[0] == 'o' && "registry/operator:*"[0] == 'r';
    assert !Glob("other/tool:1", "registry/operator:*");
  }
}
