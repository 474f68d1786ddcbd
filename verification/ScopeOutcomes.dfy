/** What the rules of engagement allow, read off the targets file, the merges and the action. */
module ScopeOutcomes {
  import opened Options
  import opened Globs
  import opened Collections
  import opened Scope
  import opened ScopeMerges

  // ---------- hard denies ----------

  /** Each field the rule sets and the action determines must match. */
  ghost predicate Fires(rule: OffLimit, a: Action) {
    && (rule.context.Some? && a.context.Some? ==> Glob(a.context.value, rule.context.value))
    && (rule.namespace.Some? && a.namespace.Some? ==> Glob(a.namespace.value, rule.namespace.value))
    && (rule.resource.Some? && a.resource.Some? ==> Glob(a.resource.value, rule.resource.value))
    && (rule.verb.Some? ==> Glob(a.verb, rule.verb.value))
    && (rule.name.Some? && a.name.Some? ==> Glob(a.name.value, rule.name.value))
    && (rule.image.Some? && a.image.Some? ==> Glob(a.image.value, rule.image.value))
  }

  ghost predicate Barred(f: TargetsFile, env: Surroundings, a: Action) {
    (f.expires.Some? && env.today > f.expires.value) || exists i :: 0 <= i < |f.offLimits| && Fires(f.offLimits[i], a)
  }

  lemma FiresExact(rule: OffLimit, a: Action)
    ensures rule.Matches(a) <==> Fires(rule, a)
  {
  }

  lemma BarredExact(f: TargetsFile, ms: seq<Merge>, env: Surroundings, a: Action)
    ensures var b := MergedAll(Loaded(f), ms);
      Barred(f, env, a) <==> (b.expires.Some? && env.today > b.expires.value) || b.OffLimits(a)
  {
    OtherwiseWidened(Loaded(f), ms);
    forall i | 0 <= i < |f.offLimits|
      ensures f.offLimits[i].Matches(a) <==> Fires(f.offLimits[i], a)
    {
      FiresExact(f.offLimits[i], a);
    }
  }

  // ---------- what only the file grants ----------

  /** A credential probe is allowed exactly for the one verb and a class the file names. */
  lemma CredentialOutcome(f: TargetsFile, ms: seq<Merge>, env: Surroundings, a: Action)
    requires a.adapter == "credential"
    ensures MergedAll(Loaded(f), ms).Decide(env, a) == Allowed <==>
      !Barred(f, env, a) && a.verb == "introspect" && a.resource.Some? && a.resource.value in f.probeClasses
  {
    BarredExact(f, ms, env, a);
    OtherwiseWidened(Loaded(f), ms);
  }

  /** Enumeration is allowed exactly for the one verb and an account or cluster the file lists as such. */
  lemma InventoryOutcome(f: TargetsFile, ms: seq<Merge>, env: Surroundings, a: Action)
    requires a.adapter == "inventory"
    ensures MergedAll(Loaded(f), ms).Decide(env, a) == Allowed <==>
      && !Barred(f, env, a) && a.verb == "enumerate" && a.name.Some?
      && ((a.resource == Some("aws_profile") && a.name.value in f.awsProfiles)
          || (a.resource == Some("cluster_context") && a.name.value in f.clusterContexts))
  {
    BarredExact(f, ms, env, a);
    OtherwiseWidened(Loaded(f), ms);
  }

  /** Without a targets file neither is ever allowed. */
  lemma NothingWithoutFile(ms: seq<Merge>, env: Surroundings, a: Action)
    requires a.adapter == "credential" || a.adapter == "inventory"
    ensures MergedAll(UNBOUND, ms).Decide(env, a) != Allowed
  {
    OtherwiseWidened(UNBOUND, ms);
  }

  lemma UnknownAdapterOutcome(f: TargetsFile, ms: seq<Merge>, env: Surroundings, a: Action)
    requires a.adapter !in {"k8s", "container", "credential", "inventory", "wasm"}
    ensures MergedAll(Loaded(f), ms).Decide(env, a) != Allowed
  {
  }

  // ---------- what merges may add to ----------

  function ContainersNamed(ms: seq<Merge>): set<string> {
    if ms == [] then {}
    else
      ContainersNamed(ms[..|ms| - 1]) +
      match ms[|ms| - 1]
      case MergeInline(contexts, namespaces, images, pods, containers, wasm) => Elements(containers)
      case MergeInferred(clusters, images, containers, wasm) => Elements(containers)
  }

  function WasmNamed(ms: seq<Merge>): set<string> {
    if ms == [] then {}
    else
      WasmNamed(ms[..|ms| - 1]) +
      match ms[|ms| - 1]
      case MergeInline(contexts, namespaces, images, pods, containers, wasm) => Elements(wasm)
      case MergeInferred(clusters, images, containers, wasm) => Elements(wasm)
  }

  lemma JoinedElements(have: seq<string>, more: seq<string>)
    ensures Elements(Joined(have, more)) == Elements(have) + Elements(more)
  {
    JoinedExact(have, more);
  }

  lemma AddedElements(have: seq<string>, more: seq<string>)
    ensures Elements(have + more) == Elements(have) + Elements(more)
  {
  }

  lemma ListsOnce(b: Bounds, m: Merge)
    ensures Elements(Merged(b, m).containers) == Elements(b.containers) + ContainersNamed([m])
    ensures Elements(Merged(b, m).wasmArtifacts) == Elements(b.wasmArtifacts) + WasmNamed([m])
  {
    assert [m][..0] == [];
    match m
    case MergeInline(contexts, namespaces, images, pods, containers, wasm) =>
      AddedElements(b.containers, containers);
      AddedElements(b.wasmArtifacts, wasm);
    case MergeInferred(clusters, images, containers, wasm) =>
      JoinedElements(b.containers, containers);
      JoinedElements(b.wasmArtifacts, wasm);
  }

  lemma {:induction false} ListsAfter(b: Bounds, ms: seq<Merge>)
    ensures Elements(MergedAll(b, ms).containers) == Elements(b.containers) + ContainersNamed(ms)
    ensures Elements(MergedAll(b, ms).wasmArtifacts) == Elements(b.wasmArtifacts) + WasmNamed(ms)
  {
    if ms != [] {
      var init, m := ms[..|ms| - 1], ms[|ms| - 1];
      ListsAfter(b, init);
      ListsOnce(MergedAll(b, init), m);
      assert [m][..0] == [];
      assert ContainersNamed(ms) == ContainersNamed(init) + ContainersNamed([m]);
      assert WasmNamed(ms) == WasmNamed(init) + WasmNamed([m]);
    }
  }

  ghost function ContainersIn(f: TargetsFile, ms: seq<Merge>): set<string> {
    (set ps, p | ps in f.containerPatterns && p in ps :: p) + ContainersNamed(ms)
  }

  ghost function ImagesAllowed(f: TargetsFile, ms: seq<Merge>): set<string> {
    Elements(f.images) + ImagesNamed(ms)
  }

  lemma {:induction false} FlattenedElements(ss: seq<seq<string>>, p: string)
    ensures p in Flattened(ss) <==> exists ps :: ps in ss && p in ps
  {
    if ss != [] {
      var init, last := ss[..|ss| - 1], ss[|ss| - 1];
      assert ss == init + [last];
      FlattenedElements(init, p);
    }
  }

  lemma ContainersAfter(f: TargetsFile, ms: seq<Merge>)
    ensures Elements(MergedAll(Loaded(f), ms).containers) == ContainersIn(f, ms)
  {
    ListsAfter(Loaded(f), ms);
    forall p
      ensures p in Loaded(f).containers <==> exists ps :: ps in f.containerPatterns && p in ps
    {
      FlattenedElements(f.containerPatterns, p);
    }
  }

  /** No image restriction, or an image that meets one. */
  ghost predicate ImageFits(f: TargetsFile, ms: seq<Merge>, a: Action) {
    a.image.Some? && a.image.value != "" && ImagesAllowed(f, ms) != {} ==>
      exists p :: p in ImagesAllowed(f, ms) && Glob(a.image.value, p)
  }

  lemma EmptyElements(s: seq<string>)
    ensures s == [] <==> Elements(s) == {}
  {
    if s != [] {
      assert s[0] in Elements(s);
    }
  }

  lemma ImageFitsExact(f: TargetsFile, ms: seq<Merge>, a: Action)
    ensures MergedAll(Loaded(f), ms).ImageOk(a) <==> ImageFits(f, ms, a)
  {
    var b := MergedAll(Loaded(f), ms);
    ImagesAfter(Loaded(f), ms);
    EmptyElements(b.images);
    assert forall p :: p in b.images <==> p in ImagesAllowed(f, ms);
  }

  /** A container step needs some pattern in scope, one that fits its name if it has one, and an image
  that fits. */
  lemma ContainerOutcome(f: TargetsFile, ms: seq<Merge>, env: Surroundings, a: Action)
    requires a.adapter == "container"
    ensures MergedAll(Loaded(f), ms).Decide(env, a) == Allowed <==>
      && !Barred(f, env, a) && ContainersIn(f, ms) != {}
      && (a.name.Some? && a.name.value != "" ==> exists p :: p in ContainersIn(f, ms) && Glob(a.name.value, p))
      && ImageFits(f, ms, a)
  {
    var b := MergedAll(Loaded(f), ms);
    BarredExact(f, ms, env, a);
    ImageFitsExact(f, ms, a);
    ContainersAfter(f, ms);
    EmptyElements(b.containers);
    assert forall p :: p in b.containers <==> p in ContainersIn(f, ms);
  }

  /** A wasm step needs some artifact in scope and, if it names one, one that matches it by pattern or
  resolves to the same path. */
  lemma WasmOutcome(f: TargetsFile, ms: seq<Merge>, env: Surroundings, a: Action)
    requires a.adapter == "wasm"
    ensures var artifacts := Elements(f.wasm) + WasmNamed(ms);
      MergedAll(Loaded(f), ms).Decide(env, a) == Allowed <==>
        && !Barred(f, env, a) && artifacts != {}
        && (a.artifact.Some? && a.artifact.value != "" ==>
              exists p :: p in artifacts && (Glob(a.artifact.value, p) || env.resolve(a.artifact.value) == env.resolve(p)))
  {
    var b := MergedAll(Loaded(f), ms);
    BarredExact(f, ms, env, a);
    ListsAfter(Loaded(f), ms);
    EmptyElements(b.wasmArtifacts);
    assert forall p :: p in b.wasmArtifacts <==> p in Elements(f.wasm) + WasmNamed(ms);
  }

  // ---------- clusters ----------

  /** The file's last rule for a context. */
  ghost function RuleFor(rules: seq<ClusterRule>, ctx: string): Option<ClusterRule> {
    if rules == [] then None
    else if rules[|rules| - 1].context == ctx then Some(rules[|rules| - 1])
    else RuleFor(rules[..|rules| - 1], ctx)
  }

  lemma {:induction false} RuledExact(rules: seq<ClusterRule>, ctx: string)
    ensures ctx in RuledClusters(rules) <==> RuleFor(rules, ctx).Some?
    ensures ctx in RuledClusters(rules) ==>
      var rule := RuleFor(rules, ctx).value;
      RuledClusters(rules)[ctx] == ClusterScope(ctx, rule.namespaces, rule.verbsDenied, Elements(rule.namespaces))
  {
    if rules != [] {
      RuledExact(rules[..|rules| - 1], ctx);
    }
  }

  /** A context answers for itself if the file or a merge names it; the current one answers otherwise. */
  ghost predicate Known(f: TargetsFile, ms: seq<Merge>, ctx: string) {
    RuleFor(f.clusters, ctx).Some? || Named(ms, ctx)
  }

  ghost function Answering(f: TargetsFile, ms: seq<Merge>, a: Action): Option<string> {
    if a.context.Some? && Known(f, ms, a.context.value) then a.context
    else if Known(f, ms, "__current__") then Some("__current__") else None
  }

  ghost function DeniedTo(f: TargetsFile, ctx: string): seq<string> {
    if RuleFor(f.clusters, ctx).Some? then RuleFor(f.clusters, ctx).value.verbsDenied else []
  }

  ghost function ExplicitFor(f: TargetsFile, ctx: string): set<string> {
    if RuleFor(f.clusters, ctx).Some? then Elements(RuleFor(f.clusters, ctx).value.namespaces) else {}
  }

  /** The namespaces of the control plane: five by name, and every one of the platform's own. */
  ghost predicate Platform(ns: string) {
    ns in {"kube-system", "kube-public", "kube-node-lease", "default", "openshift"} || "openshift-" <= ns
  }

  ghost predicate Reading(verb: string) {
    verb in {"get", "list", "watch", "describe", "logs", "top", "explain", "raw-read", "rbac-can-i", "can-i"}
  }

  /** The cluster-wide kinds that carry the control plane, in the singular, the plural or short. */
  ghost predicate Carries(resource: string) {
    || resource in {"nodes", "clusterroles", "clusterrolebindings", "customresourcedefinitions", "crds", "machineconfigs",
                    "machineconfigpools", "apiservices", "clusterversions", "clusteroperators", "namespaces",
                    "priorityclasses", "oauths", "validatingwebhookconfigurations", "mutatingwebhookconfigurations"}
    || resource in {"node", "clusterrole", "clusterrolebinding", "customresourcedefinition", "crd", "machineconfig",
                    "machineconfigpool", "apiservice", "clusterversion", "clusteroperator", "namespace", "ns",
                    "priorityclass", "oauth"}
  }

  lemma {:induction false} HeadMatches(s: string, head: string, rest: string)
    requires Literal(head) && Glob(s, head + rest)
    ensures head <= s
  {
    if head != [] {
      assert (head + rest)[0] == head[0] && (head + rest)[1..] == head[1..] + rest;
      HeadMatches(s[1..], head[1..], rest);
      assert s == [s[0]] + s[1..] && head == [head[0]] + head[1..];
    }
  }

  lemma PlatformPattern(p: string, ns: string)
    requires |p| >= 10 && p[..10] == "openshift-" && Glob(ns, p)
    ensures "openshift-" <= ns
  {
    assert p == "openshift-" + p[10..];
    HeadMatches(ns, "openshift-", p[10..]);
  }

  lemma PatternsByPlace(i: nat)
    requires i < |CONTROL_PLANE_NS_PATTERNS|
    ensures var p := CONTROL_PLANE_NS_PATTERNS[i];
      if i < 5 then Literal(p) && p == ["kube-system", "kube-public", "kube-node-lease", "default", "openshift"][i]
      else |p| >= 10 && p[..10] == "openshift-"
    ensures |CONTROL_PLANE_NS_PATTERNS| > 5 && CONTROL_PLANE_NS_PATTERNS[5] == "openshift-" + "*"
  {
  }

  lemma ControlPlaneIsPlatform(ns: string)
    requires ControlPlaneNs(ns)
    ensures Platform(ns)
  {
    var patterns := CONTROL_PLANE_NS_PATTERNS;
    var i :| 0 <= i < |patterns| && Glob(ns, patterns[i]);
    PatternsByPlace(i);
    if i < 5 {
      LiteralMatchesItself(ns, patterns[i]);
    } else {
      PlatformPattern(patterns[i], ns);
    }
  }

  lemma PlatformIsControlPlane(ns: string)
    requires Platform(ns)
    ensures ControlPlaneNs(ns)
  {
    var patterns := CONTROL_PLANE_NS_PATTERNS;
    NamedPlaces();
    PatternsByPlace(5);
    if "openshift-" <= ns {
      PrefixPattern(ns, "openshift-");
      assert patterns[5] in patterns && Glob(ns, patterns[5]);
    } else {
      var i :| 0 <= i < 5 && ns == patterns[i];
      PatternsByPlace(i);
      LiteralMatchesItself(ns, patterns[i]);
    }
  }

  lemma PlatformExact(ns: string)
    ensures ControlPlaneNs(ns) <==> Platform(ns)
  {
    if ControlPlaneNs(ns) {
      ControlPlaneIsPlatform(ns);
    }
    if Platform(ns) {
      PlatformIsControlPlane(ns);
    }
  }

  lemma NamedPlaces()
    ensures var patterns := CONTROL_PLANE_NS_PATTERNS;
      && |patterns| > 5 && patterns[0] == "kube-system" && patterns[1] == "kube-public"
      && patterns[2] == "kube-node-lease" && patterns[3] == "default" && patterns[4] == "openshift"
  {
  }

  lemma WritesExact(a: Action)
    ensures ControlPlaneWrite(a) <==> a.resource.Some? && Carries(a.resource.value) && !Reading(a.verb)
  {
  }

  /** The lock applies to a control-plane namespace, or without one to a write on a control-plane resource. */
  ghost predicate Locks(a: Action) {
    if a.namespace.Some? && a.namespace.value != "" then Platform(a.namespace.value)
    else a.resource.Some? && Carries(a.resource.value) && !Reading(a.verb)
  }

  ghost predicate Unlocks(explicitly: set<string>, a: Action) {
    if a.namespace.Some? && a.namespace.value != "" then exists p :: p in explicitly && Glob(a.namespace.value, p)
    else "*" in explicitly
  }

  ghost predicate Within(names: set<string>, a: Action) {
    match a.namespace
    case None => "*" in names
    case Some(n) => exists p :: p in names && Glob(n, p)
  }

  lemma AnsweringEntry(f: TargetsFile, ms: seq<Merge>, a: Action)
    ensures var entry := MergedAll(Loaded(f), ms).Lookup(a.context);
      && (entry.Some? <==> Answering(f, ms, a).Some?)
      && (entry.Some? ==>
            var ctx := Answering(f, ms, a).value;
            && entry.value.verbsDenied == DeniedTo(f, ctx) && entry.value.explicitNamespaces == ExplicitFor(f, ctx)
            && Elements(entry.value.namespaces) == ExplicitFor(f, ctx) + NamespacesNamed(ms, ctx))
  {
    EntryFor(f, ms, CURRENT);
    if a.context.Some? {
      EntryFor(f, ms, a.context.value);
    }
  }

  lemma EntryFor(f: TargetsFile, ms: seq<Merge>, ctx: string)
    ensures var b := MergedAll(Loaded(f), ms);
      && (ctx in b.clusters <==> Known(f, ms, ctx))
      && (ctx in b.clusters ==>
            && b.clusters[ctx].verbsDenied == DeniedTo(f, ctx) && b.clusters[ctx].explicitNamespaces == ExplicitFor(f, ctx)
            && Elements(b.clusters[ctx].namespaces) == ExplicitFor(f, ctx) + NamespacesNamed(ms, ctx))
  {
    RuledExact(f.clusters, ctx);
    EntriesAfter(Loaded(f), ms, ctx);
    MergesWiden(Loaded(f), ms);
    assert Elements<string>([]) == {};
  }

  /** A cluster action needs an entry that answers for its context, does not deny its verb and holds a
  pattern for its namespace; explicit namespaces of the file where the lock applies; and an image that
  fits. */
  lemma K8sOutcome(f: TargetsFile, ms: seq<Merge>, env: Surroundings, a: Action)
    requires a.adapter == "k8s"
    ensures MergedAll(Loaded(f), ms).Decide(env, a) == Allowed <==>
      && !Barred(f, env, a) && Answering(f, ms, a).Some?
      && var ctx := Answering(f, ms, a).value;
         && a.verb !in DeniedTo(f, ctx)
         && Within(ExplicitFor(f, ctx) + NamespacesNamed(ms, ctx), a)
         && (Locks(a) ==> Unlocks(ExplicitFor(f, ctx), a))
         && ImageFits(f, ms, a)
  {
    var b := MergedAll(Loaded(f), ms);
    BarredExact(f, ms, env, a);
    ImageFitsExact(f, ms, a);
    AnsweringEntry(f, ms, a);
    if b.Lookup(a.context).Some? {
      LockOutcome(b, a);
      WithinExact(b.Lookup(a.context).value, a);
    }
  }

  lemma LockOutcome(b: Bounds, a: Action)
    requires a.adapter == "k8s" && b.Lookup(a.context).Some?
    ensures b.ControlPlaneLocked(a) == None <==> (Locks(a) ==> Unlocks(b.Lookup(a.context).value.explicitNamespaces, a))
  {
    WritesExact(a);
    if a.namespace.Some? {
      PlatformExact(a.namespace.value);
    }
  }

  lemma WithinExact(cs: ClusterScope, a: Action)
    ensures cs.NsAllowed(a.namespace) <==> Within(Elements(cs.namespaces), a)
  {
  }

  /** What an inline merge names: the contexts given, a blank one or none but a namespace standing for
  the current one. */
  lemma InlineNames(contexts: seq<string>, namespaces: seq<string>, images: seq<string>, pods: seq<string>,
                    containers: seq<string>, wasm: seq<string>, ctx: string)
    ensures Names(MergeInline(contexts, namespaces, images, pods, containers, wasm), ctx) <==>
      if contexts == [] then namespaces != [] && ctx == "__current__"
      else exists c :: c in contexts && ctx == (if c == "" then "__current__" else c)
  {
    var keys := InlineKeys(contexts, namespaces);
    if contexts != [] {
      if c :| c in contexts && ctx == (if c == "" then CURRENT else c) {
        var i :| 0 <= i < |contexts| && contexts[i] == c;
        assert keys[i] == ctx;
      }
      if i :| 0 <= i < |keys| && keys[i] == ctx {
        assert contexts[i] in contexts;
      }
    }
  }
}
