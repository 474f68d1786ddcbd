/** Scope binding and enforcement of scope.py.

`Bounds` is the state of a scope as a value, with the decision function on it; the class `Scope`
holds the same fields and is changed in place by the three binding modes. */
module Scope {
  import opened Options
  import opened Globs

  // ---------- entities ----------

  datatype Action = Action(
    adapter: string, verb: string, context: Option<string>, namespace: Option<string>,
    resource: Option<string>, name: Option<string>, image: Option<string>, artifact: Option<string>)

  datatype ClusterScope = ClusterScope(
    context: string, namespaces: seq<string>, verbsDenied: seq<string>, explicitNamespaces: set<string>)
  {
    /** No namespace means cluster-wide reach, which only a literal "*" grant gives. */
    predicate NsAllowed(ns: Option<string>) {
      match ns
      case None => "*" in namespaces
      case Some(n) => GlobAny(n, namespaces)
    }
  }

  /** A hard-deny rule; a field left out matches everything, and so does an undetermined value. */
  datatype OffLimit = OffLimit(
    context: Option<string>, namespace: Option<string>, resource: Option<string>,
    verb: Option<string>, name: Option<string>, image: Option<string>)
  {
    static predicate FieldMatches(rule: Option<string>, val: Option<string>) {
      rule.None? || val.None? || Glob(val.value, rule.value)
    }

    predicate Matches(a: Action) {
      && FieldMatches(context, a.context)
      && FieldMatches(namespace, a.namespace)
      && FieldMatches(resource, a.resource)
      && FieldMatches(verb, Some(a.verb))
      && FieldMatches(name, a.name)
      && FieldMatches(image, a.image)
    }
  }

  datatype Mode = Explicit | Inline | Inferred

  datatype Denial =
    | Expired | HitsOffLimit | ControlPlaneResource | ControlPlaneNamespace
    | UnknownContext | VerbDenied | NamespaceOut | ImageOut
    | NoContainers | ContainerOut
    | NeedsExplicit | WrongVerb | ClassNotGranted | UnknownInventory
    | NoArtifacts | ArtifactOut | UnknownAdapter

  datatype Decision = Allowed | Denied(why: Denial)

  /** The clock and the file system, as the decision sees them. */
  datatype Surroundings = Surroundings(today: int, resolve: string -> string)

  const CURRENT := "__current__"

  const CONTROL_PLANE_NS_PATTERNS: seq<string> := [
    "kube-system", "kube-public", "kube-node-lease", "default", "openshift", "openshift-*",
    "openshift-etcd", "openshift-etcd-operator", "openshift-kube-apiserver*",
    "openshift-kube-controller-manager*", "openshift-kube-scheduler*", "openshift-apiserver*",
    "openshift-authentication*", "openshift-oauth-apiserver", "openshift-cluster-version",
    "openshift-machine-api", "openshift-machine-config-operator"
  ]

  const CONTROL_PLANE_CLUSTER_RESOURCES: set<string> := {
    "nodes", "node", "clusterroles", "clusterrole", "clusterrolebindings", "clusterrolebinding",
    "customresourcedefinitions", "customresourcedefinition", "crds", "crd", "machineconfigs",
    "machineconfig", "machineconfigpools", "machineconfigpool", "apiservices", "apiservice",
    "clusterversions", "clusterversion", "clusteroperators", "clusteroperator", "namespaces",
    "namespace", "ns", "priorityclasses", "priorityclass", "oauths", "oauth",
    "validatingwebhookconfigurations", "mutatingwebhookconfigurations"
  }

  const READONLY_VERBS: set<string> := {
    "get", "list", "watch", "describe", "logs", "top", "explain", "raw-read", "rbac-can-i", "can-i"
  }

  /** Python truthiness of an optional string. */
  predicate Given(o: Option<string>) {
    o.Some? && o.value != ""
  }

  predicate ControlPlaneNs(ns: string) {
    GlobAny(ns, CONTROL_PLANE_NS_PATTERNS)
  }

  /** A write on a cluster-wide resource that carries the control plane. */
  predicate ControlPlaneWrite(a: Action) {
    a.resource.Some? && a.resource.value in CONTROL_PLANE_CLUSTER_RESOURCES && a.verb !in READONLY_VERBS
  }

  datatype Bounds = Bounds(
    expires: Option<int>, clusters: map<string, ClusterScope>, containers: seq<string>,
    wasmArtifacts: seq<string>, images: seq<string>, offLimits: seq<OffLimit>, modes: set<Mode>,
    probeClasses: set<string>, awsProfiles: set<string>, clusterContexts: set<string>)
  {
    /** A context without an entry of its own falls back to the current one. */
    function Lookup(ctx: Option<string>): Option<ClusterScope> {
      if ctx.Some? && ctx.value in clusters then Some(clusters[ctx.value])
      else if CURRENT in clusters then Some(clusters[CURRENT])
      else None
    }

    function ControlPlaneLocked(a: Action): Option<Denial> {
      if a.adapter != "k8s" then None
      else
        var cs := Lookup(a.context);
        if !Given(a.namespace) then
          if ControlPlaneWrite(a) && !(cs.Some? && "*" in cs.value.explicitNamespaces)
          then Some(ControlPlaneResource) else None
        else if !ControlPlaneNs(a.namespace.value) then None
        else if cs.Some? && (exists p :: p in cs.value.explicitNamespaces && Glob(a.namespace.value, p)) then None
        else Some(ControlPlaneNamespace)
    }

    predicate ImageOk(a: Action) {
      !Given(a.image) || images == [] || GlobAny(a.image.value, images)
    }

    function DecideK8s(a: Action): Decision {
      var cs := Lookup(a.context);
      if cs.None? then Denied(UnknownContext)
      else if a.verb in cs.value.verbsDenied then Denied(VerbDenied)
      else if !cs.value.NsAllowed(a.namespace) then Denied(NamespaceOut)
      else if !ImageOk(a) then Denied(ImageOut)
      else Allowed
    }

    function DecideContainer(a: Action): Decision {
      if containers == [] then Denied(NoContainers)
      else if Given(a.name) && !GlobAny(a.name.value, containers) then Denied(ContainerOut)
      else if !ImageOk(a) then Denied(ImageOut)
      else Allowed
    }

    function DecideCredential(a: Action): Decision {
      if Explicit !in modes then Denied(NeedsExplicit)
      else if a.verb != "introspect" then Denied(WrongVerb)
      else if a.resource.None? || a.resource.value !in probeClasses then Denied(ClassNotGranted)
      else Allowed
    }

    function DecideInventory(a: Action): Decision {
      if Explicit !in modes then Denied(NeedsExplicit)
      else if a.verb != "enumerate" then Denied(WrongVerb)
      else if a.resource == Some("aws_profile") then
        if a.name.None? || a.name.value !in awsProfiles then Denied(ClassNotGranted) else Allowed
      else if a.resource == Some("cluster_context") then
        if a.name.None? || a.name.value !in clusterContexts then Denied(ClassNotGranted) else Allowed
      else Denied(UnknownInventory)
    }

    function DecideWasm(env: Surroundings, a: Action): Decision {
      if wasmArtifacts == [] then Denied(NoArtifacts)
      else if Given(a.artifact) &&
              !(exists p :: p in wasmArtifacts &&
                 (Glob(a.artifact.value, p) || env.resolve(a.artifact.value) == env.resolve(p)))
      then Denied(ArtifactOut)
      else Allowed
    }

    function ByAdapter(env: Surroundings, a: Action): Decision {
      if a.adapter == "k8s" then DecideK8s(a)
      else if a.adapter == "container" then DecideContainer(a)
      else if a.adapter == "credential" then DecideCredential(a)
      else if a.adapter == "inventory" then DecideInventory(a)
      else if a.adapter == "wasm" then DecideWasm(env, a)
      else Denied(UnknownAdapter)
    }

    predicate OffLimits(a: Action) {
      exists i :: 0 <= i < |offLimits| && offLimits[i].Matches(a)
    }

    /** scope.py's `is_in_scope`: expiry, hard denies, the control-plane lock, then the adapter. */
    function Decide(env: Surroundings, a: Action): Decision {
      if expires.Some? && env.today > expires.value then Denied(Expired)
      else if OffLimits(a) then Denied(HitsOffLimit)
      else
        var lock := ControlPlaneLocked(a);
        if lock.Some? then Denied(lock.value) else ByAdapter(env, a)
    }

    /** What the rules of engagement themselves say about control-plane reach. */
    ghost predicate ExplicitlyCovers(a: Action) {
      var cs := Lookup(a.context);
      cs.Some? &&
      (exists p :: p in cs.value.explicitNamespaces &&
                   (if Given(a.namespace) then Glob(a.namespace.value, p) else p == "*"))
    }
  }

  /** An action whose reach is the control plane: without a namespace, so in all of them; in one of its
  own; or a write on a cluster-wide resource that carries it, whatever namespace the command names. */
  ghost predicate TouchesControlPlane(a: Action) {
    a.adapter == "k8s" && (!Given(a.namespace) || ControlPlaneNs(a.namespace.value) || ControlPlaneWrite(a))
  }

  /** What the lock looks past. It consults the resource only when no namespace is given, and then
  nothing else: not a write on a cluster-wide resource under an ordinary namespace, and not what
  reaches every namespace at once. */
  ghost predicate Overlooked(a: Action) {
    a.adapter == "k8s" &&
    if Given(a.namespace) then ControlPlaneWrite(a) && !ControlPlaneNs(a.namespace.value) else !ControlPlaneWrite(a)
  }

  lemma LockExact(b: Bounds, a: Action)
    ensures b.ControlPlaneLocked(a) == None <==> !TouchesControlPlane(a) || Overlooked(a) || b.ExplicitlyCovers(a)
  {
    if TouchesControlPlane(a) && !Given(a.namespace) && b.ExplicitlyCovers(a) {
      assert "*" in b.Lookup(a.context).value.explicitNamespaces;
    }
  }

  /** An action is allowed exactly when the engagement is live, no off-limits rule fires, control-plane
  reach is covered by an explicit entry or overlooked, and its adapter's own rule allows it. */
  lemma DecisionExact(b: Bounds, env: Surroundings, a: Action)
    ensures b.Decide(env, a) == Allowed <==>
      && (b.expires.Some? ==> env.today <= b.expires.value)
      && (forall i :: 0 <= i < |b.offLimits| ==> !b.offLimits[i].Matches(a))
      && (TouchesControlPlane(a) ==> b.ExplicitlyCovers(a) || Overlooked(a))
      && b.ByAdapter(env, a) == Allowed
  {
    LockExact(b, a);
  }

  // ---------- merges on values ----------

  datatype Merge =
    | MergeInline(contexts: seq<string>, namespaces: seq<string>, images: seq<string>,
                  pods: seq<string>, containers: seq<string>, wasm: seq<string>)
    | MergeInferred(clusters: map<string, seq<string>>, images: seq<string>,
                    containers: seq<string>, wasm: seq<string>)

  function EntryOr(clusters: map<string, ClusterScope>, key: string): ClusterScope {
    if key in clusters then clusters[key] else ClusterScope(key, [], [], {})
  }

  function InlineKeys(contexts: seq<string>, namespaces: seq<string>): seq<string> {
    if contexts == [] then (if namespaces == [] then [] else [CURRENT])
    else seq(|contexts|, i requires 0 <= i < |contexts| => if contexts[i] == "" then CURRENT else contexts[i])
  }

  /** Each key in turn has the namespaces appended to its entry. */
  function Extended(clusters: map<string, ClusterScope>, keys: seq<string>, namespaces: seq<string>): map<string, ClusterScope> {
    if keys == [] then clusters
    else
      var before := Extended(clusters, keys[..|keys| - 1], namespaces);
      var key := keys[|keys| - 1];
      var cs := EntryOr(before, key);
      before[key := cs.(namespaces := cs.namespaces + namespaces)]
  }

  /** `have`, then every element of `more` it lacks, each once, in order. */
  function Joined(have: seq<string>, more: seq<string>): seq<string> {
    if more == [] then have
    else
      var before := Joined(have, more[..|more| - 1]);
      var x := more[|more| - 1];
      if x in before then before else before + [x]
  }

  function InferredClusters(clusters: map<string, ClusterScope>, inferred: map<string, seq<string>>): map<string, ClusterScope> {
    map k | k in clusters.Keys + inferred.Keys ::
      var cs := EntryOr(clusters, k);
      if k in inferred then cs.(namespaces := Joined(cs.namespaces, inferred[k])) else cs
  }

  function Merged(b: Bounds, m: Merge): Bounds {
    match m
    case MergeInline(contexts, namespaces, images, pods, containers, wasm) =>
      b.(modes := if contexts + namespaces + images + pods + containers + wasm != [] then b.modes + {Inline} else b.modes,
         clusters := Extended(b.clusters, InlineKeys(contexts, namespaces), namespaces),
         images := b.images + images,
         containers := b.containers + containers,
         wasmArtifacts := b.wasmArtifacts + wasm)
    case MergeInferred(clusters, images, containers, wasm) =>
      b.(modes := b.modes + {Inferred},
         clusters := InferredClusters(b.clusters, clusters),
         images := Joined(b.images, images),
         containers := Joined(b.containers, containers),
         wasmArtifacts := Joined(b.wasmArtifacts, wasm))
  }

  function MergedAll(b: Bounds, ms: seq<Merge>): Bounds {
    if ms == [] then b else Merged(MergedAll(b, ms[..|ms| - 1]), ms[|ms| - 1])
  }

  // ---------- the mutable scope ----------

  datatype ClusterRule = ClusterRule(context: string, namespaces: seq<string>, verbsDenied: seq<string>)

  /** A parsed targets file. */
  datatype TargetsFile = TargetsFile(
    expires: Option<int>, clusters: seq<ClusterRule>, containerPatterns: seq<seq<string>>, wasm: seq<string>,
    images: seq<string>, offLimits: seq<OffLimit>, probeClasses: seq<string>,
    awsProfiles: seq<string>, clusterContexts: seq<string>)

  /** Of two rules for one context the later stays; each rule's own namespaces are its explicit ones. */
  ghost function RuledClusters(rules: seq<ClusterRule>): map<string, ClusterScope> {
    if rules == [] then map[]
    else
      var c := rules[|rules| - 1];
      RuledClusters(rules[..|rules| - 1])[c.context :=
        ClusterScope(c.context, c.namespaces, c.verbsDenied, set n | n in c.namespaces)]
  }

  ghost function Flattened(ss: seq<seq<string>>): seq<string> {
    if ss == [] then [] else Flattened(ss[..|ss| - 1]) + ss[|ss| - 1]
  }

  ghost function Loaded(f: TargetsFile): Bounds {
    Bounds(f.expires, RuledClusters(f.clusters), Flattened(f.containerPatterns), f.wasm, f.images, f.offLimits,
           {Explicit}, set c | c in f.probeClasses, set p | p in f.awsProfiles, set c | c in f.clusterContexts)
  }

  const UNBOUND := Bounds(None, map[], [], [], [], [], {}, {}, {}, {})

  class Scope {
    var expires: Option<int>
    var clusters: map<string, ClusterScope>
    var containers: seq<string>
    var wasmArtifacts: seq<string>
    var images: seq<string>
    var offLimits: seq<OffLimit>
    var modes: set<Mode>
    var probeClasses: set<string>
    var awsProfiles: set<string>
    var clusterContexts: set<string>

    function State(): Bounds
      reads this
    {
      Bounds(expires, clusters, containers, wasmArtifacts, images, offLimits, modes, probeClasses, awsProfiles, clusterContexts)
    }

    constructor ()
      ensures State() == UNBOUND
    {
      expires := None;
      clusters := map[];
      containers, wasmArtifacts, images := [], [], [];
      offLimits := [];
      modes, probeClasses, awsProfiles, clusterContexts := {}, {}, {}, {};
    }

    /** scope.py's `from_targets_file`, once the file is parsed. */
    constructor FromTargetsFile(f: TargetsFile)
      ensures State() == Loaded(f)
    {
      expires := f.expires;
      clusters := map[];
      containers := [];
      wasmArtifacts := f.wasm;
      images := f.images;
      offLimits := f.offLimits;
      modes := {Explicit};
      probeClasses := set c | c in f.probeClasses;
      awsProfiles := set p | p in f.awsProfiles;
      clusterContexts := set c | c in f.clusterContexts;
      new;
      ghost var fixed := State();
      for i := 0 to |f.clusters|
        invariant State() == fixed.(clusters := RuledClusters(f.clusters[..i]))
      {
        var c := f.clusters[i];
        assert f.clusters[..i + 1][..i] == f.clusters[..i];
        clusters := clusters[c.context :=
          ClusterScope(c.context, c.namespaces, c.verbsDenied, set n | n in c.namespaces)];
      }
      assert f.clusters[..|f.clusters|] == f.clusters;
      fixed := State();
      for i := 0 to |f.containerPatterns|
        invariant State() == fixed.(containers := Flattened(f.containerPatterns[..i]))
      {
        assert f.containerPatterns[..i + 1][..i] == f.containerPatterns[..i];
        containers := containers + f.containerPatterns[i];
      }
      assert f.containerPatterns[..|f.containerPatterns|] == f.containerPatterns;
    }

    method Inline(contexts: seq<string>, namespaces: seq<string>, images: seq<string>,
                  pods: seq<string>, containers: seq<string>, wasm: seq<string>)
      modifies this
      ensures State() == Merged(old(State()), MergeInline(contexts, namespaces, images, pods, containers, wasm))
    {
      if contexts != [] || namespaces != [] || images != [] || pods != [] || containers != [] || wasm != [] {
        modes := modes + {Mode.Inline};
      }
      ghost var fixed, start := State(), clusters;
      var keys := InlineKeys(contexts, namespaces);
      for i := 0 to |keys|
        invariant State() == fixed.(clusters := Extended(start, keys[..i], namespaces))
      {
        assert keys[..i + 1][..i] == keys[..i];
        var cs := EntryOr(clusters, keys[i]);
        clusters := clusters[keys[i] := cs.(namespaces := cs.namespaces + namespaces)];
      }
      assert keys[..|keys|] == keys;
      this.images := this.images + images;
      this.containers := this.containers + containers;
      wasmArtifacts := wasmArtifacts + wasm;
    }

    static method Join(have: seq<string>, more: seq<string>) returns (out: seq<string>)
      ensures out == Joined(have, more)
    {
      out := have;
      for i := 0 to |more|
        invariant out == Joined(have, more[..i])
      {
        assert more[..i + 1][..i] == more[..i];
        if more[i] !in out {
          out := out + [more[i]];
        }
      }
      assert more[..|more|] == more;
    }

    static method JoinClusters(start: map<string, ClusterScope>, inferred: map<string, seq<string>>)
      returns (clusters: map<string, ClusterScope>)
      ensures clusters == InferredClusters(start, inferred)
    {
      clusters := start;
      ghost var goal := InferredClusters(start, inferred);
      var todo := inferred.Keys;
      while todo != {}
        invariant todo <= inferred.Keys
        invariant clusters.Keys == start.Keys + (inferred.Keys - todo)
        invariant forall k :: k in clusters ==> clusters[k] == if k in todo then start[k] else goal[k]
        decreases todo
      {
        var ctx :| ctx in todo;
        todo := todo - {ctx};
        var cs := EntryOr(clusters, ctx);
        var namespaces := Join(cs.namespaces, inferred[ctx]);
        clusters := clusters[ctx := cs.(namespaces := namespaces)];
      }
    }

    method Inferred(inferred: map<string, seq<string>>, images: seq<string>, containers: seq<string>, wasm: seq<string>)
      modifies this
      ensures State() == Merged(old(State()), MergeInferred(inferred, images, containers, wasm))
    {
      modes := modes + {Mode.Inferred};
      clusters := JoinClusters(clusters, inferred);
      this.images := Join(this.images, images);
      this.containers := Join(this.containers, containers);
      wasmArtifacts := Join(wasmArtifacts, wasm);
    }

    /** scope.py's `is_in_scope`, on the fields as they stand. */
    function IsInScope(env: Surroundings, a: Action): Decision
      reads this
    {
      State().Decide(env, a)
    }
  }
}
