/** What no sequence of inline and inferred merges can change. */
module ScopeMerges {
  import opened Options
  import opened Globs
  import opened Collections
  import opened Scope

  /** How one scope widens another: existing entries keep their denied verbs and explicit
  namespaces and only gain namespaces; new entries come with neither. */
  ghost predicate Widens(b: Bounds, b': Bounds) {
    && b.clusters.Keys <= b'.clusters.Keys
    && (forall k :: k in b.clusters ==>
          && b.clusters[k].namespaces <= b'.clusters[k].namespaces
          && b.clusters[k].verbsDenied == b'.clusters[k].verbsDenied
          && b.clusters[k].explicitNamespaces == b'.clusters[k].explicitNamespaces)
    && (forall k :: k in b'.clusters.Keys - b.clusters.Keys ==>
          b'.clusters[k].verbsDenied == [] && b'.clusters[k].explicitNamespaces == {})
    && b.containers <= b'.containers && b.images <= b'.images && b.wasmArtifacts <= b'.wasmArtifacts
    && b.expires == b'.expires && b.offLimits == b'.offLimits
    && (Explicit in b.modes <==> Explicit in b'.modes)
    && b.probeClasses == b'.probeClasses
    && b.awsProfiles == b'.awsProfiles && b.clusterContexts == b'.clusterContexts
  }

  lemma WidensTransitive(a: Bounds, b: Bounds, c: Bounds)
    requires Widens(a, b) && Widens(b, c)
    ensures Widens(a, c)
  {
  }

  /** An inferred merge adds each entry not already present, once, behind what was there. */
  lemma {:induction false} JoinedExact(have: seq<string>, more: seq<string>)
    ensures var r := Joined(have, more);
      && have <= r
      && (forall x :: x in r <==> x in have || x in more)
      && (forall i, j :: |have| <= i < j < |r| ==> r[i] != r[j])
      && (forall i :: |have| <= i < |r| ==> r[i] !in have)
  {
    if more != [] {
      var init, x := more[..|more| - 1], more[|more| - 1];
      JoinedExact(have, init);
      assert more == init + [x];
    }
  }

  /** An inline merge gives the named contexts the namespaces, creating blank entries where there were
  none, and leaves every other context alone. */
  lemma {:induction false} ExtendedExact(clusters: map<string, ClusterScope>, keys: seq<string>, namespaces: seq<string>, key: string)
    ensures var after := Extended(clusters, keys, namespaces);
      && (key in after <==> key in clusters || key in keys)
      && (key !in keys && key in clusters ==> after[key] == clusters[key])
      && (key in keys ==>
            && after[key].(namespaces := []) == EntryOr(clusters, key).(namespaces := [])
            && EntryOr(clusters, key).namespaces <= after[key].namespaces
            && forall n :: n in after[key].namespaces <==> n in EntryOr(clusters, key).namespaces || n in namespaces)
  {
    if keys != [] {
      var init, last := keys[..|keys| - 1], keys[|keys| - 1];
      ExtendedExact(clusters, init, namespaces, key);
      assert keys == init + [last];
    }
  }

  lemma {:induction false} ExtendedWidens(b: Bounds, keys: seq<string>, namespaces: seq<string>)
    ensures Widens(b, b.(clusters := Extended(b.clusters, keys, namespaces)))
  {
    if keys != [] {
      ExtendedWidens(b, keys[..|keys| - 1], namespaces);
    }
  }

  lemma MergeWidens(b: Bounds, m: Merge)
    ensures Widens(b, Merged(b, m))
  {
    match m
    case MergeInline(contexts, namespaces, images, pods, containers, wasm) =>
      ExtendedWidens(b, InlineKeys(contexts, namespaces), namespaces);
    case MergeInferred(clusters, images, containers, wasm) =>
      JoinedExact(b.images, images);
      JoinedExact(b.containers, containers);
      JoinedExact(b.wasmArtifacts, wasm);
      forall k | k in b.clusters && k in clusters
        ensures b.clusters[k].namespaces <= Joined(b.clusters[k].namespaces, clusters[k])
      {
        JoinedExact(b.clusters[k].namespaces, clusters[k]);
      }
  }

  lemma {:induction false} MergesWiden(b: Bounds, ms: seq<Merge>)
    ensures Widens(b, MergedAll(b, ms))
  {
    if ms != [] {
      var init := ms[..|ms| - 1];
      MergesWiden(b, init);
      MergeWidens(MergedAll(b, init), ms[|ms| - 1]);
      WidensTransitive(b, MergedAll(b, init), MergedAll(b, ms));
    }
  }

  // ---------- what merges name ----------

  predicate Names(m: Merge, ctx: string) {
    match m
    case MergeInline(contexts, namespaces, images, pods, containers, wasm) => ctx in InlineKeys(contexts, namespaces)
    case MergeInferred(clusters, images, containers, wasm) => ctx in clusters
  }

  function NamespacesIn(m: Merge, ctx: string): set<string> {
    match m
    case MergeInline(contexts, namespaces, images, pods, containers, wasm) =>
      if ctx in InlineKeys(contexts, namespaces) then Elements(namespaces) else {}
    case MergeInferred(clusters, images, containers, wasm) =>
      if ctx in clusters then Elements(clusters[ctx]) else {}
  }

  function ImagesIn(m: Merge): set<string> {
    match m
    case MergeInline(contexts, namespaces, images, pods, containers, wasm) => Elements(images)
    case MergeInferred(clusters, images, containers, wasm) => Elements(images)
  }

  predicate Named(ms: seq<Merge>, ctx: string) {
    ms != [] && (Named(ms[..|ms| - 1], ctx) || Names(ms[|ms| - 1], ctx))
  }

  function NamespacesNamed(ms: seq<Merge>, ctx: string): set<string> {
    if ms == [] then {} else NamespacesNamed(ms[..|ms| - 1], ctx) + NamespacesIn(ms[|ms| - 1], ctx)
  }

  function ImagesNamed(ms: seq<Merge>): set<string> {
    if ms == [] then {} else ImagesNamed(ms[..|ms| - 1]) + ImagesIn(ms[|ms| - 1])
  }

  /** After one merge a context has an entry if it had or was named, with the namespaces named added. */
  lemma EntryAfter(b: Bounds, m: Merge, ctx: string)
    ensures ctx in Merged(b, m).clusters <==> ctx in b.clusters || Names(m, ctx)
    ensures ctx in Merged(b, m).clusters ==>
      Elements(Merged(b, m).clusters[ctx].namespaces) == Elements(EntryOr(b.clusters, ctx).namespaces) + NamespacesIn(m, ctx)
  {
    match m
    case MergeInline(contexts, namespaces, images, pods, containers, wasm) =>
      ExtendedExact(b.clusters, InlineKeys(contexts, namespaces), namespaces, ctx);
    case MergeInferred(clusters, images, containers, wasm) =>
      if ctx in clusters {
        JoinedExact(EntryOr(b.clusters, ctx).namespaces, clusters[ctx]);
      }
  }

  lemma {:induction false} EntriesAfter(b: Bounds, ms: seq<Merge>, ctx: string)
    ensures ctx in MergedAll(b, ms).clusters <==> ctx in b.clusters || Named(ms, ctx)
    ensures ctx in MergedAll(b, ms).clusters ==>
      Elements(MergedAll(b, ms).clusters[ctx].namespaces) == Elements(EntryOr(b.clusters, ctx).namespaces) + NamespacesNamed(ms, ctx)
    ensures ctx !in MergedAll(b, ms).clusters ==> NamespacesNamed(ms, ctx) == {}
  {
    if ms != [] {
      var init := ms[..|ms| - 1];
      EntriesAfter(b, init, ctx);
      EntryAfter(MergedAll(b, init), ms[|ms| - 1], ctx);
    }
  }

  lemma ImagesOnce(b: Bounds, m: Merge)
    ensures Elements(Merged(b, m).images) == Elements(b.images) + ImagesIn(m)
  {
    match m
    case MergeInline(contexts, namespaces, images, pods, containers, wasm) =>
      assert Elements(b.images + images) == Elements(b.images) + Elements(images);
    case MergeInferred(clusters, images, containers, wasm) =>
      JoinedExact(b.images, images);
  }

  lemma {:induction false} ImagesAfter(b: Bounds, ms: seq<Merge>)
    ensures Elements(MergedAll(b, ms).images) == Elements(b.images) + ImagesNamed(ms)
  {
    if ms != [] {
      var init := ms[..|ms| - 1];
      ImagesAfter(b, init);
      ImagesOnce(MergedAll(b, init), ms[|ms| - 1]);
    }
  }

  /** The merges give this context an entry it did not have: the fallback no longer speaks for it. */
  predicate Shadowed(b: Bounds, ms: seq<Merge>, ctx: Option<string>) {
    ctx.Some? && ctx.value !in b.clusters && Named(ms, ctx.value)
  }

  /** What answers for a context after merges: a blank entry if one shadows it or there was none,
  and otherwise what answered before, with no more than added namespaces. */
  lemma LookupAfter(b: Bounds, ms: seq<Merge>, ctx: Option<string>)
    ensures var before, after := b.Lookup(ctx), MergedAll(b, ms).Lookup(ctx);
      if Shadowed(b, ms, ctx) || before.None?
      then (after.Some? ==> after.value.verbsDenied == [] && after.value.explicitNamespaces == {})
      else
        && after.Some?
        && before.value.namespaces <= after.value.namespaces
        && before.value.verbsDenied == after.value.verbsDenied
        && before.value.explicitNamespaces == after.value.explicitNamespaces
    ensures Shadowed(b, ms, ctx) ==>
      MergedAll(b, ms).Lookup(ctx).Some? && Elements(MergedAll(b, ms).Lookup(ctx).value.namespaces) == NamespacesNamed(ms, ctx.value)
  {
    MergesWiden(b, ms);
    if ctx.Some? {
      EntriesAfter(b, ms, ctx.value);
    }
  }

  lemma OtherwiseWidened(b: Bounds, ms: seq<Merge>)
    ensures var b' := MergedAll(b, ms);
      && b.containers <= b'.containers && b.images <= b'.images && b.wasmArtifacts <= b'.wasmArtifacts
      && b.expires == b'.expires && b.offLimits == b'.offLimits
      && (Explicit in b.modes <==> Explicit in b'.modes)
      && b.probeClasses == b'.probeClasses
      && b.awsProfiles == b'.awsProfiles && b.clusterContexts == b'.clusterContexts
  {
    MergesWiden(b, ms);
  }

  ghost predicate VerbIsDenied(b: Bounds, ctx: Option<string>, verb: string) {
    b.Lookup(ctx).Some? && verb in b.Lookup(ctx).value.verbsDenied
  }

  /** A denied verb stays denied through any merges exactly when no new entry shadows the one that
  denied it; in particular a context with its own entry keeps its denials, and merges deny no verb. */
  lemma DeniedVerbsExact(b: Bounds, ms: seq<Merge>, ctx: Option<string>, verb: string)
    ensures var b' := MergedAll(b, ms);
      VerbIsDenied(b', ctx, verb) <==> VerbIsDenied(b, ctx, verb) && !Shadowed(b, ms, ctx)
  {
    LookupAfter(b, ms, ctx);
  }

  /** Explicit coverage after merges is explicit coverage before them, minus what got shadowed. */
  lemma ExplicitCoverageExact(b: Bounds, ms: seq<Merge>, a: Action)
    ensures var b' := MergedAll(b, ms);
      b'.ExplicitlyCovers(a) <==> b.ExplicitlyCovers(a) && !Shadowed(b, ms, a.context)
  {
    LookupAfter(b, ms, a.context);
  }

  /** Control-plane reach allowed after any merges was covered by an explicit entry before them, or is
  of the kind the lock overlooks. */
  lemma MergesNeverUnlock(b: Bounds, ms: seq<Merge>, env: Surroundings, a: Action)
    requires TouchesControlPlane(a) && MergedAll(b, ms).Decide(env, a) == Allowed
    ensures b.ExplicitlyCovers(a) || Overlooked(a)
  {
    DecisionExact(MergedAll(b, ms), env, a);
    ExplicitCoverageExact(b, ms, a);
  }

  const GRANT_ALL := MergeInline([], ["*"], [], [], [], [])

  lemma GrantAllGrants(a: Action)
    ensures ClusterScope(CURRENT, ["*"], [], {}).NsAllowed(a.namespace)
  {
    assert ["*"][0] == "*";
    if a.namespace.Some? {
      StarMatchesAll(a.namespace.value);
    }
  }

  lemma GrantAllAllows(env: Surroundings, a: Action)
    requires Overlooked(a)
    ensures MergedAll(UNBOUND, [GRANT_ALL]).Decide(env, a) == Allowed && !UNBOUND.ExplicitlyCovers(a)
  {
    var b, keys := MergedAll(UNBOUND, [GRANT_ALL]), InlineKeys([], ["*"]);
    assert [GRANT_ALL][..0] == [] && MergedAll(UNBOUND, []) == UNBOUND;
    assert keys == [CURRENT] && keys[..0] == [];
    assert Extended(map[], [], ["*"]) == map[];
    assert [] + ["*"] == ["*"];
    assert b.clusters == map[CURRENT := ClusterScope(CURRENT, ["*"], [], {})];
    assert b.Lookup(a.context) == Some(ClusterScope(CURRENT, ["*"], [], {}));
    GrantAllGrants(a);
    LockExact(b, a);
  }

  /** Merges can unlock control-plane reach without explicit coverage exactly when it is a write on a
  cluster-wide resource that names an ordinary namespace, or names no namespace and is no such write. */
  lemma UnlockedExact(env: Surroundings, a: Action)
    requires TouchesControlPlane(a)
    ensures (exists b, ms :: MergedAll(b, ms).Decide(env, a) == Allowed && !b.ExplicitlyCovers(a)) <==> Overlooked(a)
  {
    if b, ms :| MergedAll(b, ms).Decide(env, a) == Allowed && !b.ExplicitlyCovers(a) {
      MergesNeverUnlock(b, ms, env, a);
    }
    if Overlooked(a) {
      GrantAllAllows(env, a);
    }
  }

  /** Without a targets file, that is also exactly what of the control plane merges can reach. */
  lemma UnboundReachExact(env: Surroundings, a: Action)
    requires TouchesControlPlane(a)
    ensures (exists ms :: MergedAll(UNBOUND, ms).Decide(env, a) == Allowed) <==> Overlooked(a)
  {
    if ms :| MergedAll(UNBOUND, ms).Decide(env, a) == Allowed {
      MergesNeverUnlock(UNBOUND, ms, env, a);
    }
    if Overlooked(a) {
      GrantAllAllows(env, a);
    }
  }

  function DeleteSecrets(namespace: Option<string>): Action {
    Action("k8s", "delete", Some("spoke"), namespace, Some("secrets"), None, None, None)
  }

  /** With nothing but a context and "*" named on the command line, secrets may be deleted across all
  namespaces, the control plane's among them, and not in one of those by name. */
  lemma AllNamespacesSlipThrough(env: Surroundings)
    ensures TouchesControlPlane(DeleteSecrets(None)) && TouchesControlPlane(DeleteSecrets(Some("kube-system")))
    ensures var b := MergedAll(UNBOUND, [NameSpoke(["*"])]);
      && !b.ExplicitlyCovers(DeleteSecrets(None))
      && b.Decide(env, DeleteSecrets(None)) == Allowed
      && b.Decide(env, DeleteSecrets(Some("kube-system"))) == Denied(ControlPlaneNamespace)
  {
    var b, a := MergedAll(UNBOUND, [NameSpoke(["*"])]), DeleteSecrets(None);
    SpokeOnly(["*"]);
    SpokeLookup(b, ["*"]);
    SecretsAreNamespaced();
    KubeSystemIsControlPlane();
    assert ["*"][0] == "*";
    LockExact(b, a);
    assert b.DecideK8s(a) == Allowed;
  }

  lemma SecretsAreNamespaced()
    ensures forall ns :: !ControlPlaneWrite(DeleteSecrets(ns))
  {
  }

  lemma KubeSystemIsControlPlane()
    ensures ControlPlaneNs("kube-system")
  {
    LiteralMatchesItself("kube-system", "kube-system");
    assert CONTROL_PLANE_NS_PATTERNS[0] == "kube-system";
  }

  function BindingWrite(namespace: Option<string>): Action {
    Action("k8s", "create", Some("spoke"), namespace, Some("clusterrolebinding"), None, None, None)
  }

  /** A concrete one: with nothing but a context and a namespace named on the command line, a
  cluster-role binding may be created if the command also says `-n team-a`, and not if it does not. */
  lemma NamespacedBindingSlipsThrough(env: Surroundings)
    ensures TouchesControlPlane(BindingWrite(Some("team-a"))) && TouchesControlPlane(BindingWrite(None))
    ensures var b := MergedAll(UNBOUND, [NameSpoke(["team-a"])]);
      && !b.ExplicitlyCovers(BindingWrite(Some("team-a")))
      && b.Decide(env, BindingWrite(Some("team-a"))) == Allowed
      && b.Decide(env, BindingWrite(None)) == Denied(ControlPlaneResource)
  {
    var b, a := MergedAll(UNBOUND, [NameSpoke(["team-a"])]), BindingWrite(Some("team-a"));
    SpokeOnly(["team-a"]);
    BindingIsAWrite(None);
    BindingIsAWrite(Some("team-a"));
    TeamIsOrdinary();
    SpokeLookup(b, ["team-a"]);
    LiteralMatchesItself("team-a", "team-a");
    assert ["team-a"][0] == "team-a";
    LockExact(b, a);
    assert b.DecideK8s(a) == Allowed;
  }

  lemma BindingIsAWrite(namespace: Option<string>)
    ensures ControlPlaneWrite(BindingWrite(namespace))
  {
  }

  lemma SpokeLookup(b: Bounds, namespaces: seq<string>)
    requires b.clusters == map["spoke" := ClusterScope("spoke", namespaces, [], {})]
    ensures b.Lookup(Some("spoke")) == Some(ClusterScope("spoke", namespaces, [], {}))
  {
  }

  lemma SpokeOnly(namespaces: seq<string>)
    ensures MergedAll(UNBOUND, [NameSpoke(namespaces)])
         == UNBOUND.(clusters := map["spoke" := ClusterScope("spoke", namespaces, [], {})], modes := {Inline})
  {
    assert [NameSpoke(namespaces)][..0] == [] && MergedAll(UNBOUND, []) == UNBOUND;
    var keys := InlineKeys(["spoke"], namespaces);
    assert keys == ["spoke"] && keys[..0] == [];
    assert Extended(map[], [], namespaces) == map[];
    assert [] + namespaces == namespaces;
    assert ["spoke"] + namespaces + [] + [] + [] + [] != [];
  }

  lemma PatternInitials(i: nat)
    requires i < |CONTROL_PLANE_NS_PATTERNS|
    ensures var p := CONTROL_PLANE_NS_PATTERNS[i]; p != [] && (p[0] == 'k' || p[0] == 'd' || p[0] == 'o')
  {
  }

  lemma TeamIsOrdinary()
    ensures !ControlPlaneNs("team-a")
  {
    assert "team-a"[0] == 't';
    forall p | p in CONTROL_PLANE_NS_PATTERNS
      ensures !Glob("team-a", p)
    {
      var i :| 0 <= i < |CONTROL_PLANE_NS_PATTERNS| && CONTROL_PLANE_NS_PATTERNS[i] == p;
      PatternInitials(i);
    }
  }

  /** Credential probes and cloud inventory answer to the targets file alone: after any merges the
  decision, with its reason, is the one the file gave. */
  lemma ExplicitOnlyAdaptersUnchanged(b: Bounds, ms: seq<Merge>, env: Surroundings, a: Action)
    requires a.adapter == "credential" || a.adapter == "inventory"
    ensures MergedAll(b, ms).Decide(env, a) == b.Decide(env, a)
  {
    OtherwiseWidened(b, ms);
    assert MergedAll(b, ms).OffLimits(a) == b.OffLimits(a);
  }

  /** Expiry and off-limits rules survive every merge. */
  lemma HardDeniesSurvive(b: Bounds, ms: seq<Merge>, env: Surroundings, a: Action)
    requires (b.expires.Some? && env.today > b.expires.value) || b.OffLimits(a)
    ensures MergedAll(b, ms).Decide(env, a) == b.Decide(env, a)
    ensures b.Decide(env, a).Denied?
  {
    OtherwiseWidened(b, ms);
    assert MergedAll(b, ms).OffLimits(a) == b.OffLimits(a);
  }

  const CLUSTER_READ := Action("k8s", "get", Some("spoke"), None, None, None, None, None)

  function CurrentOnly(denied: seq<string>): Bounds {
    UNBOUND.(clusters := map[CURRENT := ClusterScope(CURRENT, ["*"], denied, {})])
  }

  function NameSpoke(namespaces: seq<string>): Merge {
    MergeInline(["spoke"], namespaces, [], [], [], [])
  }

  lemma SpokeEntry(denied: seq<string>, namespaces: seq<string>)
    ensures MergedAll(CurrentOnly(denied), [NameSpoke(namespaces)]).Lookup(Some("spoke"))
         == Some(ClusterScope("spoke", namespaces, [], {}))
  {
    var b := CurrentOnly(denied);
    assert [NameSpoke(namespaces)][..0] == [] && MergedAll(b, []) == b;
    var keys := InlineKeys(["spoke"], namespaces);
    assert keys == ["spoke"] && keys[..0] == [];
    assert Extended(b.clusters, [], namespaces) == b.clusters;
    assert "spoke" != CURRENT && [] + namespaces == namespaces;
    assert Extended(b.clusters, keys, namespaces)["spoke"] == ClusterScope("spoke", namespaces, [], {});
  }

  /** Merges are not monotone: naming a context on the command line can withdraw what the current
  context's entry allowed, and can equally lift a verb it denied. */
  lemma ShadowingCutsBothWays()
    ensures CurrentOnly([]).DecideK8s(CLUSTER_READ) == Allowed
    ensures MergedAll(CurrentOnly([]), [NameSpoke([])]).DecideK8s(CLUSTER_READ) == Denied(NamespaceOut)
    ensures CurrentOnly(["get"]).DecideK8s(CLUSTER_READ) == Denied(VerbDenied)
    ensures MergedAll(CurrentOnly(["get"]), [NameSpoke(["*"])]).DecideK8s(CLUSTER_READ) == Allowed
  {
    SpokeEntry([], []);
    SpokeEntry(["get"], ["*"]);
    assert ["*"][0] == "*" && ["get"][0] == "get";
    assert CurrentOnly([]).Lookup(CLUSTER_READ.context) == Some(ClusterScope(CURRENT, ["*"], [], {}));
    assert CurrentOnly(["get"]).Lookup(CLUSTER_READ.context) == Some(ClusterScope(CURRENT, ["*"], ["get"], {}));
  }
}
