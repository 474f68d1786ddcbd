/** The attacker-capability vocabulary of chain.py and its implication closure.

A finding or an entry point yields capabilities; owning one capability can imply owning others.
`Close` is the worklist of chain.py; `Closure` is the set it is proved to compute, the least
superset closed under the implication table. */
module Capabilities {
  import opened Collections

  datatype Cap =
    | SaToken | Kubeconfig | ClusterAdmin | RbacEscalation
    | NsEscape | TenantEscape
    | SecretRead | ConfigmapRead | EtcdAccess
    | PodExec | HostExec | ContainerExec
    | Ssrf | NetPosition
    | FileWrite | FileRead
    | WasmHostcall | WasmMemory

  type Implications = map<Cap, set<Cap>>

  const CAP_IMPLIES: Implications := map[
    ClusterAdmin := {RbacEscalation, NsEscape, SecretRead, PodExec, SaToken},
    HostExec := {PodExec, ContainerExec, FileRead, FileWrite, SecretRead},
    EtcdAccess := {SecretRead, ClusterAdmin},
    Kubeconfig := {SaToken},
    NsEscape := {TenantEscape}
  ]

  function Granted(imp: Implications, c: Cap): set<Cap> {
    if c in imp then imp[c] else {}
  }

  ghost predicate Closed(imp: Implications, caps: set<Cap>) {
    forall c :: c in caps ==> Granted(imp, c) <= caps
  }

  /** Everything one round of implications adds. */
  ghost function Step(imp: Implications, caps: set<Cap>): set<Cap> {
    caps + set c, d | c in caps && d in Granted(imp, c) :: d
  }

  /** Every capability a closure of `caps` could contain. */
  ghost function Universe(imp: Implications, caps: set<Cap>): set<Cap> {
    caps + set c, d | c in imp.Keys && d in imp[c] :: d
  }

  /** The least closed superset, reached by iterating `Step`. */
  ghost function Closure(imp: Implications, caps: set<Cap>): (out: set<Cap>)
    ensures caps <= out
    ensures Closed(imp, out)
    ensures forall t :: caps <= t && Closed(imp, t) ==> out <= t
    decreases |Universe(imp, caps) - caps|
  {
    var next := Step(imp, caps);
    if next == caps then
      assert forall c :: c in caps ==> forall d :: d in Granted(imp, c) ==> d in next;
      caps
    else
      assert Universe(imp, next) == Universe(imp, caps);
      SubsetSize(Universe(imp, caps) - next, Universe(imp, caps) - caps);
      assert forall t :: caps <= t && Closed(imp, t) ==> next <= t;
      Closure(imp, next)
  }

  /** chain.py's `_close`: rescan the whole set until a scan adds nothing. */
  method Close(imp: Implications, caps: set<Cap>) returns (out: set<Cap>)
    ensures out == Closure(imp, caps)
  {
    out := caps;
    var changed := true;
    ghost var goal := Closure(imp, caps);
    while changed
      invariant caps <= out <= goal
      invariant !changed ==> Closed(imp, out)
      decreases goal - out, changed
    {
      changed := false;
      ghost var start := out;
      var todo := out;
      ghost var scanned: set<Cap> := {};
      while todo != {}
        invariant start <= out <= goal
        invariant todo + scanned == start
        invariant changed <==> start < out
        invariant forall c :: c in scanned ==> Granted(imp, c) <= out
        decreases todo
      {
        var c :| c in todo;
        todo := todo - {c};
        scanned := scanned + {c};
        var impls := Granted(imp, c);
        assert c in goal && impls <= goal;
        while impls != {}
          invariant impls <= Granted(imp, c)
          invariant Granted(imp, c) - impls <= out
          invariant start <= out <= goal
          invariant changed <==> start < out
          invariant forall b :: b in scanned - {c} ==> Granted(imp, b) <= out
          decreases impls
        {
          var impl :| impl in impls;
          impls := impls - {impl};
          if impl !in out {
            out := out + {impl};
            changed := true;
          }
        }
      }
    }
  }

  lemma ClosureFixed(imp: Implications, caps: set<Cap>)
    requires Closed(imp, caps)
    ensures Closure(imp, caps) == caps
  {
    assert caps <= caps;
  }

  lemma ClosureMonotone(imp: Implications, a: set<Cap>, b: set<Cap>)
    requires a <= b
    ensures Closure(imp, a) <= Closure(imp, b)
  {
    assert a <= Closure(imp, b);
  }

  lemma UnionOfClosedIsClosed(imp: Implications, a: set<Cap>, b: set<Cap>)
    requires Closed(imp, a) && Closed(imp, b)
    ensures Closed(imp, a + b)
  {
    forall c | c in a + b
      ensures Granted(imp, c) <= a + b
    {
      if c in a {
        assert Granted(imp, c) <= a;
      } else {
        assert Granted(imp, c) <= b;
      }
    }
  }

  /** Implications have one premise, so closing distributes over union: a search may close each
  node once and only union along a path. */
  lemma ClosureOfUnion(imp: Implications, a: set<Cap>, b: set<Cap>)
    ensures Closure(imp, a + b) == Closure(imp, a) + Closure(imp, b)
  {
    UnionOfClosedIsClosed(imp, Closure(imp, a), Closure(imp, b));
    assert a + b <= Closure(imp, a) + Closure(imp, b);
    ClosureMonotone(imp, a, a + b);
    ClosureMonotone(imp, b, a + b);
  }

  const ETCD_GRANTS: set<Cap> :=
    {EtcdAccess, SecretRead, ClusterAdmin, RbacEscalation, NsEscape, PodExec, SaToken, TenantEscape}

  lemma EtcdBoundIsClosed()
    ensures Closed(CAP_IMPLIES, ETCD_GRANTS)
  {
    forall c | c in ETCD_GRANTS
      ensures Granted(CAP_IMPLIES, c) <= ETCD_GRANTS
    {
      match c
      case EtcdAccess => assert Granted(CAP_IMPLIES, c) == {SecretRead, ClusterAdmin};
      case ClusterAdmin => assert Granted(CAP_IMPLIES, c) == {RbacEscalation, NsEscape, SecretRead, PodExec, SaToken};
      case NsEscape => assert Granted(CAP_IMPLIES, c) == {TenantEscape};
      case _ =>
    }
  }

  /** The shipped table chains three deep: etcd access carries all the way to a tenant escape. */
  lemma EtcdAccessGrants()
    ensures Closure(CAP_IMPLIES, {EtcdAccess}) == ETCD_GRANTS
  {
    var out := Closure(CAP_IMPLIES, {EtcdAccess});
    assert EtcdAccess in out;
    assert ClusterAdmin in Granted(CAP_IMPLIES, EtcdAccess);
    assert NsEscape in Granted(CAP_IMPLIES, ClusterAdmin);
    assert TenantEscape in Granted(CAP_IMPLIES, NsEscape);
    EtcdBoundIsClosed();
    assert {EtcdAccess} <= ETCD_GRANTS;
  }

  lemma OneStep(c: Cap)
    ensures Granted(CAP_IMPLIES, c) ==
      match c
      case ClusterAdmin => {RbacEscalation, NsEscape, SecretRead, PodExec, SaToken}
      case HostExec => {PodExec, ContainerExec, FileRead, FileWrite, SecretRead}
      case EtcdAccess => {SecretRead, ClusterAdmin}
      case Kubeconfig => {SaToken}
      case NsEscape => {TenantEscape}
      case _ => {}
  {
  }

  /** What `c` implies and what that implies in turn, if that is as far as it goes. */
  lemma ClosureOfOne(c: Cap, out: set<Cap>, direct: set<Cap>)
    requires c in out && direct <= out && direct == Granted(CAP_IMPLIES, c) && Closed(CAP_IMPLIES, out)
    requires forall d :: d in out ==> d == c || d in direct || exists e :: e in direct && d in Granted(CAP_IMPLIES, e)
    ensures Closure(CAP_IMPLIES, {c}) == out
  {
    var all := Closure(CAP_IMPLIES, {c});
    assert {c} <= out && c in {c} && {c} <= all;
    forall d | d in out
      ensures d in all
    {
      if d != c && d !in direct {
        var e :| e in direct && d in Granted(CAP_IMPLIES, e);
        assert e in all;
      }
    }
  }

  lemma HostExecGrants()
    ensures Closure(CAP_IMPLIES, {HostExec}) == {HostExec, PodExec, ContainerExec, FileRead, FileWrite, SecretRead}
  {
    var direct := {PodExec, ContainerExec, FileRead, FileWrite, SecretRead};
    var out := {HostExec, PodExec, ContainerExec, FileRead, FileWrite, SecretRead};
    OneStep(HostExec);
    forall c | c in out
      ensures Granted(CAP_IMPLIES, c) <= out
    {
      OneStep(c);
    }
    ClosureOfOne(HostExec, out, direct);
  }

  lemma ClusterAdminGrants()
    ensures Closure(CAP_IMPLIES, {ClusterAdmin})
         == {ClusterAdmin, RbacEscalation, NsEscape, TenantEscape, SecretRead, PodExec, SaToken}
  {
    var direct := {RbacEscalation, NsEscape, SecretRead, PodExec, SaToken};
    var out := {ClusterAdmin, RbacEscalation, NsEscape, TenantEscape, SecretRead, PodExec, SaToken};
    OneStep(ClusterAdmin);
    OneStep(NsEscape);
    forall c | c in out
      ensures Granted(CAP_IMPLIES, c) <= out
    {
      OneStep(c);
    }
    assert NsEscape in direct && TenantEscape in Granted(CAP_IMPLIES, NsEscape);
    ClosureOfOne(ClusterAdmin, out, direct);
  }

  lemma KubeconfigAndEscapeGrant()
    ensures Closure(CAP_IMPLIES, {Kubeconfig}) == {Kubeconfig, SaToken}
    ensures Closure(CAP_IMPLIES, {NsEscape}) == {NsEscape, TenantEscape}
  {
    OneStep(Kubeconfig);
    OneStep(NsEscape);
    OneStep(SaToken);
    OneStep(TenantEscape);
    ClosureOfOne(Kubeconfig, {Kubeconfig, SaToken}, {SaToken});
    ClosureOfOne(NsEscape, {NsEscape, TenantEscape}, {TenantEscape});
  }
}
