/** What `find_chains` searches and reports, read off the findings and the threat model. */
module ChainInputs {
  import opened Options
  import opened Capabilities
  import opened Collections
  import opened Text
  import opened ChainGraph
  import opened KillChains
  import opened ChainSearch
  import opened ChainSynthesis
  import opened Sorting

  // ---------- the records ----------

  /** The last finding under an id that triage did not refute. */
  ghost function RecordOf(fs: seq<Finding>, id: string): Option<Finding> {
    if fs == [] then None
    else
      var f := fs[|fs| - 1];
      if f.id == id && !f.falsePositive then Some(f) else RecordOf(fs[..|fs| - 1], id)
  }

  /** The sensitivity an asset was last declared with. */
  ghost function SensitivityOf(assets: seq<Asset>, name: string): Option<string> {
    if assets == [] then None
    else
      var a := assets[|assets| - 1];
      if a.name == name then Some(a.sensitivity) else SensitivityOf(assets[..|assets| - 1], name)
  }

  lemma {:induction false} RecordsExact(fs: seq<Finding>, n: Node)
    ensures n in FindingMetas(CAP_IMPLIES, fs) <==> n.kind == FindingNode && RecordOf(fs, n.key).Some?
    ensures n in FindingMetas(CAP_IMPLIES, fs) ==>
      var f := RecordOf(fs, n.key).value;
      FindingMetas(CAP_IMPLIES, fs)[n] == FindingMeta(f.needs, Closure(CAP_IMPLIES, f.gives), f.severity, f.texts)
  {
    if fs != [] {
      RecordsExact(fs[..|fs| - 1], n);
    }
  }

  lemma {:induction false} AssetsExact(assets: seq<Asset>, n: Node)
    ensures n in AssetMetas(assets) <==> n.kind == AssetNode && SensitivityOf(assets, n.key).Some?
    ensures n in AssetMetas(assets) ==> AssetMetas(assets)[n] == AssetMeta(SensitivityOf(assets, n.key).value)
  {
    if assets != [] {
      AssetsExact(assets[..|assets| - 1], n);
    }
  }

  lemma {:induction false} EntriesNamed(eps: seq<EntryPoint>, n: Node)
    ensures n in EntryMetas(CAP_IMPLIES, eps) <==> n.kind == EntryNode && exists i :: 0 <= i < |eps| && eps[i].name == n.key
  {
    if eps != [] {
      var init, e := eps[..|eps| - 1], eps[|eps| - 1];
      EntriesNamed(init, n);
      assert eps == init + [e];
      if i :| 0 <= i < |init| && init[i].name == n.key {
        assert eps[i].name == n.key;
      }
      if n == EntryKey(e) {
        assert eps[|eps| - 1].name == n.key;
      }
    }
  }

  /** One kind of node has one kind of record. */
  lemma MetaExact(fs: seq<Finding>, tm: ThreatModel, n: Node)
    ensures var meta := MetaFor(CAP_IMPLIES, fs, tm);
      && (n in meta <==>
            match n.kind
            case FindingNode => RecordOf(fs, n.key).Some?
            case AssetNode => SensitivityOf(tm.assets, n.key).Some?
            case EntryNode => exists i :: 0 <= i < |tm.entryPoints| && tm.entryPoints[i].name == n.key)
      && (n in meta && n.kind == FindingNode ==>
            var f := RecordOf(fs, n.key).value;
            meta[n] == FindingMeta(f.needs, Closure(CAP_IMPLIES, f.gives), f.severity, f.texts))
      && (n in meta && n.kind == AssetNode ==> meta[n] == AssetMeta(SensitivityOf(tm.assets, n.key).value))
      && (n in meta && n.kind == EntryNode ==> meta[n].EntryMeta?)
  {
    RecordsExact(fs, n);
    AssetsExact(tm.assets, n);
    EntriesNamed(tm.entryPoints, n);
  }

  // ---------- the pool ----------

  ghost function Gravity(s: Severity): nat {
    match s
    case Critical => 5
    case High => 4
    case Medium => 3
    case Low => 2
    case Informational => 1
    case Unranked => 0
  }

  /** No finding left out of a full pool is graver than one let in, and the pool is in that order. */
  lemma PoolExact(all: seq<Finding>, size: nat, pool: seq<Finding>)
    requires MostSevere(all, size, pool) && |all| > size
    ensures forall a, b :: a in pool && b in multiset(all) - multiset(pool) ==> Gravity(a.severity) >= Gravity(b.severity)
    ensures forall i, j :: 0 <= i < j < |pool| ==> Gravity(pool[i].severity) >= Gravity(pool[j].severity)
  {
    forall a, b | a in pool && b in multiset(all) - multiset(pool)
      ensures Gravity(a.severity) >= Gravity(b.severity)
    {
      assert SeverityOrder(a, b);
    }
    forall i, j | 0 <= i < j < |pool|
      ensures Gravity(pool[i].severity) >= Gravity(pool[j].severity)
    {
      assert SeverityOrder(pool[i], pool[j]);
    }
  }

  // ---------- the edges ----------

  /** An entry point reaches a finding that needs no more than it holds, and the assets it names. */
  ghost predicate Opens(fs: seq<Finding>, tm: ThreatModel, e: EntryPoint, b: Node) {
    match b.kind
    case FindingNode =>
      RecordOf(fs, b.key).Some? && RecordOf(fs, b.key).value.needs <= Closure(CAP_IMPLIES, e.holds)
    case AssetNode => b.key in e.reachable && SensitivityOf(tm.assets, b.key).Some?
    case EntryNode => false
  }

  /** A finding leads on to another that needs something, and nothing it does not give. */
  ghost predicate Escalates(fs: seq<Finding>, a: Node, b: Node) {
    && a.kind == FindingNode && b.kind == FindingNode && a != b
    && RecordOf(fs, a.key).Some? && RecordOf(fs, b.key).Some?
    && RecordOf(fs, b.key).value.needs != {}
    && RecordOf(fs, b.key).value.needs <= Closure(CAP_IMPLIES, RecordOf(fs, a.key).value.gives)
  }

  /** A finding leads to the indexed asset of every lower-cased name its texts contain. */
  ghost predicate Hits(fs: seq<Finding>, index: AssetIndex, a: Node, b: Node) {
    && a.kind == FindingNode && RecordOf(fs, a.key).Some?
    && exists name :: name in index && index[name] == b && name != "" && TextsContain(RecordOf(fs, a.key).value.texts, name)
  }

  ghost predicate TextsContain(texts: seq<string>, name: string) {
    exists i :: 0 <= i < |texts| && Contains(Lower(texts[i]), name)
  }

  lemma OpensExact(fs: seq<Finding>, tm: ThreatModel, e: EntryPoint, b: Node)
    ensures Reaches(MetaFor(CAP_IMPLIES, fs, tm), e, Closure(CAP_IMPLIES, e.holds), b) <==> Opens(fs, tm, e, b)
  {
    MetaExact(fs, tm, b);
  }

  lemma EscalatesExact(fs: seq<Finding>, tm: ThreatModel, a: Node, b: Node)
    ensures EscalationEdge(MetaFor(CAP_IMPLIES, fs, tm), a, b) <==> Escalates(fs, a, b)
  {
    MetaExact(fs, tm, a);
    MetaExact(fs, tm, b);
  }

  lemma MentionsExact(fs: seq<Finding>, tm: ThreatModel, a: Node, name: string)
    ensures Mentions(MetaFor(CAP_IMPLIES, fs, tm), a, name) <==>
      a.kind == FindingNode && RecordOf(fs, a.key).Some? && name != "" && TextsContain(RecordOf(fs, a.key).value.texts, name)
  {
    MetaExact(fs, tm, a);
  }

  /** The edges of the graph, before any is cut. */
  lemma EdgesExact(fs: seq<Finding>, tm: ThreatModel, g: Graph, a: Node, b: Node)
    requires GraphOf(CAP_IMPLIES, fs, tm, g)
    ensures HasEdge(g.edges, a, b) <==>
      || (a.kind == EntryNode && exists i :: 0 <= i < |tm.entryPoints| && tm.entryPoints[i].name == a.key && Opens(fs, tm, tm.entryPoints[i], b))
      || Escalates(fs, a, b) || Hits(fs, g.index, a, b)
  {
    EscalatesExact(fs, tm, a, b);
    forall name
      ensures Mentions(g.meta, a, name) <==>
        a.kind == FindingNode && RecordOf(fs, a.key).Some? && name != "" && TextsContain(RecordOf(fs, a.key).value.texts, name)
    {
      MentionsExact(fs, tm, a, name);
    }
    EntryEdgeExact(fs, tm, g.meta, a, b);
  }

  lemma EntryEdgeExact(fs: seq<Finding>, tm: ThreatModel, meta: map<Node, Meta>, a: Node, b: Node)
    requires meta == MetaFor(CAP_IMPLIES, fs, tm)
    ensures EntryEdge(CAP_IMPLIES, meta, tm.entryPoints, a, b) <==>
      a.kind == EntryNode && exists i :: 0 <= i < |tm.entryPoints| && tm.entryPoints[i].name == a.key && Opens(fs, tm, tm.entryPoints[i], b)
  {
    var eps := tm.entryPoints;
    forall i | 0 <= i < |eps|
      ensures Reaches(meta, eps[i], Closure(CAP_IMPLIES, eps[i].holds), b) <==> Opens(fs, tm, eps[i], b)
    {
      OpensExact(fs, tm, eps[i], b);
    }
  }

  /** When a node has too many neighbours, the graver findings are kept; assets count as critical. */
  ghost function Standing(fs: seq<Finding>, n: Node): nat {
    if n.kind == FindingNode && RecordOf(fs, n.key).Some? then Gravity(RecordOf(fs, n.key).value.severity) else 5
  }

  lemma CutExact(fs: seq<Finding>, tm: ThreatModel, all: set<Node>, size: nat, kept: set<Node>)
    requires Kept(MetaFor(CAP_IMPLIES, fs, tm), all, size, kept)
    ensures kept <= all && |kept| == if |all| > size then size else |all|
    ensures forall a, b :: a in kept && b in all - kept ==> Standing(fs, a) >= Standing(fs, b)
  {
    forall a, b | a in kept && b in all - kept
      ensures Standing(fs, a) >= Standing(fs, b)
    {
      StandingExact(fs, tm, a);
      StandingExact(fs, tm, b);
    }
  }

  lemma StandingExact(fs: seq<Finding>, tm: ThreatModel, n: Node)
    ensures Standing(fs, n) == 5 - NodeRank(MetaFor(CAP_IMPLIES, fs, tm), n)
  {
    MetaExact(fs, tm, n);
  }

  // ---------- entries and targets ----------

  ghost predicate Valuable(tm: ThreatModel, n: Node) {
    n.kind == AssetNode && SensitivityOf(tm.assets, n.key) in {Some("critical"), Some("high")}
  }

  lemma GrantsNoTerminal(c: Cap)
    requires c !in {ClusterAdmin, HostExec, EtcdAccess}
    ensures ClusterAdmin !in Granted(CAP_IMPLIES, c) && HostExec !in Granted(CAP_IMPLIES, c)
    ensures EtcdAccess !in Granted(CAP_IMPLIES, c)
  {
    assert c in CAP_IMPLIES ==> c == Kubeconfig || c == NsEscape;
  }

  /** The three capabilities a path may end in follow from themselves alone, or from each other. */
  lemma TerminalGains(gives: set<Cap>)
    ensures Closure(CAP_IMPLIES, gives) !! {ClusterAdmin, HostExec, EtcdAccess} <==>
      gives !! {ClusterAdmin, HostExec, EtcdAccess}
  {
    var out := Closure(CAP_IMPLIES, gives);
    if gives !! {ClusterAdmin, HostExec, EtcdAccess} {
      var others := out - {ClusterAdmin, HostExec, EtcdAccess};
      forall c | c in others
        ensures Granted(CAP_IMPLIES, c) <= others
      {
        GrantsNoTerminal(c);
        assert Granted(CAP_IMPLIES, c) <= out;
      }
      assert gives <= others;
    }
  }

  ghost predicate EndsAt(fs: seq<Finding>, n: Node) {
    && n.kind == FindingNode && RecordOf(fs, n.key).Some?
    && !(RecordOf(fs, n.key).value.gives !! {ClusterAdmin, HostExec, EtcdAccess})
  }

  lemma ValuableExact(fs: seq<Finding>, tm: ThreatModel, n: Node)
    ensures var meta := MetaFor(CAP_IMPLIES, fs, tm); n in DeclaredTargets(meta.Keys, meta) <==> Valuable(tm, n)
  {
    MetaExact(fs, tm, n);
  }

  lemma EndsAtExact(fs: seq<Finding>, tm: ThreatModel, n: Node)
    ensures var meta := MetaFor(CAP_IMPLIES, fs, tm); n in FallbackTargets(meta.Keys, meta) <==> EndsAt(fs, n)
  {
    MetaExact(fs, tm, n);
    if n.kind == FindingNode && RecordOf(fs, n.key).Some? {
      var gives := RecordOf(fs, n.key).value.gives;
      TerminalGains(gives);
      TerminalYields(Closure(CAP_IMPLIES, gives));
    }
  }

  lemma TerminalYields(caps: set<Cap>)
    ensures TERMINAL_CAPS * caps != {} <==> !(caps !! {ClusterAdmin, HostExec, EtcdAccess})
  {
    assert forall c :: c in TERMINAL_CAPS * caps <==> c in caps && c in {ClusterAdmin, HostExec, EtcdAccess};
  }

  /** The record of an assumed entry point makes no finding an end. */
  lemma FallbackUnmoved(g: Graph, meta: map<Node, Meta>)
    requires g.nodes == g.meta.Keys && meta == g.meta[UNAUTHENTICATED := EntryMeta({NetPosition})]
    ensures FallbackTargets(g.nodes, meta) == FallbackTargets(g.nodes, g.meta)
  {
    assert forall n: Node :: n.kind == FindingNode ==> Yields(meta, n) == Yields(g.meta, n);
  }

  /** The targets are the assets last declared critical or high; without any, the findings that give
  cluster administration, host execution or etcd access. */
  lemma TargetsExact(fs: seq<Finding>, tm: ThreatModel, g: Graph, size: nat, maxLen: int, maxChains: int, capped: Edges,
                     net: Network, n: Node)
    requires GraphOf(CAP_IMPLIES, fs, tm, g) && Prepared(g, size, maxLen, maxChains, capped, net)
    ensures n in net.targets <==> if exists z :: Valuable(tm, z) then Valuable(tm, n) else EndsAt(fs, n)
  {
    forall z
      ensures z in DeclaredTargets(g.nodes, g.meta) <==> Valuable(tm, z)
    {
      ValuableExact(fs, tm, z);
    }
    EndsAtExact(fs, tm, n);
    if DeclaredEntries(g.nodes) == {} {
      FallbackUnmoved(g, net.meta);
    }
  }

  /** Paths start at the declared entry points; without any, at an unauthenticated one on the network,
  which leads to the findings that need nothing and does not count against the cap. */
  lemma EntriesExact(fs: seq<Finding>, tm: ThreatModel, g: Graph, size: nat, maxLen: int, maxChains: int, capped: Edges,
                     net: Network, a: Node, b: Node)
    requires GraphOf(CAP_IMPLIES, fs, tm, g) && Prepared(g, size, maxLen, maxChains, capped, net)
    ensures tm.entryPoints != [] ==>
      && (a in net.entries <==> a.kind == EntryNode && exists i :: 0 <= i < |tm.entryPoints| && tm.entryPoints[i].name == a.key)
      && (HasEdge(net.edges, a, b) <==> HasEdge(capped, a, b))
    ensures tm.entryPoints == [] ==>
      && (a in net.entries <==> a == Node(EntryNode, "unauthenticated"))
      && Node(EntryNode, "unauthenticated") in net.meta
      && net.meta[Node(EntryNode, "unauthenticated")] == EntryMeta({NetPosition})
      && (HasEdge(net.edges, a, b) <==>
            HasEdge(capped, a, b)
            || (a == Node(EntryNode, "unauthenticated") && b.kind == FindingNode && RecordOf(fs, b.key).Some?
                && RecordOf(fs, b.key).value.needs == {}))
  {
    MetaExact(fs, tm, a);
    MetaExact(fs, tm, b);
    if tm.entryPoints != [] {
      var e := Node(EntryNode, tm.entryPoints[0].name);
      MetaExact(fs, tm, e);
      assert e in DeclaredEntries(g.nodes);
    } else {
      forall n | n in DeclaredEntries(g.nodes)
        ensures false
      {
        MetaExact(fs, tm, n);
      }
    }
  }

  // ---------- the reported chains ----------

  lemma {:induction false} FindingIdsInOrder(p: Path)
    requires p != []
    ensures FindingIds(p) == (if p[0].kind == FindingNode then [p[0].key] else []) + FindingIds(p[1..])
  {
    if |p| == 1 {
      assert p[..0] == [] == p[1..];
    } else {
      FindingIdsInOrder(p[..|p| - 1]);
      assert p[1..][..|p| - 2] == p[..|p| - 1][1..];
    }
  }

  lemma {:induction false} FindingIdsMembers(p: Path, id: string)
    ensures id in FindingIds(p) <==> Node(FindingNode, id) in p
  {
    if p != [] {
      FindingIdsMembers(p[..|p| - 1], id);
      assert p == p[..|p| - 1] + [p[|p| - 1]];
    }
  }

  lemma SameFindings(p: Path, q: Path)
    ensures Signature(p) == Signature(q) <==> Elements(FindingIds(p)) == Elements(FindingIds(q))
  {
    forall id
      ensures id in FindingIds(p) <==> Node(FindingNode, id) in Signature(p)
      ensures id in FindingIds(q) <==> Node(FindingNode, id) in Signature(q)
    {
      FindingIdsMembers(p, id);
      FindingIdsMembers(q, id);
    }
    if Elements(FindingIds(p)) == Elements(FindingIds(q)) {
      forall n
        ensures n in Signature(p) <==> n in Signature(q)
      {
        if n.kind == FindingNode {
          assert n == Node(FindingNode, n.key);
          assert n.key in FindingIds(p) <==> n.key in Elements(FindingIds(p));
          assert n.key in FindingIds(q) <==> n.key in Elements(FindingIds(q));
        }
      }
    }
  }

  /** No two reported chains use the same findings, and longer ones come first. */
  lemma RankedExact(net: Network, chains: seq<Chain>, i: nat, j: nat)
    requires Exact(net, chains) && SortedBy(chains, ChainOrder) && i < j < |chains|
    ensures Elements(chains[i].findingIds) != Elements(chains[j].findingIds)
    ensures |chains[i].findingIds| >= |chains[j].findingIds|
    ensures |chains[i].findingIds| == |chains[j].findingIds| ==> LexLe(chains[i].terminalAsset, chains[j].terminalAsset)
  {
    assert ChainOrder(chains[i], chains[j]);
    assert Reports(net, chains[i]) && Reports(net, chains[j]);
    SameFindings(chains[i].path, chains[j].path);
    if Signature(chains[i].path) == Signature(chains[j].path) {
      FewerSignatures(chains, i, j);
    }
  }

  lemma FewerSignatures(chains: seq<Chain>, i: nat, j: nat)
    requires i < j < |chains| && Signature(chains[i].path) == Signature(chains[j].path)
    ensures |Reported(chains)| < |chains|
  {
    var rest := chains[..j] + chains[j + 1..];
    assert rest[i] == chains[i];
    forall s | s in Reported(chains)
      ensures s in Reported(rest)
    {
      var k :| 0 <= k < |chains| && Signature(chains[k].path) == s;
      var c := if k == j then chains[i] else chains[k];
      assert c == rest[if k == j then i else if k < j then k else k - 1];
      assert c in rest;
    }
    SubsetSize(Reported(chains), Reported(rest));
    ReportedSize(rest);
  }

  lemma {:induction false} ReportedSize(chains: seq<Chain>)
    ensures |Reported(chains)| <= |chains|
  {
    if chains == [] {
      assert Reported(chains) == {};
    } else {
      var init, c := chains[..|chains| - 1], chains[|chains| - 1];
      ReportedSize(init);
      assert chains == init + [c];
      ReportedSnoc(init, c);
    }
  }
}
