/** Two assets whose names differ only in case: one input of `find_chains` with two answers. */
module SharedNames {
  import opened Capabilities
  import opened Collections
  import opened Text
  import opened ChainGraph
  import opened KillChains
  import opened ChainSearch
  import opened ChainSynthesis
  import opened ChainCap
  import opened ChainRuns

  const WEB := Node(EntryNode, "web")
  const LEAK := Node(FindingNode, "f")
  const VAULT := Node(AssetNode, "Vault")
  const TEST_VAULT := Node(AssetNode, "vault")

  const LEAKING := [Finding("f", High, false, true, {}, {}, ["vault"])]
  const VAULTS := ThreatModel([Asset("Vault", "critical"), Asset("vault", "low")], [EntryPoint("web", {}, [])])

  function VaultRecords(): map<Node, Meta> {
    map[LEAK := FindingMeta({}, {}, High, ["vault"]), VAULT := AssetMeta("critical"), TEST_VAULT := AssetMeta("low"),
        WEB := EntryMeta({})]
  }

  lemma VaultNames()
    ensures Lower("Vault") == "vault" && Lower("vault") == "vault" && Contains("vault", "vault")
  {
  }

  lemma VaultMeta()
    ensures MetaFor(CAP_IMPLIES, LEAKING, VAULTS) == VaultRecords()
  {
    ClosureFixed(CAP_IMPLIES, {});
    assert LEAKING[..0] == [] && VAULTS.entryPoints[..0] == [];
    assert VAULTS.assets[..1] == [Asset("Vault", "critical")] && VAULTS.assets[..1][..0] == [];
    assert FindingMetas(CAP_IMPLIES, LEAKING) == map[LEAK := FindingMeta({}, {}, High, ["vault"])];
    assert EntryMetas(CAP_IMPLIES, VAULTS.entryPoints) == map[WEB := EntryMeta({})];
    assert AssetMetas(VAULTS.assets) == map[VAULT := AssetMeta("critical"), TEST_VAULT := AssetMeta("low")];
  }

  lemma VaultEntryEdges(meta: map<Node, Meta>, a: Node, b: Node)
    requires meta == VaultRecords()
    ensures EntryEdge(CAP_IMPLIES, meta, VAULTS.entryPoints, a, b) <==> a == WEB && b == LEAK
    ensures !EscalationEdge(meta, a, b)
  {
    var eps := VAULTS.entryPoints;
    if a == WEB && b == LEAK {
      assert eps[0].name == "web" && Reaches(meta, eps[0], Closure(CAP_IMPLIES, eps[0].holds), b);
    }
  }

  lemma VaultImpact(meta: map<Node, Meta>, index: AssetIndex, a: Node, b: Node)
    requires meta == VaultRecords() && Indexes(meta, index)
    ensures ImpactEdge(meta, index, a, b) <==> a == LEAK && "vault" in index && b == index["vault"]
  {
    VaultNames();
    if ImpactEdge(meta, index, a, b) {
      var name :| name in index && index[name] == b && Mentions(meta, a, name);
      assert b == VAULT || b == TEST_VAULT;
    }
    if a == LEAK && "vault" in index {
      assert meta[LEAK].texts[0] == "vault";
      assert Mentions(meta, LEAK, "vault");
    }
  }

  /** The entry point leads to the finding, and the finding to the asset `z` alone. */
  ghost predicate Links(edges: Edges, z: Node) {
    forall a, b :: HasEdge(edges, a, b) <==> (a == WEB && b == LEAK) || (a == LEAK && b == z)
  }

  lemma VaultEdges(g: Graph)
    requires GraphOf(CAP_IMPLIES, LEAKING, VAULTS, g)
    ensures g.meta == VaultRecords() && "vault" in g.index && g.index["vault"] in {VAULT, TEST_VAULT}
    ensures Links(g.edges, g.index["vault"])
  {
    VaultMeta();
    VaultNames();
    assert VAULT in g.meta;
    forall a, b
      ensures Edge(CAP_IMPLIES, g.meta, g.index, VAULTS.entryPoints, a, b) <==>
        (a == WEB && b == LEAK) || (a == LEAK && b == g.index["vault"])
    {
      VaultEntryEdges(g.meta, a, b);
      VaultImpact(g.meta, g.index, a, b);
    }
  }

  lemma FewNeighbours(edges: Edges, z: Node, a: Node)
    requires Links(edges, z) && a in edges
    ensures |edges[a]| <= 1
  {
    var one := if a == WEB then {LEAK} else {z};
    forall b | b in edges[a]
      ensures b in one
    {
      assert HasEdge(edges, a, b);
    }
    SubsetSize(edges[a], one);
  }

  /** With room for eight, nothing is cut. */
  lemma NothingCut(edges: Edges, z: Node, capped: Edges)
    requires Links(edges, z) && Capped(VaultRecords(), edges, 8, capped)
    ensures Links(capped, z)
  {
    forall a, b
      ensures HasEdge(capped, a, b) <==> HasEdge(edges, a, b)
    {
      if a in edges {
        FewNeighbours(edges, z, a);
        assert Kept(VaultRecords(), edges[a], 8, capped[a]);
        SubsetSize(capped[a], edges[a]);
      }
    }
  }

  lemma VaultEnds()
    ensures DeclaredEntries(VaultRecords().Keys) == {WEB}
    ensures DeclaredTargets(VaultRecords().Keys, VaultRecords()) == {VAULT}
  {
    assert WEB in VaultRecords().Keys;
    assert VAULT in VaultRecords().Keys && HighValue(VaultRecords(), VAULT);
  }

  lemma VaultNetwork(g: Graph, z: Node, capped: Edges, net: Network)
    requires g.meta == VaultRecords() && g.nodes == g.meta.Keys && Links(g.edges, z)
    requires Prepared(g, 8, 6, 100, capped, net)
    ensures net.entries == {WEB} && net.targets == {VAULT} && net.maxLen == 6 && net.maxChains == 100 && Links(net.edges, z)
  {
    VaultEnds();
    NothingCut(g.edges, z, capped);
  }

  lemma VaultPath(net: Network, z: Node, q: Path)
    requires net.entries == {WEB} && net.targets == {VAULT} && Links(net.edges, z)
    requires FromEntry(net, q) && KillChain(net, q)
    ensures Signature(q) == {LEAK} && z == VAULT
  {
    var n := |q|;
    assert HasEdge(net.edges, q[n - 2], q[n - 1]);
    assert HasEdge(net.edges, q[0], q[1]);
    assert q[1] == LEAK && q[n - 2] == LEAK;
    forall i | 0 <= i < n && q[i].kind == FindingNode
      ensures q[i] == LEAK
    {
      if i > 0 {
        assert HasEdge(net.edges, q[i - 1], q[i]);
      }
    }
    assert LEAK in Signature(q);
  }

  lemma VaultChain(net: Network)
    requires net.entries == {WEB} && net.targets == {VAULT} && net.maxLen == 6 && Links(net.edges, VAULT)
    ensures FromEntry(net, [WEB, LEAK, VAULT]) && KillChain(net, [WEB, LEAK, VAULT])
    ensures Signature([WEB, LEAK, VAULT]) == {LEAK}
  {
    var q := [WEB, LEAK, VAULT];
    assert q[1] == LEAK;
    assert LEAK in Signature(q);
    assert HasEdge(net.edges, q[0], q[1]) && HasEdge(net.edges, q[1], q[2]);
  }

  lemma VaultSignatures(net: Network, z: Node)
    requires net.entries == {WEB} && net.targets == {VAULT} && net.maxLen == 6 && Links(net.edges, z)
    ensures AllSignatures(net) == if z == VAULT then {{LEAK}} else {}
  {
    forall s
      ensures s in AllSignatures(net) <==> s == {LEAK} && z == VAULT
    {
      AllSignaturesExact(net, s);
      if q :| FromEntry(net, q) && KillChain(net, q) && Signature(q) == s {
        VaultPath(net, z, q);
      }
      if z == VAULT {
        VaultChain(net);
      }
    }
  }

  lemma VaultPool(pool: seq<Finding>)
    requires MostSevere(Eligible(LEAKING), 200, pool)
    ensures pool == LEAKING
  {
    assert LEAKING[..0] == [] && Eligible(LEAKING) == LEAKING;
  }

  lemma VaultSearch(g: Graph, z: Node, capped: Edges, net: Network, chains: seq<Chain>)
    requires g.meta == VaultRecords() && g.nodes == g.meta.Keys && Links(g.edges, z)
    requires Prepared(g, 8, 6, 100, capped, net) && Exact(net, chains)
    ensures |chains| == if z == VAULT then 1 else 0
  {
    VaultNetwork(g, z, capped, net);
    VaultSignatures(net, z);
    ChainCount(net, chains);
  }

  /** One finding that mentions "vault", one critical asset "Vault" and one unimportant asset "vault":
  a run reports one chain or none, by which of the two a set happens to list last. */
  lemma SharedNameDecides(s: Synthesis, chains: seq<Chain>)
    requires Synthesised(LEAKING, VAULTS, 6, 200, 8, 100, s, chains)
    ensures "vault" in s.graph.index
    ensures |chains| == if s.graph.index["vault"] == VAULT then 1 else 0
  {
    VaultPool(s.pool);
    VaultEdges(s.graph);
    VaultSearch(s.graph, s.graph.index["vault"], s.capped, s.net, chains);
  }

  /** Either may be listed last, and no cut is to blame. */
  lemma EitherVaultIsIndexed(z: Node) returns (g: Graph)
    requires z in {VAULT, TEST_VAULT}
    ensures GraphOf(CAP_IMPLIES, LEAKING, VAULTS, g) && "vault" in g.index && g.index["vault"] == z
    ensures !NoSharedMention(g.meta) && forall n :: n in g.edges ==> CleanCut(g.meta, g.edges[n], 8)
  {
    VaultMeta();
    VaultNames();
    var index: AssetIndex := map["vault" := z];
    var meta := VaultRecords();
    assert Indexes(meta, index);
    EdgesForExact(CAP_IMPLIES, LEAKING, VAULTS, index);
    g := Graph(meta.Keys, EdgesFor(CAP_IMPLIES, meta, index, VAULTS.entryPoints), meta, index);
    VaultEdges(g);
    forall n | n in g.edges
      ensures CleanCut(g.meta, g.edges[n], 8)
    {
      FewNeighbours(g.edges, z, n);
    }
    VaultImpact(meta, index, LEAK, z);
    assert SharedMention(meta, LEAK, VAULT, TEST_VAULT);
  }
}
