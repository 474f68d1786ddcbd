/** The smallest input of `find_chains` that can have an answer: one asset, one entry point that holds
nothing, and one finding that needs nothing and mentions the asset. */
module OneFinding {
  import opened Options
  import opened Capabilities
  import opened Collections
  import opened Text
  import opened ChainGraph
  import opened KillChains
  import opened ChainSearch
  import opened ChainSynthesis
  import opened ChainInputs

  const API := Node(EntryNode, "api")
  const F1 := Node(FindingNode, "F1")
  const DB := Node(AssetNode, "db")

  const READS := [Finding("F1", High, false, true, {}, {}, ["reads db"])]

  function Holding(sensitivity: string): ThreatModel {
    ThreatModel([Asset("db", sensitivity)], [EntryPoint("api", {}, [])])
  }

  lemma Mentioned()
    ensures TextsContain(["reads db"], "db") && Lower("db") == "db"
  {
    var text := ["reads db"][0];
    assert Lower(text) == text;
    ContainsExact(text, "db");
    assert text[6..] == "db";
    assert Contains(Lower(["reads db"][0]), "db");
  }

  lemma Declared(sensitivity: string, n: Node)
    ensures RecordOf(READS, n.key) == (if n.key == "F1" then Some(READS[0]) else None)
    ensures SensitivityOf(Holding(sensitivity).assets, n.key) == (if n.key == "db" then Some(sensitivity) else None)
  {
    assert READS[..0] == [] && Holding(sensitivity).assets[..0] == [];
  }

  lemma Indexed(sensitivity: string, g: Graph)
    requires GraphOf(CAP_IMPLIES, READS, Holding(sensitivity), g)
    ensures forall name :: name in g.index <==> name == "db"
    ensures "db" in g.index && g.index["db"] == DB
  {
    Mentioned();
    forall n | n in g.meta && n.kind == AssetNode
      ensures n == DB
    {
      MetaExact(READS, Holding(sensitivity), n);
      Declared(sensitivity, n);
    }
    MetaExact(READS, Holding(sensitivity), DB);
    Declared(sensitivity, DB);
  }

  /** The entry point leads to the finding and the finding to the asset. */
  ghost predicate Links(edges: Edges) {
    forall a, b :: HasEdge(edges, a, b) <==> (a == API && b == F1) || (a == F1 && b == DB)
  }

  lemma LinksExact(sensitivity: string, g: Graph)
    requires GraphOf(CAP_IMPLIES, READS, Holding(sensitivity), g)
    ensures Links(g.edges)
  {
    forall a, b
      ensures HasEdge(g.edges, a, b) <==> (a == API && b == F1) || (a == F1 && b == DB)
    {
      EdgesExact(READS, Holding(sensitivity), g, a, b);
      Opened(sensitivity, a, b);
      HitsHere(sensitivity, g, a, b);
    }
  }

  lemma Opened(sensitivity: string, a: Node, b: Node)
    ensures var eps := Holding(sensitivity).entryPoints;
      (a.kind == EntryNode && exists i :: 0 <= i < |eps| && eps[i].name == a.key && Opens(READS, Holding(sensitivity), eps[i], b))
      <==> a == API && b == F1
    ensures !Escalates(READS, a, b)
  {
    Declared(sensitivity, a);
    Declared(sensitivity, b);
    assert Holding(sensitivity).entryPoints[0].name == "api";
  }

  lemma HitsHere(sensitivity: string, g: Graph, a: Node, b: Node)
    requires GraphOf(CAP_IMPLIES, READS, Holding(sensitivity), g)
    ensures Hits(READS, g.index, a, b) <==> a == F1 && b == DB
  {
    Declared(sensitivity, a);
    Indexed(sensitivity, g);
    Mentioned();
  }

  lemma NothingCut(sensitivity: string, edges: Edges, capped: Edges)
    requires Links(edges) && Capped(MetaFor(CAP_IMPLIES, READS, Holding(sensitivity)), edges, 8, capped)
    ensures Links(capped)
  {
    forall a, b
      ensures HasEdge(capped, a, b) <==> HasEdge(edges, a, b)
    {
      if a in edges {
        FewNeighbours(edges, a);
        CutExact(READS, Holding(sensitivity), edges[a], 8, capped[a]);
        SubsetSize(capped[a], edges[a]);
      }
    }
  }

  lemma FewNeighbours(edges: Edges, a: Node)
    requires Links(edges) && a in edges
    ensures |edges[a]| <= 1
  {
    var one := if a == API then {F1} else {DB};
    forall b | b in edges[a]
      ensures b in one
    {
      assert HasEdge(edges, a, b);
    }
    SubsetSize(edges[a], one);
  }

  lemma ValuableHere(sensitivity: string, n: Node)
    ensures Valuable(Holding(sensitivity), n) <==> n == DB && (sensitivity == "critical" || sensitivity == "high")
    ensures !EndsAt(READS, n)
  {
    Declared(sensitivity, n);
  }

  lemma TargetsHere(sensitivity: string, s: Synthesis, n: Node)
    requires GraphOf(CAP_IMPLIES, READS, Holding(sensitivity), s.graph) && Prepared(s.graph, 8, 6, 100, s.capped, s.net)
    ensures n in s.net.targets <==> n == DB && (sensitivity == "critical" || sensitivity == "high")
  {
    TargetsExact(READS, Holding(sensitivity), s.graph, 8, 6, 100, s.capped, s.net, n);
    ValuableHere(sensitivity, n);
  }

  lemma EntriesHere(sensitivity: string, s: Synthesis, a: Node)
    requires GraphOf(CAP_IMPLIES, READS, Holding(sensitivity), s.graph) && Prepared(s.graph, 8, 6, 100, s.capped, s.net)
    ensures a in s.net.entries <==> a == API
    ensures Links(s.net.edges)
  {
    var tm := Holding(sensitivity);
    assert tm.entryPoints[0].name == "api";
    EntriesExact(READS, tm, s.graph, 8, 6, 100, s.capped, s.net, a, a);
    LinksExact(sensitivity, s.graph);
    NothingCut(sensitivity, s.graph.edges, s.capped);
    forall x, y
      ensures HasEdge(s.net.edges, x, y) <==> HasEdge(s.capped, x, y)
    {
      EntriesExact(READS, tm, s.graph, 8, 6, 100, s.capped, s.net, x, y);
    }
  }

  lemma OnlyPath(net: Network, q: Path)
    requires (forall a :: a in net.entries ==> a == API) && (forall n :: n in net.targets ==> n == DB) && Links(net.edges)
    requires FromEntry(net, q) && KillChain(net, q)
    ensures q == [API, F1, DB] && DB in net.targets
  {
    var n := |q|;
    assert q[n - 1] == DB;
    assert HasEdge(net.edges, q[n - 2], q[n - 1]);
    assert HasEdge(net.edges, q[0], q[1]);
    assert q[0] == API && q[1] == F1 && q[n - 2] == F1;
    assert n == 3;
  }

  lemma ThePath(net: Network)
    requires API in net.entries && net.targets == {DB} && net.maxLen == 6 && Links(net.edges)
    ensures FromEntry(net, [API, F1, DB]) && KillChain(net, [API, F1, DB])
  {
    var q := [API, F1, DB];
    assert q[1] == F1;
    assert F1 in Signature(q);
    assert HasEdge(net.edges, q[0], q[1]) && HasEdge(net.edges, q[1], q[2]);
  }

  /** By the sensitivity of the asset: critical or high, and the one path through the finding is
  reported; anything else, and nothing is. */
  lemma OneChainExact(sensitivity: string, s: Synthesis, chains: seq<Chain>)
    requires Synthesised(READS, Holding(sensitivity), 6, 200, 8, 100, s, chains)
    ensures |chains| == if sensitivity == "critical" || sensitivity == "high" then 1 else 0
    ensures forall i :: 0 <= i < |chains| ==> chains[i].path == [API, F1, DB]
  {
    assert READS[..0] == [] && Eligible(READS) == READS;
    forall n
      ensures n in s.net.entries <==> n == API
      ensures n in s.net.targets <==> n == DB && (sensitivity == "critical" || sensitivity == "high")
      ensures Links(s.net.edges)
    {
      EntriesHere(sensitivity, s, n);
      TargetsHere(sensitivity, s, n);
    }
    SearchHere(s.net, chains);
  }

  lemma SearchHere(net: Network, chains: seq<Chain>)
    requires (forall n :: n in net.entries <==> n == API) && (forall n :: n in net.targets ==> n == DB)
    requires net.maxLen == 6 && net.maxChains == 100 && Links(net.edges) && Exact(net, chains)
    ensures |chains| == if DB in net.targets then 1 else 0
    ensures forall i :: 0 <= i < |chains| ==> chains[i].path == [API, F1, DB]
  {
    forall i | 0 <= i < |chains|
      ensures chains[i].path == [API, F1, DB]
    {
      OnlyPath(net, chains[i].path);
    }
    var found := AllSignatures(net);
    var only := {Signature([API, F1, DB])};
    forall s
      ensures s in found <==> s in only && DB in net.targets
    {
      AllSignaturesExact(net, s);
      if q :| FromEntry(net, q) && KillChain(net, q) && Signature(q) == s {
        OnlyPath(net, q);
      }
      if DB in net.targets {
        assert net.targets == {DB};
        ThePath(net);
      }
    }
    assert found == if DB in net.targets then only else {};
    ChainCount(net, chains);
  }
}
