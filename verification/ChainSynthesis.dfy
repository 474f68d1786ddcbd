/** `find_chains` of chain.py: choose the findings to graph, cap the out-degree, pick entries and
targets (with their fallbacks), search, and rank the result. */
module ChainSynthesis {
  import opened Capabilities
  import opened ChainGraph
  import opened KillChains
  import opened ChainSearch
  import opened Sorting
  import opened Collections
  import Text

  // ---------- which findings are graphed ----------

  predicate SeverityOrder(a: Finding, b: Finding) {
    SeverityRank(a.severity) <= SeverityRank(b.severity)
  }

  function Eligible(fs: seq<Finding>): seq<Finding> {
    if fs == [] then []
    else
      var f, before := fs[|fs| - 1], Eligible(fs[..|fs| - 1]);
      if !f.falsePositive && f.runtime then before + [f] else before
  }

  lemma {:induction false} EligibleMembers(fs: seq<Finding>, f: Finding)
    ensures f in Eligible(fs) <==> f in fs && !f.falsePositive && f.runtime
  {
    if fs != [] {
      EligibleMembers(fs[..|fs| - 1], f);
      assert fs == fs[..|fs| - 1] + [fs[|fs| - 1]];
    }
  }

  /** `pool` is `all` if that fits. Otherwise it is as many as fit, gravest first; nothing left out
  outranks anything kept, and of findings equally severe the earliest are kept, in their order. */
  ghost predicate MostSevere(all: seq<Finding>, size: nat, pool: seq<Finding>) {
    if |all| <= size then pool == all
    else
      && |pool| == size && multiset(pool) <= multiset(all)
      && SortedBy(pool, SeverityOrder)
      && (forall a, b :: a in pool && b in multiset(all) - multiset(pool) ==> SeverityOrder(a, b))
      && forall x :: Peers(pool, x, SeverityOrder) <= Peers(all, x, SeverityOrder)
  }

  method ChoosePool(fs: seq<Finding>, size: nat) returns (pool: seq<Finding>)
    ensures MostSevere(Eligible(fs), size, pool)
  {
    pool := Eligible(fs);
    if |pool| > size {
      pool := Head(pool, size);
    }
  }

  method Head(all: seq<Finding>, size: nat) returns (pool: seq<Finding>)
    requires |all| > size
    ensures MostSevere(all, size, pool)
  {
    var sorted := Sort(all, SeverityOrder);
    pool := sorted[..size];
    ghost var rest := sorted[size..];
    assert |pool| == size && |rest| == |all| - size > 0;
    assert pool + rest == sorted;
    HeadIsMostSevere(all, pool, rest);
  }

  lemma HeadIsMostSevere(all: seq<Finding>, pool: seq<Finding>, rest: seq<Finding>)
    requires pool + rest == Sort(all, SeverityOrder) && rest != []
    ensures MostSevere(all, |pool|, pool)
  {
    SortSorts(all, SeverityOrder);
    SplitCounts(all, pool, rest);
    HeadOutranks(pool, rest);
    forall x
      ensures Peers(pool, x, SeverityOrder) <= Peers(all, x, SeverityOrder)
    {
      HeadKeepsFirst(all, pool, rest, x);
    }
  }

  lemma HeadKeepsFirst(all: seq<Finding>, pool: seq<Finding>, rest: seq<Finding>, x: Finding)
    requires pool + rest == Sort(all, SeverityOrder)
    ensures Peers(pool, x, SeverityOrder) <= Peers(all, x, SeverityOrder)
  {
    SortIsStable(all, SeverityOrder, x);
    PeersConcat(pool, rest, x, SeverityOrder);
  }

  lemma HeadOutranks(pool: seq<Finding>, rest: seq<Finding>)
    requires SortedBy(pool + rest, SeverityOrder)
    ensures SortedBy(pool, SeverityOrder)
    ensures forall a, b :: a in pool && b in multiset(rest) ==> SeverityOrder(a, b)
  {
    var sorted := pool + rest;
    assert forall i :: 0 <= i < |pool| ==> pool[i] == sorted[i];
    forall a, b | a in pool && b in multiset(rest)
      ensures SeverityOrder(a, b)
    {
      assert b in rest;
      var i :| 0 <= i < |pool| && pool[i] == a;
      var j :| 0 <= j < |rest| && rest[j] == b;
      assert sorted[i] == a && sorted[|pool| + j] == b;
    }
  }

  // ---------- the out-degree cap ----------

  function NodeRank(meta: map<Node, Meta>, n: Node): nat {
    if n in meta && meta[n].FindingMeta? then SeverityRank(meta[n].severity) else 0
  }

  ghost predicate Kept(meta: map<Node, Meta>, all: set<Node>, size: nat, kept: set<Node>) {
    && kept <= all
    && |kept| == (if |all| > size then size else |all|)
    && forall a, b :: a in kept && b in all - kept ==> NodeRank(meta, a) <= NodeRank(meta, b)
  }

  function ByRank(meta: map<Node, Meta>): (Node, Node) -> bool {
    (a: Node, b: Node) => NodeRank(meta, a) <= NodeRank(meta, b)
  }

  /** Of a sorted listing, the front is kept. */
  lemma FrontIsKept(meta: map<Node, Meta>, front: seq<Node>, rest: seq<Node>)
    requires Unrepeated(front + rest) && SortedBy(front + rest, ByRank(meta))
    ensures |Elements(front)| == |front| && Elements(front) <= Elements(front + rest)
    ensures forall a, b :: a in Elements(front) && b in Elements(front + rest) - Elements(front) ==>
      NodeRank(meta, a) <= NodeRank(meta, b)
  {
    var all := front + rest;
    assert forall i :: 0 <= i < |front| ==> all[i] == front[i];
    UnrepeatedSize(front);
    forall a, b | a in front && b in all && b !in front
      ensures NodeRank(meta, a) <= NodeRank(meta, b)
    {
      var i :| 0 <= i < |front| && front[i] == a;
      var j :| 0 <= j < |all| && all[j] == b;
      assert ByRank(meta)(all[i], all[j]);
    }
  }

  method KeepNeighbours(meta: map<Node, Meta>, all: set<Node>, size: nat) returns (kept: set<Node>)
    ensures Kept(meta, all, size, kept)
  {
    kept := all;
    if |all| > size {
      var listed := Enumerate(all);
      var sorted := Sort(listed, ByRank(meta));
      SortSorts(listed, ByRank(meta));
      SortKeepsUnrepeated(listed, ByRank(meta));
      UnrepeatedSize(listed);
      assert sorted == sorted[..size] + sorted[size..];
      FrontIsKept(meta, sorted[..size], sorted[size..]);
      kept := Elements(sorted[..size]);
    }
  }

  ghost predicate Capped(meta: map<Node, Meta>, full: Edges, size: nat, capped: Edges) {
    && capped.Keys == full.Keys
    && forall n :: n in full ==> Kept(meta, full[n], size, capped[n])
  }

  method CapOutDegree(meta: map<Node, Meta>, full: Edges, size: nat) returns (capped: Edges)
    ensures Capped(meta, full, size, capped)
  {
    capped := full;
    var todo := full.Keys;
    while todo != {}
      invariant todo <= full.Keys == capped.Keys
      invariant forall n :: n in todo ==> capped[n] == full[n]
      invariant forall n :: n in full.Keys - todo ==> Kept(meta, full[n], size, capped[n])
      decreases todo
    {
      var src :| src in todo;
      todo := todo - {src};
      var kept := KeepNeighbours(meta, capped[src], size);
      capped := capped[src := kept];
    }
  }

  // ---------- entries, targets and their fallbacks ----------

  const UNAUTHENTICATED := Node(EntryNode, "unauthenticated")
  const TERMINAL_CAPS: set<Cap> := {ClusterAdmin, HostExec, EtcdAccess}

  predicate HighValue(meta: map<Node, Meta>, n: Node) {
    n in meta && meta[n].AssetMeta? && (meta[n].sensitivity == "critical" || meta[n].sensitivity == "high")
  }

  function DeclaredEntries(nodes: set<Node>): set<Node> {
    set n | n in nodes && n.kind == EntryNode
  }

  function DeclaredTargets(nodes: set<Node>, meta: map<Node, Meta>): set<Node> {
    set n | n in nodes && n.kind == AssetNode && HighValue(meta, n)
  }

  function FallbackTargets(nodes: set<Node>, meta: map<Node, Meta>): set<Node> {
    set n | n in nodes && n.kind == FindingNode && TERMINAL_CAPS * Yields(meta, n) != {}
  }

  function OpenFindings(nodes: set<Node>, meta: map<Node, Meta>): set<Node> {
    set n | n in nodes && n.kind == FindingNode && Needs(meta, n) == {}
  }

  /** How the searched network follows from the graph of the pool. */
  ghost predicate Prepared(g: Graph, size: nat, maxLen: int, maxChains: int, capped: Edges, net: Network) {
    && Capped(g.meta, g.edges, size, capped)
    && net.maxLen == maxLen && net.maxChains == maxChains
    && (if DeclaredEntries(g.nodes) != {} then
          net.entries == DeclaredEntries(g.nodes) && net.edges == capped && net.meta == g.meta
        else
          && net.entries == {UNAUTHENTICATED}
          && net.meta == g.meta[UNAUTHENTICATED := EntryMeta({NetPosition})]
          && forall a, b :: HasEdge(net.edges, a, b) <==>
               HasEdge(capped, a, b) || (a == UNAUTHENTICATED && b in OpenFindings(g.nodes, g.meta)))
    && net.targets == (if DeclaredTargets(g.nodes, g.meta) != {} then DeclaredTargets(g.nodes, g.meta)
                       else FallbackTargets(g.nodes, net.meta))
  }

  method Prepare(g: Graph, size: nat, maxLen: int, maxChains: int) returns (net: Network, capped: Edges)
    ensures Prepared(g, size, maxLen, maxChains, capped, net)
  {
    var edges := CapOutDegree(g.meta, g.edges, size);
    capped := edges;
    var meta := g.meta;
    var entries := DeclaredEntries(g.nodes);
    var targets := DeclaredTargets(g.nodes, meta);
    if entries == {} {
      entries := {UNAUTHENTICATED};
      meta := meta[UNAUTHENTICATED := EntryMeta({NetPosition})];
      var open := OpenFindings(g.nodes, g.meta);
      assert open == OpenFindings(g.nodes, meta);
      var todo := open;
      while todo != {}
        invariant todo <= open
        invariant forall a, b :: HasEdge(edges, a, b) <==>
          HasEdge(capped, a, b) || (a == UNAUTHENTICATED && b in open - todo)
        decreases todo
      {
        var fn :| fn in todo;
        todo := todo - {fn};
        edges := AddEdge(edges, UNAUTHENTICATED, fn);
      }
    }
    if targets == {} {
      targets := FallbackTargets(g.nodes, meta);
    }
    net := Network(edges, meta, entries, targets, maxLen, maxChains);
  }

  // ---------- the whole synthesis ----------

  /** Longer finding paths first, then by asset name. */
  predicate ChainOrder(a: Chain, b: Chain) {
    |a.findingIds| > |b.findingIds|
    || (|a.findingIds| == |b.findingIds| && Text.LexLe(a.terminalAsset, b.terminalAsset))
  }

  lemma ChainOrderTotal()
    ensures TotalPreorder(ChainOrder)
  {
    forall a, b
      ensures ChainOrder(a, b) || ChainOrder(b, a)
    {
      Text.LexTotal(a.terminalAsset, b.terminalAsset);
    }
    forall a, b, c | ChainOrder(a, b) && ChainOrder(b, c)
      ensures ChainOrder(a, c)
    {
      if |a.findingIds| == |b.findingIds| == |c.findingIds| {
        Text.LexTransitive(a.terminalAsset, b.terminalAsset, c.terminalAsset);
      }
    }
  }

  lemma ExactUnderPermutation(net: Network, a: seq<Chain>, b: seq<Chain>)
    requires Exact(net, a) && multiset(a) == multiset(b)
    ensures Exact(net, b)
  {
    PermutationMembers(a, b);
    assert |a| == |multiset(a)| && |b| == |multiset(b)|;
    forall i | 0 <= i < |b|
      ensures Reports(net, b[i])
    {
      assert b[i] in a;
      var j :| 0 <= j < |a| && a[j] == b[i];
    }
    assert Reported(a) == Reported(b);
  }

  ghost predicate IdsDiffer(chains: seq<Chain>) {
    forall i, j :: 0 <= i < j < |chains| ==> chains[i].id != chains[j].id
  }

  /** Numbered in the order found, chains are still told apart by number once ranked. */
  lemma RankingKeepsIds(found: seq<Chain>, ranked: seq<Chain>)
    requires Numbered(found) && multiset(found) == multiset(ranked)
    ensures IdsDiffer(ranked)
  {
    PermutationMembers(found, ranked);
    forall i, j | 0 <= i < j < |ranked|
      ensures ranked[i].id != ranked[j].id
    {
      if ranked[i].id == ranked[j].id {
        assert ranked[i] in found && ranked[j] in found;
        TwiceCounted(ranked, i, j);
        OnceCounted(found, ranked[i]);
      }
    }
  }

  /** What a search was run on: the pool, its graph, the capped edges and the network they make. */
  datatype Synthesis = Synthesis(pool: seq<Finding>, graph: Graph, capped: Edges, net: Network)

  /** The network follows from the findings and the threat model, and the chains from the network. */
  ghost predicate Synthesised(findings: seq<Finding>, tm: ThreatModel, maxLen: int, maxChainFindings: nat,
                              maxEdgesPerNode: nat, maxChains: int, s: Synthesis, chains: seq<Chain>) {
    && MostSevere(Eligible(findings), maxChainFindings, s.pool)
    && GraphOf(CAP_IMPLIES, s.pool, tm, s.graph)
    && Prepared(s.graph, maxEdgesPerNode, maxLen, maxChains, s.capped, s.net)
    && Exact(s.net, chains)
    && SortedBy(chains, ChainOrder) && IdsDiffer(chains)
  }

  /** chain.py's `find_chains`. */
  method FindChains(findings: seq<Finding>, tm: ThreatModel,
                    maxLen: int, maxChainFindings: nat, maxEdgesPerNode: nat, maxChains: int)
    returns (chains: seq<Chain>, s: Synthesis)
    ensures Synthesised(findings, tm, maxLen, maxChainFindings, maxEdgesPerNode, maxChains, s, chains)
  {
    var pool := ChoosePool(findings, maxChainFindings);
    var g := BuildGraph(CAP_IMPLIES, pool, tm);
    var net, capped := Prepare(g, maxEdgesPerNode, maxLen, maxChains);
    s := Synthesis(pool, g, capped, net);
    var search := new Search(net);
    search.Run();
    chains := Sort(search.chains, ChainOrder);
    ChainOrderTotal();
    SortSorts(search.chains, ChainOrder);
    ExactUnderPermutation(net, search.chains, chains);
    RankingKeepsIds(search.chains, chains);
  }

  /** The count of reported chains is fixed by the network alone, whatever order the search took. */
  lemma ChainCount(net: Network, chains: seq<Chain>)
    requires Exact(net, chains)
    ensures |chains| == (if |AllSignatures(net)| < Limit(net) then |AllSignatures(net)| else Limit(net))
  {
    if |chains| == Limit(net) {
      SubsetSize(Reported(chains), AllSignatures(net));
    }
  }

  /** Below the cap every kill-chain of the network is represented; two searches of one network
  report the same finding sets. */
  lemma BelowTheCapNothingIsMissed(net: Network, chains: seq<Chain>, q: Path)
    requires Exact(net, chains) && |chains| < Limit(net)
    requires FromEntry(net, q) && KillChain(net, q)
    ensures exists i :: 0 <= i < |chains| && Signature(chains[i].path) == Signature(q)
  {
    AllSignaturesExact(net, Signature(q));
    assert Signature(q) in Reported(chains);
  }
}
