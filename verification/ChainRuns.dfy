/** Two runs of `find_chains` on the same input: which pool, which graph and which capped edges they
search, and when these do not depend on the order sets iterate in. */
module ChainRuns {
  import opened Capabilities
  import opened Sorting
  import opened Text
  import opened ChainGraph
  import opened KillChains
  import opened ChainSearch
  import opened ChainSynthesis
  import opened ChainCap
  import opened ChainSupport

  // ---------- one pool ----------

  lemma {:induction false} PeersHead(s: seq<Finding>, x: Finding)
    requires s != [] && Peer(s[0], x, SeverityOrder)
    ensures Peers(s, x, SeverityOrder) != [] && Peers(s, x, SeverityOrder)[0] == s[0]
  {
    if |s| == 1 {
      assert s[..0] == [];
    } else {
      PeersHead(s[..|s| - 1], x);
    }
  }

  lemma {:induction false} NoPeers(s: seq<Finding>, x: Finding)
    requires forall i :: 0 <= i < |s| ==> !Peer(s[i], x, SeverityOrder)
    ensures Peers(s, x, SeverityOrder) == []
  {
    if s != [] {
      NoPeers(s[..|s| - 1], x);
    }
  }

  lemma {:induction false} PeersCount(s: seq<Finding>, x: Finding)
    ensures multiset(Peers(s, x, SeverityOrder))[x] == multiset(s)[x]
  {
    if s != [] {
      var init, last := s[..|s| - 1], s[|s| - 1];
      PeersCount(init, x);
      assert s == init + [last];
    }
  }

  /** Where `p` goes on with `x`, its `x`-peers do too. */
  lemma PeerAt(p: seq<Finding>, k: nat, x: Finding)
    requires k < |p| && Peer(p[k], x, SeverityOrder)
    ensures var m := |Peers(p[..k], x, SeverityOrder)|;
      m < |Peers(p, x, SeverityOrder)| && Peers(p, x, SeverityOrder)[m] == p[k]
  {
    assert p == p[..k] + p[k..];
    PeersConcat(p[..k], p[k..], x, SeverityOrder);
    PeersHead(p[k..], x);
  }

  /** Once `q` has come to findings less grave than `x`, it has no more peers of `x`. */
  lemma PeersEnd(q: seq<Finding>, k: nat, x: Finding)
    requires SortedBy(q, SeverityOrder) && k < |q| && SeverityRank(x.severity) < SeverityRank(q[k].severity)
    ensures Peers(q, x, SeverityOrder) == Peers(q[..k], x, SeverityOrder)
  {
    assert q == q[..k] + q[k..];
    PeersConcat(q[..k], q[k..], x, SeverityOrder);
    forall i | 0 <= i < |q[k..]|
      ensures !Peer(q[k..][i], x, SeverityOrder)
    {
      assert q[k..][i] == q[k + i];
      assert i > 0 ==> SeverityOrder(q[k], q[k + i]);
    }
    NoPeers(q[k..], x);
  }

  lemma OneLeftOver(all: seq<Finding>, q: seq<Finding>, x: Finding, m: nat)
    requires Peers(q, x, SeverityOrder) <= Peers(all, x, SeverityOrder) && m == |Peers(q, x, SeverityOrder)|
    requires m < |Peers(all, x, SeverityOrder)| && Peers(all, x, SeverityOrder)[m] == x
    ensures multiset(q)[x] < multiset(all)[x]
  {
    PeersCount(q, x);
    PeersCount(all, x);
    var full := Peers(all, x, SeverityOrder);
    assert Peers(q, x, SeverityOrder) == full[..m];
    CountedAgain(full, m);
  }

  lemma CountedAgain(s: seq<Finding>, m: nat)
    requires m < |s|
    ensures multiset(s[..m])[s[m]] < multiset(s)[s[m]]
  {
    assert s == s[..m] + ([s[m]] + s[m + 1..]);
    assert multiset(s) == multiset(s[..m]) + multiset([s[m]] + s[m + 1..]);
  }

  lemma LeftOverOutranked(all: seq<Finding>, size: nat, q: seq<Finding>, x: Finding, y: Finding)
    requires |all| > size && MostSevere(all, size, q) && y in q && multiset(q)[x] < multiset(all)[x]
    ensures SeverityOrder(y, x)
  {
    assert x in multiset(all) - multiset(q);
  }

  lemma NoFirstDifference(all: seq<Finding>, size: nat, p: seq<Finding>, q: seq<Finding>, k: nat)
    requires |all| > size && MostSevere(all, size, p) && MostSevere(all, size, q)
    requires k < size && p[..k] == q[..k] && SeverityRank(p[k].severity) <= SeverityRank(q[k].severity)
    ensures p[k] == q[k]
  {
    var x, y := p[k], q[k];
    var m := |Peers(p[..k], x, SeverityOrder)|;
    PeerAt(p, k, x);
    assert Peers(p, x, SeverityOrder) <= Peers(all, x, SeverityOrder);
    assert Peers(q, x, SeverityOrder) <= Peers(all, x, SeverityOrder);
    if SeverityRank(x.severity) == SeverityRank(y.severity) {
      PeerAt(q, k, x);
    } else {
      PeersEnd(q, k, x);
      OneLeftOver(all, q, x, m);
      LeftOverOutranked(all, size, q, x, y);
    }
  }

  lemma {:induction false} SameUpTo(all: seq<Finding>, size: nat, p: seq<Finding>, q: seq<Finding>, k: nat)
    requires |all| > size && MostSevere(all, size, p) && MostSevere(all, size, q) && k <= size
    ensures p[..k] == q[..k]
  {
    if k > 0 {
      SameUpTo(all, size, p, q, k - 1);
      if SeverityRank(p[k - 1].severity) <= SeverityRank(q[k - 1].severity) {
        NoFirstDifference(all, size, p, q, k - 1);
      } else {
        NoFirstDifference(all, size, q, p, k - 1);
      }
      assert p[..k] == p[..k - 1] + [p[k - 1]] && q[..k] == q[..k - 1] + [q[k - 1]];
    }
  }

  /** There is one pool. */
  lemma PoolUnique(all: seq<Finding>, size: nat, p: seq<Finding>, q: seq<Finding>)
    requires MostSevere(all, size, p) && MostSevere(all, size, q)
    ensures p == q
  {
    if |all| > size {
      SameUpTo(all, size, p, q, size);
      assert p == p[..size] && q == q[..size];
    }
  }

  // ---------- one graph ----------

  ghost predicate SameEdges(x: Edges, y: Edges) {
    forall a, b :: HasEdge(x, a, b) <==> HasEdge(y, a, b)
  }

  /** No finding mentions a name that two assets share in lower case. */
  ghost predicate NoSharedMention(meta: map<Node, Meta>) {
    forall a, x, y :: SharedMention(meta, a, x, y) ==> x == y
  }

  ghost predicate SharedMention(meta: map<Node, Meta>, a: Node, x: Node, y: Node) {
    && x in meta && y in meta && x.kind == AssetNode && y.kind == AssetNode && Lower(x.key) == Lower(y.key)
    && Mentions(meta, a, Lower(x.key))
  }

  lemma ImpactAlike(meta: map<Node, Meta>, i: AssetIndex, j: AssetIndex, a: Node, b: Node)
    requires Indexes(meta, i) && Indexes(meta, j) && NoSharedMention(meta) && ImpactEdge(meta, i, a, b)
    ensures ImpactEdge(meta, j, a, b)
  {
    var name :| name in i && i[name] == b && Mentions(meta, a, name);
    assert Lower(b.key) == name && name in j;
    assert SharedMention(meta, a, b, j[name]);
  }

  lemma GraphsAlike(imp: Implications, findings: seq<Finding>, tm: ThreatModel, g: Graph, g': Graph)
    requires GraphOf(imp, findings, tm, g) && GraphOf(imp, findings, tm, g') && NoSharedMention(g.meta)
    ensures SameEdges(g.edges, g'.edges)
  {
    forall a, b
      ensures HasEdge(g.edges, a, b) <==> HasEdge(g'.edges, a, b)
    {
      if ImpactEdge(g.meta, g.index, a, b) {
        ImpactAlike(g.meta, g.index, g'.index, a, b);
      }
      if ImpactEdge(g.meta, g'.index, a, b) {
        ImpactAlike(g.meta, g'.index, g.index, a, b);
      }
    }
  }

  lemma EdgeEnds(imp: Implications, findings: seq<Finding>, tm: ThreatModel, index: AssetIndex, a: Node, b: Node)
    requires var meta := MetaFor(imp, findings, tm);
      Indexes(meta, index) && Edge(imp, meta, index, tm.entryPoints, a, b)
    ensures a in MetaFor(imp, findings, tm) && b in MetaFor(imp, findings, tm)
  {
    var meta := MetaFor(imp, findings, tm);
    if EntryEdge(imp, meta, tm.entryPoints, a, b) {
      var i :| 0 <= i < |tm.entryPoints| && a == EntryKey(tm.entryPoints[i])
        && Reaches(meta, tm.entryPoints[i], Closure(imp, tm.entryPoints[i].holds), b);
      EntryRecorded(imp, tm.entryPoints, i);
    }
  }

  lemma StillIndexes(meta: map<Node, Meta>, index: AssetIndex, z: Node)
    requires Indexes(meta, index) && z in meta && z.kind == AssetNode
    ensures Indexes(meta, index[Lower(z.key) := z])
  {
  }

  /** The edges the relation asks for. */
  ghost function EdgesFor(imp: Implications, meta: map<Node, Meta>, index: AssetIndex, eps: seq<EntryPoint>): Edges {
    map a | a in meta :: set b | b in meta && Edge(imp, meta, index, eps, a, b)
  }

  lemma EdgesForExact(imp: Implications, findings: seq<Finding>, tm: ThreatModel, index: AssetIndex)
    requires Indexes(MetaFor(imp, findings, tm), index)
    ensures var meta := MetaFor(imp, findings, tm);
      forall a, b :: HasEdge(EdgesFor(imp, meta, index, tm.entryPoints), a, b) <==> Edge(imp, meta, index, tm.entryPoints, a, b)
  {
    var meta := MetaFor(imp, findings, tm);
    forall a, b | Edge(imp, meta, index, tm.entryPoints, a, b)
      ensures a in meta && b in meta
    {
      EdgeEnds(imp, findings, tm, index, a, b);
    }
  }

  /** The graph with another asset in the index. */
  lemma Reindexed(imp: Implications, findings: seq<Finding>, tm: ThreatModel, g: Graph, z: Node) returns (g': Graph)
    requires GraphOf(imp, findings, tm, g) && z in g.meta && z.kind == AssetNode
    ensures GraphOf(imp, findings, tm, g') && g'.index == g.index[Lower(z.key) := z]
  {
    var index := g.index[Lower(z.key) := z];
    StillIndexes(g.meta, g.index, z);
    EdgesForExact(imp, findings, tm, index);
    g' := Graph(g.nodes, EdgesFor(imp, g.meta, index, tm.entryPoints), g.meta, index);
  }

  /** An asset that is not the one indexed under its name has no edge from a finding. */
  lemma OnlyIndexedAssets(imp: Implications, findings: seq<Finding>, tm: ThreatModel, g: Graph, a: Node, z: Node)
    requires GraphOf(imp, findings, tm, g) && a in g.meta && g.meta[a].FindingMeta?
    requires z.kind == AssetNode && Lower(z.key) in g.index && g.index[Lower(z.key)] != z
    ensures !HasEdge(g.edges, a, z)
  {
    assert a.kind == FindingNode;
  }

  lemma OtherwiseIndexed(imp: Implications, findings: seq<Finding>, tm: ThreatModel, g: Graph, size: nat, capped: Edges)
    returns (g': Graph, capped': Edges)
    requires GraphOf(imp, findings, tm, g) && Capped(g.meta, g.edges, size, capped) && size >= 1 && !NoSharedMention(g.meta)
    ensures GraphOf(imp, findings, tm, g') && Capped(g'.meta, g'.edges, size, capped') && !SameEdges(capped, capped')
  {
    var a, x, y :| SharedMention(g.meta, a, x, y) && x != y;
    var name := Lower(x.key);
    var z := if g.index[name] == x then y else x;
    g' := Reindexed(imp, findings, tm, g, z);
    assert g'.index[name] == z;
    IndexedMention(imp, findings, tm, g', a, name);
    OnlyIndexedAssets(imp, findings, tm, g, a, z);
    capped' := CapWith(g'.meta, g'.edges, size, a, z);
    assert HasEdge(capped', a, z);
    assert !HasEdge(capped, a, z);
  }

  lemma IndexedMention(imp: Implications, findings: seq<Finding>, tm: ThreatModel, g: Graph, a: Node, name: string)
    requires GraphOf(imp, findings, tm, g) && name in g.index && Mentions(g.meta, a, name)
    ensures HasEdge(g.edges, a, g.index[name]) && NodeRank(g.meta, g.index[name]) == 0
  {
    assert ImpactEdge(g.meta, g.index, a, g.index[name]);
    assert g.meta[g.index[name]].AssetMeta?;
  }

  // ---------- one searched graph ----------

  lemma CappedAlike(meta: map<Node, Meta>, full: Edges, full': Edges, size: nat, capped: Edges, capped': Edges)
    requires SameEdges(full, full') && Capped(meta, full, size, capped) && Capped(meta, full', size, capped')
    requires forall n :: n in full ==> CleanCut(meta, full[n], size)
    ensures SameEdges(capped, capped')
  {
    forall a, b
      ensures HasEdge(capped, a, b) <==> HasEdge(capped', a, b)
    {
      if HasEdge(capped, a, b) || HasEdge(capped', a, b) {
        assert HasEdge(full, a, b) <==> HasEdge(full', a, b);
        forall c
          ensures c in full[a] <==> c in full'[a]
        {
          assert HasEdge(full, a, c) <==> HasEdge(full', a, c);
        }
        assert full[a] == full'[a];
        CleanlyKept(meta, full[a], size, capped[a], capped'[a]);
      }
    }
  }

  /** What a caller can look up: nothing is kept at all, or no mention is ambiguous and every cut clean. */
  ghost predicate Determined(g: Graph, size: nat) {
    size == 0 || (NoSharedMention(g.meta) && forall n :: n in g.edges ==> CleanCut(g.meta, g.edges[n], size))
  }

  lemma DeterminedAlike(imp: Implications, findings: seq<Finding>, tm: ThreatModel, size: nat,
                        g: Graph, capped: Edges, g': Graph, capped': Edges)
    requires GraphOf(imp, findings, tm, g) && Capped(g.meta, g.edges, size, capped)
    requires GraphOf(imp, findings, tm, g') && Capped(g'.meta, g'.edges, size, capped')
    requires Determined(g, size)
    ensures SameEdges(capped, capped')
  {
    if size == 0 {
      NothingKept(g.meta, g.edges, capped);
      NothingKept(g'.meta, g'.edges, capped');
    } else {
      GraphsAlike(imp, findings, tm, g, g');
      CappedAlike(g.meta, g.edges, g'.edges, size, capped, capped');
    }
  }

  lemma NothingKept(meta: map<Node, Meta>, full: Edges, capped: Edges)
    requires Capped(meta, full, 0, capped)
    ensures forall a, b :: !HasEdge(capped, a, b)
  {
    forall a | a in capped
      ensures capped[a] == {}
    {
      assert Kept(meta, full[a], 0, capped[a]);
    }
  }

  lemma Undetermined(imp: Implications, findings: seq<Finding>, tm: ThreatModel, size: nat, g: Graph, capped: Edges)
    returns (g': Graph, capped': Edges)
    requires GraphOf(imp, findings, tm, g) && Capped(g.meta, g.edges, size, capped) && !Determined(g, size)
    ensures GraphOf(imp, findings, tm, g') && Capped(g'.meta, g'.edges, size, capped') && !SameEdges(capped, capped')
  {
    if !NoSharedMention(g.meta) {
      g', capped' := OtherwiseIndexed(imp, findings, tm, g, size, capped);
    } else {
      var n :| n in g.edges && !CleanCut(g.meta, g.edges[n], size);
      var kept := Exchanged(g.meta, g.edges[n], size, capped[n]);
      g', capped' := g, capped[n := kept];
      var b :| (b in kept) != (b in capped[n]);
      assert HasEdge(capped', n, b) != HasEdge(capped, n, b);
    }
  }

  /** Every run on these findings and this threat model searches the same edges, whatever order sets
  iterate in, exactly when nothing is kept, or no finding mentions a name two assets share in lower
  case and every node's cut is clean. */
  lemma OneSearchedGraphExact(imp: Implications, findings: seq<Finding>, tm: ThreatModel, size: nat, g: Graph, capped: Edges)
    requires GraphOf(imp, findings, tm, g) && Capped(g.meta, g.edges, size, capped)
    ensures (forall g', capped' :: GraphOf(imp, findings, tm, g') && Capped(g'.meta, g'.edges, size, capped') ==>
               SameEdges(capped, capped'))
      <==> Determined(g, size)
  {
    if Determined(g, size) {
      forall g', capped' | GraphOf(imp, findings, tm, g') && Capped(g'.meta, g'.edges, size, capped')
        ensures SameEdges(capped, capped')
      {
        DeterminedAlike(imp, findings, tm, size, g, capped, g', capped');
      }
    } else {
      var g', capped' := Undetermined(imp, findings, tm, size, g, capped);
    }
  }

  // ---------- one answer ----------

  lemma AlikeNetworks(x: Network, y: Network)
    requires SameEdges(x.edges, y.edges) && x.entries == y.entries && x.targets == y.targets && x.maxLen == y.maxLen
    ensures AllSignatures(x) == AllSignatures(y)
  {
    forall s
      ensures s in AllSignatures(x) <==> s in AllSignatures(y)
    {
      AllSignaturesExact(x, s);
      AllSignaturesExact(y, s);
      assert forall q :: KillChain(x, q) <==> KillChain(y, q);
      assert forall q :: FromEntry(x, q) <==> FromEntry(y, q);
    }
  }

  lemma PreparedAlike(g: Graph, g': Graph, size: nat, maxLen: int, maxChains: int, capped: Edges, capped': Edges,
                      net: Network, net': Network)
    requires Prepared(g, size, maxLen, maxChains, capped, net) && Prepared(g', size, maxLen, maxChains, capped', net')
    requires g.nodes == g'.nodes && g.meta == g'.meta && SameEdges(capped, capped')
    ensures AllSignatures(net) == AllSignatures(net') && Limit(net) == Limit(net')
  {
    AlikeNetworks(net, net');
  }

  /** Then two runs on the same findings report equally many chains and, below the cap, the same
  finding sets. */
  lemma SearchesAgree(findings: seq<Finding>, tm: ThreatModel, maxLen: int, maxFindings: nat, maxEdges: nat, maxChains: int,
                      s: Synthesis, chains: seq<Chain>, s': Synthesis, chains': seq<Chain>)
    requires Synthesised(findings, tm, maxLen, maxFindings, maxEdges, maxChains, s, chains)
    requires Synthesised(findings, tm, maxLen, maxFindings, maxEdges, maxChains, s', chains')
    requires Determined(s.graph, maxEdges)
    ensures s.pool == s'.pool && |chains| == |chains'|
    ensures |chains| < Limit(s.net) ==> Reported(chains) == Reported(chains')
  {
    PoolUnique(Eligible(findings), maxFindings, s.pool, s'.pool);
    DeterminedAlike(CAP_IMPLIES, s.pool, tm, maxEdges, s.graph, s.capped, s'.graph, s'.capped);
    PreparedAlike(s.graph, s'.graph, maxEdges, maxLen, maxChains, s.capped, s'.capped, s.net, s'.net);
    ChainCount(s.net, chains);
    ChainCount(s'.net, chains');
  }
}
