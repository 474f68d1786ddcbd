/** Why a reported chain is believable: what each finding on it needs is already held when the
path arrives there, and the capabilities it reports are closed under implication. */
module ChainSupport {
  import opened Capabilities
  import opened ChainGraph
  import opened KillChains
  import opened ChainSearch
  import opened ChainSynthesis

  /** Of several entry points sharing a name, the surviving record holds what each of them held. */
  ghost predicate NoShadowing(imp: Implications, eps: seq<EntryPoint>) {
    forall i :: 0 <= i < |eps| ==>
      Closure(imp, eps[i].holds) <= Yields(EntryMetas(imp, eps), EntryKey(eps[i]))
  }

  /** Every finding an entry point leads to is one whose needs its record covers. */
  ghost predicate EntrySupported(imp: Implications, fs: seq<Finding>, tm: ThreatModel) {
    var meta := MetaFor(imp, fs, tm);
    forall a, b :: EntryEdge(imp, meta, tm.entryPoints, a, b) && b.kind == FindingNode ==>
      Needs(meta, b) <= Yields(meta, a)
  }

  lemma {:induction false} EntryRecorded(imp: Implications, eps: seq<EntryPoint>, i: nat)
    requires i < |eps|
    ensures EntryKey(eps[i]) in EntryMetas(imp, eps)
  {
    if i < |eps| - 1 {
      EntryRecorded(imp, eps[..|eps| - 1], i);
    }
  }

  lemma MetaForEntry(imp: Implications, fs: seq<Finding>, tm: ThreatModel, n: Node)
    requires n.kind == EntryNode
    ensures Yields(MetaFor(imp, fs, tm), n) == Yields(EntryMetas(imp, tm.entryPoints), n)
  {
  }

  /** Support at the entry holds for every set of findings exactly when no entry point shadows a
  stronger one of the same name. */
  lemma EntrySupportExact(imp: Implications, tm: ThreatModel)
    ensures (forall fs :: EntrySupported(imp, fs, tm)) <==> NoShadowing(imp, tm.entryPoints)
  {
    var eps := tm.entryPoints;
    if NoShadowing(imp, eps) {
      forall fs
        ensures EntrySupported(imp, fs, tm)
      {
        UnshadowedSupports(imp, fs, tm);
      }
    }
    if forall fs :: EntrySupported(imp, fs, tm) {
      forall i | 0 <= i < |eps|
        ensures Closure(imp, eps[i].holds) <= Yields(EntryMetas(imp, eps), EntryKey(eps[i]))
      {
        SupportedUnshadows(imp, tm, i);
      }
    }
  }

  lemma UnshadowedSupports(imp: Implications, fs: seq<Finding>, tm: ThreatModel)
    requires NoShadowing(imp, tm.entryPoints)
    ensures EntrySupported(imp, fs, tm)
  {
    var meta, eps := MetaFor(imp, fs, tm), tm.entryPoints;
    forall a, b | EntryEdge(imp, meta, eps, a, b) && b.kind == FindingNode
      ensures Needs(meta, b) <= Yields(meta, a)
    {
      var i :| 0 <= i < |eps| && a == EntryKey(eps[i]) && Reaches(meta, eps[i], Closure(imp, eps[i].holds), b);
      MetaForEntry(imp, fs, tm, a);
    }
  }

  /** The witness is a finding that needs precisely what the shadowed entry point held. */
  lemma SupportedUnshadows(imp: Implications, tm: ThreatModel, i: nat)
    requires i < |tm.entryPoints|
    requires forall fs :: EntrySupported(imp, fs, tm)
    ensures Closure(imp, tm.entryPoints[i].holds) <= Yields(EntryMetas(imp, tm.entryPoints), EntryKey(tm.entryPoints[i]))
  {
    var ep := tm.entryPoints[i];
    var f := Finding("probe", Unranked, false, true, Closure(imp, ep.holds), {}, []);
    var meta := MetaFor(imp, [f], tm);
    assert [f][..0] == [];
    assert FindingKey(f) in FindingMetas(imp, [f]);
    assert Needs(meta, FindingKey(f)) == Closure(imp, ep.holds);
    assert EntrySupported(imp, [f], tm);
    assert EntryEdge(imp, meta, tm.entryPoints, EntryKey(ep), FindingKey(f));
    MetaForEntry(imp, [f], tm, EntryKey(ep));
  }

  /** Distinct names are enough. */
  lemma {:induction false} DistinctNamesDoNotShadow(imp: Implications, eps: seq<EntryPoint>)
    requires forall i, j :: 0 <= i < j < |eps| ==> eps[i].name != eps[j].name
    ensures NoShadowing(imp, eps)
  {
    if eps != [] {
      var init := eps[..|eps| - 1];
      DistinctNamesDoNotShadow(imp, init);
      forall i | 0 <= i < |eps|
        ensures Closure(imp, eps[i].holds) <= Yields(EntryMetas(imp, eps), EntryKey(eps[i]))
      {
        if i < |init| {
          assert init[i] == eps[i];
          assert EntryKey(eps[i]) != EntryKey(eps[|eps| - 1]);
        }
      }
    }
  }

  const SHADOWED := [EntryPoint("api", {NetPosition}, []), EntryPoint("api", {}, [])]
  const SSRF_REACH := Finding("f", High, false, true, {NetPosition}, {Ssrf}, [])

  /** A concrete shadowing: an anonymous entry point and, later, an undescribed one of the same name.
  The first one's edge to a finding that needs a network position stays; the position is gone. */
  lemma ShadowedEntryLosesSupport()
    ensures var tm := ThreatModel([], SHADOWED);
      var meta := MetaFor(CAP_IMPLIES, [SSRF_REACH], tm);
      && !NoShadowing(CAP_IMPLIES, SHADOWED)
      && EntryEdge(CAP_IMPLIES, meta, SHADOWED, EntryKey(SHADOWED[0]), FindingKey(SSRF_REACH))
      && !(Needs(meta, FindingKey(SSRF_REACH)) <= Yields(meta, EntryKey(SHADOWED[0])))
  {
    var tm := ThreatModel([], SHADOWED);
    var meta := MetaFor(CAP_IMPLIES, [SSRF_REACH], tm);
    ClosureFixed(CAP_IMPLIES, {});
    assert EntryKey(SHADOWED[0]) == EntryKey(SHADOWED[1]);
    assert Yields(EntryMetas(CAP_IMPLIES, SHADOWED), EntryKey(SHADOWED[0])) == {};
    MetaForEntry(CAP_IMPLIES, [SSRF_REACH], tm, EntryKey(SHADOWED[0]));
    assert [SSRF_REACH][..0] == [];
    assert FindingKey(SSRF_REACH) in FindingMetas(CAP_IMPLIES, [SSRF_REACH]);
    assert Needs(meta, FindingKey(SSRF_REACH)) == {NetPosition};
    assert NetPosition in Closure(CAP_IMPLIES, SHADOWED[0].holds);
    assert Reaches(meta, SHADOWED[0], Closure(CAP_IMPLIES, SHADOWED[0].holds), FindingKey(SSRF_REACH));
  }

  /** The needs of every finding on the path are covered by the nodes strictly before it. */
  ghost predicate Supported(meta: map<Node, Meta>, p: Path) {
    forall i :: 0 < i < |p| && p[i].kind == FindingNode ==> Needs(meta, p[i]) <= CapsAlong(meta, p[..i])
  }

  lemma CappedIsSubgraph(meta: map<Node, Meta>, full: Edges, size: nat, capped: Edges, a: Node, b: Node)
    requires Capped(meta, full, size, capped) && HasEdge(capped, a, b)
    ensures HasEdge(full, a, b)
  {
  }

  /** Adding the unauthenticated attacker changes no other record. */
  lemma SearchedRecords(g: Graph, size: nat, maxLen: int, maxChains: int, capped: Edges, net: Network, n: Node)
    requires Prepared(g, size, maxLen, maxChains, capped, net)
    ensures Needs(net.meta, n) == Needs(g.meta, n) || n == UNAUTHENTICATED
    ensures Yields(net.meta, n) == Yields(g.meta, n) || (n == UNAUTHENTICATED && Yields(net.meta, n) == {NetPosition})
    ensures DeclaredEntries(g.nodes) != {} ==> net.meta == g.meta
  {
  }

  /** Each step of the searched network is paid for by the node it leaves. */
  lemma StepSupported(findings: seq<Finding>, tm: ThreatModel, g: Graph, size: nat, maxLen: int, maxChains: int,
                      capped: Edges, net: Network, a: Node, b: Node)
    requires GraphOf(CAP_IMPLIES, findings, tm, g)
    requires Prepared(g, size, maxLen, maxChains, capped, net)
    requires NoShadowing(CAP_IMPLIES, tm.entryPoints)
    requires HasEdge(net.edges, a, b) && b.kind == FindingNode
    ensures Needs(net.meta, b) <= Yields(net.meta, a)
  {
    SearchedRecords(g, size, maxLen, maxChains, capped, net, b);
    SearchedRecords(g, size, maxLen, maxChains, capped, net, a);
    if HasEdge(capped, a, b) {
      CappedIsSubgraph(g.meta, g.edges, size, capped, a, b);
      assert Edge(CAP_IMPLIES, g.meta, g.index, tm.entryPoints, a, b);
      if EntryEdge(CAP_IMPLIES, g.meta, tm.entryPoints, a, b) {
        UnshadowedSupports(CAP_IMPLIES, findings, tm);
        var i :| 0 <= i < |tm.entryPoints| && a == EntryKey(tm.entryPoints[i]);
        EntryRecorded(CAP_IMPLIES, tm.entryPoints, i);
        assert a in DeclaredEntries(g.nodes);
      } else {
        assert EscalationEdge(g.meta, a, b);
      }
    }
  }

  /** On a path of the searched network, reaching a finding never presumes a capability the path has
  not yet yielded. */
  lemma PathsSupported(findings: seq<Finding>, tm: ThreatModel, g: Graph, size: nat, maxLen: int, maxChains: int,
                       capped: Edges, net: Network, p: Path)
    requires GraphOf(CAP_IMPLIES, findings, tm, g)
    requires Prepared(g, size, maxLen, maxChains, capped, net)
    requires NoShadowing(CAP_IMPLIES, tm.entryPoints)
    requires forall i :: 0 < i < |p| ==> HasEdge(net.edges, p[i - 1], p[i])
    ensures Supported(net.meta, p)
  {
    forall i | 0 < i < |p| && p[i].kind == FindingNode
      ensures Needs(net.meta, p[i]) <= CapsAlong(net.meta, p[..i])
    {
      assert HasEdge(net.edges, p[i - 1], p[i]);
      StepSupported(findings, tm, g, size, maxLen, maxChains, capped, net, p[i - 1], p[i]);
      assert p[..i][i - 1] == p[i - 1];
    }
  }

  // ---------- closedness ----------

  ghost predicate ClosedRecords(imp: Implications, meta: map<Node, Meta>) {
    forall n :: Closed(imp, Yields(meta, n))
  }

  lemma {:induction false} FindingRecordsClosed(imp: Implications, fs: seq<Finding>)
    ensures ClosedRecords(imp, FindingMetas(imp, fs))
  {
    if fs != [] {
      FindingRecordsClosed(imp, fs[..|fs| - 1]);
      forall n
        ensures Closed(imp, Yields(FindingMetas(imp, fs), n))
      {
        assert Closed(imp, Yields(FindingMetas(imp, fs[..|fs| - 1]), n));
      }
    }
  }

  lemma {:induction false} EntryRecordsClosed(imp: Implications, eps: seq<EntryPoint>)
    ensures ClosedRecords(imp, EntryMetas(imp, eps))
  {
    if eps != [] {
      EntryRecordsClosed(imp, eps[..|eps| - 1]);
      forall n
        ensures Closed(imp, Yields(EntryMetas(imp, eps), n))
      {
        assert Closed(imp, Yields(EntryMetas(imp, eps[..|eps| - 1]), n));
      }
    }
  }

  lemma NetworkRecordsClosed(fs: seq<Finding>, tm: ThreatModel, g: Graph, size: nat, maxLen: int, maxChains: int,
                             capped: Edges, net: Network)
    requires g.meta == MetaFor(CAP_IMPLIES, fs, tm)
    requires Prepared(g, size, maxLen, maxChains, capped, net)
    ensures ClosedRecords(CAP_IMPLIES, net.meta)
  {
    FindingRecordsClosed(CAP_IMPLIES, fs);
    EntryRecordsClosed(CAP_IMPLIES, tm.entryPoints);
    forall n
      ensures Closed(CAP_IMPLIES, Yields(net.meta, n))
    {
      assert Closed(CAP_IMPLIES, Yields(FindingMetas(CAP_IMPLIES, fs), n));
      assert Closed(CAP_IMPLIES, Yields(EntryMetas(CAP_IMPLIES, tm.entryPoints), n));
      SearchedRecords(g, size, maxLen, maxChains, capped, net, n);
      assert NetPosition !in CAP_IMPLIES;
    }
  }

  /** The capability set a search state or a chain carries is already closed, so extending the path
  by a plain union never leaves an implied capability out. */
  lemma {:induction false} CapsAlongClosed(imp: Implications, meta: map<Node, Meta>, p: Path)
    requires ClosedRecords(imp, meta)
    ensures Closed(imp, CapsAlong(meta, p))
  {
    if p == [] {
      assert CapsAlong(meta, p) == {};
    } else {
      var init, last := p[..|p| - 1], p[|p| - 1];
      CapsAlongClosed(imp, meta, init);
      CapsAlongSnoc(meta, init, last);
      assert init + [last] == p;
      assert Closed(imp, Yields(meta, last));
      UnionOfClosedIsClosed(imp, CapsAlong(meta, init), Yields(meta, last));
    }
  }

  /** What a reported chain is worth, from the findings and the threat model to the chain: each
  finding's needs are covered by the nodes strictly before it, and the capabilities it ends with
  are those the path yields, with everything they imply. */
  lemma ReportedChainsSupported(findings: seq<Finding>, tm: ThreatModel, maxLen: int, maxFindings: nat, maxEdges: nat,
                                maxChains: int, s: Synthesis, chains: seq<Chain>, i: nat)
    requires Synthesised(findings, tm, maxLen, maxFindings, maxEdges, maxChains, s, chains)
    requires NoShadowing(CAP_IMPLIES, tm.entryPoints) && i < |chains|
    ensures Supported(s.net.meta, chains[i].path)
    ensures chains[i].capabilities == CapsAlong(s.net.meta, chains[i].path)
    ensures Closed(CAP_IMPLIES, chains[i].capabilities)
  {
    assert Reports(s.net, chains[i]);
    PathsSupported(s.pool, tm, s.graph, maxEdges, maxLen, maxChains, s.capped, s.net, chains[i].path);
    NetworkRecordsClosed(s.pool, tm, s.graph, maxEdges, maxLen, maxChains, s.capped, s.net);
    CapsAlongClosed(CAP_IMPLIES, s.net.meta, chains[i].path);
  }
}
