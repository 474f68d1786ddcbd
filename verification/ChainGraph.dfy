/** The attack graph of chain.py: entry points, findings and assets, with an edge wherever holding
the source's capabilities lets an attacker reach the target.

`BuildGraph` fills the maps in the loops of the original; `Edge` says, without loops, which edges
it must end up with. */
module ChainGraph {
  import opened Capabilities
  import opened Text

  datatype Severity = Critical | High | Medium | Low | Informational | Unranked

  function SeverityRank(s: Severity): nat {
    match s
    case Critical => 0
    case High => 1
    case Medium => 2
    case Low => 3
    case Informational => 4
    case Unranked => 5
  }

  /** A finding as the graph sees it. `needs` and `gives` are the capabilities matched in its
  preconditions and in its text and CWEs; `texts` are its own text and the assets its threats target. */
  datatype Finding = Finding(
    id: string, severity: Severity, falsePositive: bool, runtime: bool,
    needs: set<Cap>, gives: set<Cap>, texts: seq<string>)

  datatype Asset = Asset(name: string, sensitivity: string)
  datatype EntryPoint = EntryPoint(name: string, holds: set<Cap>, reachable: seq<string>)
  datatype ThreatModel = ThreatModel(assets: seq<Asset>, entryPoints: seq<EntryPoint>)

  datatype Kind = EntryNode | FindingNode | AssetNode
  datatype Node = Node(kind: Kind, key: string)

  datatype Meta =
    | EntryMeta(gains: set<Cap>)
    | FindingMeta(needs: set<Cap>, gains: set<Cap>, severity: Severity, texts: seq<string>)
    | AssetMeta(sensitivity: string)

  type Edges = map<Node, set<Node>>

  /** The assets by lower-cased name; of several equal in lower case, one. */
  type AssetIndex = map<string, Node>

  datatype Graph = Graph(nodes: set<Node>, edges: Edges, meta: map<Node, Meta>, index: AssetIndex)

  ghost predicate HasEdge(edges: Edges, a: Node, b: Node) {
    a in edges && b in edges[a]
  }

  function Yields(meta: map<Node, Meta>, n: Node): set<Cap> {
    if n in meta && !meta[n].AssetMeta? then meta[n].gains else {}
  }

  function Needs(meta: map<Node, Meta>, n: Node): set<Cap> {
    if n in meta && meta[n].FindingMeta? then meta[n].needs else {}
  }

  function FindingKey(f: Finding): Node { Node(FindingNode, f.id) }
  function AssetKey(a: Asset): Node { Node(AssetNode, a.name) }
  function EntryKey(e: EntryPoint): Node { Node(EntryNode, e.name) }

  /** Every triage-surviving finding; of two with one id the later record stays. */
  ghost function FindingMetas(imp: Implications, fs: seq<Finding>): (m: map<Node, Meta>)
    ensures forall n :: n in m ==> n.kind == FindingNode && m[n].FindingMeta?
  {
    if fs == [] then map[]
    else
      var f, before := fs[|fs| - 1], FindingMetas(imp, fs[..|fs| - 1]);
      if f.falsePositive then before
      else before[FindingKey(f) := FindingMeta(f.needs, Closure(imp, f.gives), f.severity, f.texts)]
  }

  ghost function AssetMetas(assets: seq<Asset>): (m: map<Node, Meta>)
    ensures forall n :: n in m ==> n.kind == AssetNode && m[n].AssetMeta?
  {
    if assets == [] then map[]
    else
      var a := assets[|assets| - 1];
      AssetMetas(assets[..|assets| - 1])[AssetKey(a) := AssetMeta(a.sensitivity)]
  }

  /** Two entry points of one name share a node; the later declaration overwrites the record. */
  ghost function EntryMetas(imp: Implications, eps: seq<EntryPoint>): (m: map<Node, Meta>)
    ensures forall n :: n in m ==> n.kind == EntryNode && m[n].EntryMeta?
  {
    if eps == [] then map[]
    else
      var e := eps[|eps| - 1];
      EntryMetas(imp, eps[..|eps| - 1])[EntryKey(e) := EntryMeta(Closure(imp, e.holds))]
  }

  ghost function MetaFor(imp: Implications, fs: seq<Finding>, tm: ThreatModel): map<Node, Meta> {
    FindingMetas(imp, fs) + AssetMetas(tm.assets) + EntryMetas(imp, tm.entryPoints)
  }

  /** What one declared entry point lets an attacker reach. */
  ghost predicate Reaches(meta: map<Node, Meta>, ep: EntryPoint, held: set<Cap>, b: Node) {
    b in meta &&
    match b.kind
    case FindingNode => Needs(meta, b) <= held
    case AssetNode => b.key in ep.reachable
    case EntryNode => false
  }

  ghost predicate EntryEdge(imp: Implications, meta: map<Node, Meta>, eps: seq<EntryPoint>, a: Node, b: Node) {
    exists i :: 0 <= i < |eps| && a == EntryKey(eps[i]) && Reaches(meta, eps[i], Closure(imp, eps[i].holds), b)
  }

  ghost predicate EscalationEdge(meta: map<Node, Meta>, a: Node, b: Node) {
    && a in meta && b in meta && a.kind == FindingNode && b.kind == FindingNode
    && a != b && {} != Needs(meta, b) <= Yields(meta, a)
  }

  /** The index is filled from a set, so any of the assets that share a lower-cased name may be in it. */
  ghost predicate Indexes(meta: map<Node, Meta>, index: AssetIndex) {
    && (forall name :: name in index ==>
          index[name] in meta && index[name].kind == AssetNode && Lower(index[name].key) == name)
    && forall n :: n in meta && n.kind == AssetNode ==> Lower(n.key) in index
  }

  /** A finding names an asset if the name stands anywhere in its texts, whatever the case. */
  predicate Mentions(meta: map<Node, Meta>, a: Node, name: string) {
    && a in meta && meta[a].FindingMeta? && name != ""
    && exists i :: 0 <= i < |meta[a].texts| && Contains(Lower(meta[a].texts[i]), name)
  }

  ghost predicate ImpactEdge(meta: map<Node, Meta>, index: AssetIndex, a: Node, b: Node) {
    exists name :: name in index && index[name] == b && Mentions(meta, a, name)
  }

  /** The whole edge relation, in terms of the finished records and the index. */
  ghost predicate Edge(imp: Implications, meta: map<Node, Meta>, index: AssetIndex, eps: seq<EntryPoint>, a: Node, b: Node) {
    EntryEdge(imp, meta, eps, a, b) || EscalationEdge(meta, a, b) || ImpactEdge(meta, index, a, b)
  }

  /** What `build_graph` may return for these findings and this threat model. */
  ghost predicate GraphOf(imp: Implications, findings: seq<Finding>, tm: ThreatModel, g: Graph) {
    && g.meta == MetaFor(imp, findings, tm) && g.nodes == g.meta.Keys && Indexes(g.meta, g.index)
    && forall a, b :: HasEdge(g.edges, a, b) <==> Edge(imp, g.meta, g.index, tm.entryPoints, a, b)
  }

  function AddEdge(edges: Edges, a: Node, b: Node): (r: Edges)
    ensures forall x, y :: HasEdge(r, x, y) <==> HasEdge(edges, x, y) || (x == a && y == b)
  {
    edges[a := (if a in edges then edges[a] else {}) + {b}]
  }

  method RecordFindings(imp: Implications, fs: seq<Finding>) returns (meta: map<Node, Meta>)
    ensures meta == FindingMetas(imp, fs)
  {
    meta := map[];
    for i := 0 to |fs|
      invariant meta == FindingMetas(imp, fs[..i])
    {
      assert fs[..i + 1][..i] == fs[..i];
      if !fs[i].falsePositive {
        var gains := Close(imp, fs[i].gives);
        meta := meta[FindingKey(fs[i]) := FindingMeta(fs[i].needs, gains, fs[i].severity, fs[i].texts)];
      }
    }
    assert fs[..|fs|] == fs;
  }

  method RecordAssets(assets: seq<Asset>) returns (meta: map<Node, Meta>)
    ensures meta == AssetMetas(assets)
  {
    meta := map[];
    for i := 0 to |assets|
      invariant meta == AssetMetas(assets[..i])
    {
      assert assets[..i + 1][..i] == assets[..i];
      meta := meta[AssetKey(assets[i]) := AssetMeta(assets[i].sensitivity)];
    }
    assert assets[..|assets|] == assets;
  }

  method LinkEntry(meta: map<Node, Meta>, ep: EntryPoint, held: set<Cap>, before: Edges) returns (edges: Edges)
    ensures forall x, y :: HasEdge(edges, x, y) <==>
      HasEdge(before, x, y) || (x == EntryKey(ep) && Reaches(meta, ep, held, y))
  {
    edges := before;
    var en := EntryKey(ep);
    var todo := set n | n in meta && n.kind == FindingNode;
    ghost var findings := todo;
    while todo != {}
      invariant todo <= findings
      invariant forall x, y :: HasEdge(edges, x, y) <==>
        HasEdge(before, x, y) || (x == en && y in findings - todo && Reaches(meta, ep, held, y))
      decreases todo
    {
      var fn :| fn in todo;
      todo := todo - {fn};
      if Needs(meta, fn) <= held {
        edges := AddEdge(edges, en, fn);
      }
    }
    ghost var afterFindings := edges;
    for i := 0 to |ep.reachable|
      invariant forall x, y :: HasEdge(edges, x, y) <==>
        HasEdge(afterFindings, x, y) ||
        (x == en && y.kind == AssetNode && y.key in ep.reachable[..i] && Reaches(meta, ep, held, y))
    {
      var an := Node(AssetNode, ep.reachable[i]);
      if an in meta {
        edges := AddEdge(edges, en, an);
      }
    }
    assert ep.reachable[..|ep.reachable|] == ep.reachable;
  }

  method LinkFindings(meta: map<Node, Meta>, before: Edges) returns (edges: Edges)
    ensures forall x, y :: HasEdge(edges, x, y) <==> HasEdge(before, x, y) || EscalationEdge(meta, x, y)
  {
    edges := before;
    var fnodes := set n | n in meta && n.kind == FindingNode;
    var todo := fnodes;
    while todo != {}
      invariant todo <= fnodes
      invariant forall x, y :: HasEdge(edges, x, y) <==>
        HasEdge(before, x, y) || (x !in todo && EscalationEdge(meta, x, y))
      decreases todo
    {
      var a :| a in todo;
      todo := todo - {a};
      ghost var outer := edges;
      var rest := fnodes;
      while rest != {}
        invariant rest <= fnodes
        invariant forall x, y :: HasEdge(edges, x, y) <==>
          HasEdge(outer, x, y) || (x == a && y !in rest && EscalationEdge(meta, x, y))
        decreases rest
      {
        var b :| b in rest;
        rest := rest - {b};
        if a != b && {} != Needs(meta, b) <= Yields(meta, a) {
          edges := AddEdge(edges, a, b);
        }
      }
    }
  }

  /** `asset_names`: a later node of the same lower-cased name takes the place of an earlier one. */
  method IndexAssets(meta: map<Node, Meta>) returns (index: AssetIndex)
    ensures Indexes(meta, index)
  {
    index := map[];
    var anodes := set n | n in meta && n.kind == AssetNode;
    var todo := anodes;
    while todo != {}
      invariant todo <= anodes
      invariant forall name :: name in index ==> index[name] in anodes && Lower(index[name].key) == name
      invariant forall n :: n in anodes - todo ==> Lower(n.key) in index
      decreases todo
    {
      var an :| an in todo;
      todo := todo - {an};
      index := index[Lower(an.key) := an];
    }
  }

  method LinkAssets(meta: map<Node, Meta>, index: AssetIndex, before: Edges) returns (edges: Edges)
    ensures forall x, y :: HasEdge(edges, x, y) <==> HasEdge(before, x, y) || ImpactEdge(meta, index, x, y)
  {
    edges := before;
    var fnodes := set n | n in meta && meta[n].FindingMeta?;
    var todo := fnodes;
    while todo != {}
      invariant todo <= fnodes
      invariant forall x, y :: HasEdge(edges, x, y) <==>
        HasEdge(before, x, y) || (x !in todo && ImpactEdge(meta, index, x, y))
      decreases todo
    {
      var fn :| fn in todo;
      todo := todo - {fn};
      edges := LinkMentions(meta, index, fn, edges);
    }
  }

  method LinkMentions(meta: map<Node, Meta>, index: AssetIndex, fn: Node, before: Edges) returns (edges: Edges)
    ensures forall x, y :: HasEdge(edges, x, y) <==> HasEdge(before, x, y) || (x == fn && ImpactEdge(meta, index, x, y))
  {
    edges := before;
    var rest := index.Keys;
    while rest != {}
      invariant rest <= index.Keys
      invariant forall x, y :: HasEdge(edges, x, y) <==>
        HasEdge(before, x, y) || (x == fn && exists name :: name in index.Keys - rest && index[name] == y && Mentions(meta, fn, name))
      decreases rest
    {
      var name :| name in rest;
      ghost var earlier := index.Keys - rest;
      rest := rest - {name};
      assert index.Keys - rest == earlier + {name};
      if Mentions(meta, fn, name) {
        edges := AddEdge(edges, fn, index[name]);
      }
    }
  }

  ghost predicate SameTargets(m: map<Node, Meta>, m': map<Node, Meta>) {
    forall n: Node :: n.kind != EntryNode ==> (n in m <==> n in m') && (n in m ==> m[n] == m'[n])
  }

  ghost predicate EntryEdgesAre(edges: Edges, imp: Implications, m: map<Node, Meta>, eps: seq<EntryPoint>) {
    forall x, y :: HasEdge(edges, x, y) <==> EntryEdge(imp, m, eps, x, y)
  }

  ghost predicate EntriesDone(imp: Implications, fixed: map<Node, Meta>, eps: seq<EntryPoint>, meta: map<Node, Meta>, edges: Edges) {
    meta == fixed + EntryMetas(imp, eps) && SameTargets(fixed, meta) && EntryEdgesAre(edges, imp, fixed, eps)
  }

  method LinkNext(imp: Implications, ghost fixed: map<Node, Meta>, ghost done: seq<EntryPoint>, ep: EntryPoint,
                  before: map<Node, Meta>, prior: Edges)
    returns (meta: map<Node, Meta>, edges: Edges)
    requires EntriesDone(imp, fixed, done, before, prior)
    ensures EntriesDone(imp, fixed, done + [ep], meta, edges)
  {
    var held := Close(imp, ep.holds);
    meta := before[EntryKey(ep) := EntryMeta(held)];
    assert (done + [ep])[..|done|] == done;
    edges := LinkEntry(meta, ep, held, prior);
    LinkedOneMore(imp, fixed, meta, done, ep, prior, edges);
  }

  method LinkEntries(imp: Implications, fixed: map<Node, Meta>, eps: seq<EntryPoint>)
    returns (meta: map<Node, Meta>, edges: Edges)
    ensures meta == fixed + EntryMetas(imp, eps)
    ensures EntryEdgesAre(edges, imp, meta, eps)
  {
    meta := fixed;
    edges := map[];
    for i := 0 to |eps|
      invariant EntriesDone(imp, fixed, eps[..i], meta, edges)
    {
      assert eps[..i] + [eps[i]] == eps[..i + 1];
      meta, edges := LinkNext(imp, fixed, eps[..i], eps[i], meta, edges);
    }
    assert eps[..|eps|] == eps;
    EntryEdgesUnmoved(imp, fixed, meta, eps);
  }

  /** chain.py's `build_graph`. */
  method BuildGraph(imp: Implications, findings: seq<Finding>, tm: ThreatModel) returns (g: Graph)
    ensures GraphOf(imp, findings, tm, g)
  {
    var fmeta := RecordFindings(imp, findings);
    var ameta := RecordAssets(tm.assets);
    var meta, edges := LinkEntries(imp, fmeta + ameta, tm.entryPoints);
    edges := LinkFindings(meta, edges);
    var index := IndexAssets(meta);
    edges := LinkAssets(meta, index, edges);
    g := Graph(meta.Keys, edges, meta, index);
  }

  lemma LinkedOneMore(imp: Implications, fixed: map<Node, Meta>, meta: map<Node, Meta>, eps: seq<EntryPoint>,
                      ep: EntryPoint, before: Edges, after: Edges)
    requires SameTargets(fixed, meta)
    requires EntryEdgesAre(before, imp, fixed, eps)
    requires forall x, y :: HasEdge(after, x, y) <==>
      HasEdge(before, x, y) || (x == EntryKey(ep) && Reaches(meta, ep, Closure(imp, ep.holds), y))
    ensures EntryEdgesAre(after, imp, fixed, eps + [ep])
  {
    EntryEdgeSnoc(imp, fixed, eps, ep);
    forall y
      ensures Reaches(meta, ep, Closure(imp, ep.holds), y) <==> Reaches(fixed, ep, Closure(imp, ep.holds), y)
    {
    }
  }

  /** A new entry record changes no edge of the earlier ones: targets are findings and assets. */
  lemma EntryEdgesUnmoved(imp: Implications, m: map<Node, Meta>, m': map<Node, Meta>, eps: seq<EntryPoint>)
    requires SameTargets(m, m')
    ensures forall x, y :: EntryEdge(imp, m, eps, x, y) <==> EntryEdge(imp, m', eps, x, y)
  {
    forall ep: EntryPoint, held, b
      ensures Reaches(m, ep, held, b) <==> Reaches(m', ep, held, b)
    {
    }
  }

  lemma EntryEdgeSnoc(imp: Implications, m: map<Node, Meta>, eps: seq<EntryPoint>, ep: EntryPoint)
    ensures forall x, y :: EntryEdge(imp, m, eps + [ep], x, y) <==>
      EntryEdge(imp, m, eps, x, y) || (x == EntryKey(ep) && Reaches(m, ep, Closure(imp, ep.holds), y))
  {
    var all := eps + [ep];
    forall x, y
      ensures EntryEdge(imp, m, all, x, y) <==>
        EntryEdge(imp, m, eps, x, y) || (x == EntryKey(ep) && Reaches(m, ep, Closure(imp, ep.holds), y))
    {
      if x == EntryKey(ep) && Reaches(m, ep, Closure(imp, ep.holds), y) {
        assert all[|eps|] == ep;
      } else if EntryEdge(imp, m, eps, x, y) {
        var i :| 0 <= i < |eps| && x == EntryKey(eps[i]) && Reaches(m, eps[i], Closure(imp, eps[i].holds), y);
        assert all[i] == eps[i];
      }
    }
  }
}
