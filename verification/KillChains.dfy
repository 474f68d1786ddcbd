/** What an attack chain is, independently of how chain.py searches for one.

A kill-chain is a simple path from an entry point to its first target, at most `maxLen` nodes long,
that passes at least one finding. Two chains count as the same when they use the same findings. */
module KillChains {
  import opened ChainGraph

  type Path = seq<Node>
  type FindingSet = set<Node>

  datatype Network = Network(
    edges: Edges, meta: map<Node, Meta>, entries: set<Node>, targets: set<Node>, maxLen: int, maxChains: int)

  function Signature(p: Path): FindingSet {
    set n | n in p && n.kind == FindingNode
  }

  ghost predicate SimplePath(net: Network, p: Path) {
    && (forall i, j :: 0 <= i < |p| && 0 <= j < |p| && j == i + 1 ==> HasEdge(net.edges, p[i], p[j]))
    && (forall i, j :: 0 <= i < j < |p| ==> p[i] != p[j])
  }

  ghost predicate Live(net: Network, p: Path) {
    && SimplePath(net, p) && |p| >= 1
    && forall i :: 1 <= i < |p| - 1 ==> p[i] !in net.targets
  }

  ghost predicate AtTarget(net: Network, p: Path) {
    |p| > 1 && p[|p| - 1] in net.targets
  }

  ghost predicate KillChain(net: Network, p: Path) {
    Live(net, p) && AtTarget(net, p) && |p| <= net.maxLen && Signature(p) != {}
  }

  function Neighbours(net: Network, n: Node): set<Node> {
    if n in net.edges then net.edges[n] else {}
  }

  function Seen(p: Path): set<Node> {
    set n | n in p
  }

  function Budget(net: Network, p: Path): nat {
    if |p| > net.maxLen then 0 else net.maxLen + 1 - |p|
  }

  /** The finding sets of all kill-chains that continue `p`. */
  ghost function Signatures(net: Network, p: Path): set<FindingSet>
    requires |p| >= 1
    decreases Budget(net, p), 1
  {
    if |p| > net.maxLen then {}
    else if AtTarget(net, p) then
      if Signature(p) == {} then {} else {Signature(p)}
    else
      SignaturesVia(net, p, Neighbours(net, p[|p| - 1]) - Seen(p))
  }

  ghost function SignaturesVia(net: Network, p: Path, via: set<Node>): set<FindingSet>
    requires 1 <= |p| <= net.maxLen
    decreases Budget(net, p), 0
  {
    set n, s | n in via && s in Signatures(net, p + [n]) :: s
  }

  ghost function AllSignatures(net: Network): set<FindingSet> {
    set e, s | e in net.entries && s in Signatures(net, [e]) :: s
  }

  lemma LiveExtends(net: Network, p: Path, n: Node)
    requires Live(net, p) && !AtTarget(net, p)
    requires n in Neighbours(net, p[|p| - 1]) - Seen(p)
    ensures Live(net, p + [n])
  {
    var q := p + [n];
    forall i, j | 0 <= i < |q| && 0 <= j < |q| && j == i + 1
      ensures HasEdge(net.edges, q[i], q[j])
    {
      if j < |p| {
        assert HasEdge(net.edges, p[i], p[j]);
      }
    }
    forall i | 0 <= i < |p|
      ensures q[i] != n
    {
      assert p[i] in Seen(p);
    }
  }

  lemma {:induction false} SignaturesSound(net: Network, p: Path, s: FindingSet) returns (q: Path)
    requires Live(net, p) && s in Signatures(net, p)
    ensures p <= q && KillChain(net, q) && Signature(q) == s
    decreases Budget(net, p)
  {
    if AtTarget(net, p) {
      q := p;
    } else {
      var n :| n in Neighbours(net, p[|p| - 1]) - Seen(p) && s in Signatures(net, p + [n]);
      LiveExtends(net, p, n);
      q := SignaturesSound(net, p + [n], s);
      assert p <= p + [n] <= q;
    }
  }

  lemma {:induction false} SignaturesComplete(net: Network, p: Path, q: Path)
    requires |p| >= 1 && p <= q && KillChain(net, q)
    ensures Signature(q) in Signatures(net, p)
    decreases |q| - |p|
  {
    if |p| == |q| {
      assert p == q;
    } else {
      var n := q[|p|];
      assert p == q[..|p|];
      assert q[|p| - 1] == p[|p| - 1];
      assert HasEdge(net.edges, q[|p| - 1], q[|p|]);
      assert n !in Seen(p);
      assert p + [n] == q[..|p| + 1];
      SignaturesComplete(net, p + [n], q);
    }
  }

  /** The recursive enumeration is exactly the declarative notion. */
  lemma SignaturesExact(net: Network, p: Path, s: FindingSet)
    requires Live(net, p)
    ensures s in Signatures(net, p) <==> exists q :: p <= q && KillChain(net, q) && Signature(q) == s
  {
    if s in Signatures(net, p) {
      var q := SignaturesSound(net, p, s);
    }
    if q :| p <= q && KillChain(net, q) && Signature(q) == s {
      SignaturesComplete(net, p, q);
    }
  }

  ghost predicate FromEntry(net: Network, q: Path) {
    |q| >= 1 && q[0] in net.entries
  }

  lemma AllSignaturesExact(net: Network, s: FindingSet)
    ensures s in AllSignatures(net) <==> exists q :: FromEntry(net, q) && KillChain(net, q) && Signature(q) == s
  {
    if s in AllSignatures(net) {
      var e :| e in net.entries && s in Signatures(net, [e]);
      var q := SignaturesSound(net, [e], s);
      assert q[0] == [e][0];
      assert FromEntry(net, q);
    }
    if q :| FromEntry(net, q) && KillChain(net, q) && Signature(q) == s {
      assert [q[0]] <= q;
      SignaturesComplete(net, [q[0]], q);
    }
  }
}
