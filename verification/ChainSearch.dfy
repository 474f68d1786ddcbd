/** chain.py's depth-first search: a shared result list, a set of finding sets already reported,
a length bound and a hard cap. Neighbours and entries are Python sets, so they are visited in an
arbitrary order; everything proved here holds for every order. */
module ChainSearch {
  import opened Capabilities
  import opened ChainGraph
  import opened KillChains

  datatype Chain = Chain(
    id: nat, entryPoint: string, terminalAsset: string, path: Path,
    findingIds: seq<string>, capabilities: set<Cap>)

  function FindingIds(p: Path): seq<string> {
    if p == [] then []
    else
      var last, before := p[|p| - 1], FindingIds(p[..|p| - 1]);
      if last.kind == FindingNode then before + [last.key] else before
  }

  ghost function CapsAlong(meta: map<Node, Meta>, p: Path): set<Cap> {
    set i, c | 0 <= i < |p| && c in Yields(meta, p[i]) :: c
  }

  lemma CapsAlongSnoc(meta: map<Node, Meta>, p: Path, n: Node)
    ensures CapsAlong(meta, p + [n]) == CapsAlong(meta, p) + Yields(meta, n)
  {
    var q := p + [n];
    forall c | c in CapsAlong(meta, p)
      ensures c in CapsAlong(meta, q)
    {
      var i :| 0 <= i < |p| && c in Yields(meta, p[i]);
      assert q[i] == p[i];
    }
    forall c | c in Yields(meta, n)
      ensures c in CapsAlong(meta, q)
    {
      assert q[|p|] == n;
    }
  }

  /** A record tells the truth about a kill-chain that starts at an entry point. */
  ghost predicate Reports(net: Network, c: Chain) {
    && KillChain(net, c.path) && FromEntry(net, c.path)
    && c.entryPoint == c.path[0].key
    && c.terminalAsset == c.path[|c.path| - 1].key
    && c.findingIds == FindingIds(c.path)
    && c.capabilities == CapsAlong(net.meta, c.path)
  }

  ghost function Reported(chains: seq<Chain>): set<FindingSet> {
    set c | c in chains :: Signature(c.path)
  }

  function Limit(net: Network): nat {
    if net.maxChains <= 0 then 0 else net.maxChains
  }

  ghost predicate Numbered(chains: seq<Chain>) {
    forall i :: 0 <= i < |chains| ==> chains[i].id == i + 1
  }

  /** The answer to a chain search, up to the order of the list. */
  ghost predicate Exact(net: Network, chains: seq<Chain>) {
    && (forall i :: 0 <= i < |chains| ==> Reports(net, chains[i]))
    && |Reported(chains)| == |chains|
    && Reported(chains) <= AllSignatures(net)
    && |chains| <= Limit(net)
    && (|chains| < Limit(net) ==> Reported(chains) == AllSignatures(net))
  }

  /** What holds of the result list and the dedup set after every step: each record in turn is a
  numbered kill-chain whose finding set no earlier record has. */
  ghost predicate Ledger(net: Network, chains: seq<Chain>, seen: set<FindingSet>) {
    if chains == [] then seen == {}
    else
      var c := chains[|chains| - 1];
      && Reports(net, c) && c.id == |chains| <= Limit(net)
      && Signature(c.path) in seen
      && Ledger(net, chains[..|chains| - 1], seen - {Signature(c.path)})
  }

  lemma LedgerAppend(net: Network, chains: seq<Chain>, seen: set<FindingSet>, c: Chain)
    requires Ledger(net, chains, seen) && |chains| < net.maxChains
    requires Reports(net, c) && c.id == |chains| + 1 && Signature(c.path) !in seen
    ensures Ledger(net, chains + [c], seen + {Signature(c.path)})
  {
    assert (chains + [c])[..|chains|] == chains;
    assert seen + {Signature(c.path)} - {Signature(c.path)} == seen;
  }

  lemma {:induction false} LedgerReports(net: Network, chains: seq<Chain>, seen: set<FindingSet>, i: nat)
    requires Ledger(net, chains, seen) && i < |chains|
    ensures Reports(net, chains[i]) && chains[i].id == i + 1
  {
    var before, c := chains[..|chains| - 1], chains[|chains| - 1];
    if i < |before| {
      LedgerReports(net, before, seen - {Signature(c.path)}, i);
      assert chains[i] == before[i];
    }
  }

  lemma {:induction false} LedgerCounts(net: Network, chains: seq<Chain>, seen: set<FindingSet>)
    requires Ledger(net, chains, seen)
    ensures seen == Reported(chains)
    ensures |seen| == |chains| <= Limit(net)
  {
    if chains == [] {
      assert Reported(chains) == {};
    } else {
      var before, c := chains[..|chains| - 1], chains[|chains| - 1];
      LedgerCounts(net, before, seen - {Signature(c.path)});
      assert chains == before + [c];
      ReportedSnoc(before, c);
    }
  }

  lemma ReportedSnoc(before: seq<Chain>, c: Chain)
    ensures Reported(before + [c]) == Reported(before) + {Signature(c.path)}
  {
    assert forall d :: d in before + [c] <==> d in before || d == c;
  }

  lemma ViaSnoc(net: Network, p: Path, via: set<Node>, n: Node)
    requires 1 <= |p| <= net.maxLen
    ensures SignaturesVia(net, p, via + {n}) == SignaturesVia(net, p, via) + Signatures(net, p + [n])
  {
    assert n in via + {n};
  }

  lemma ViaSkips(todo: set<Node>, all: set<Node>, n: Node, p: Path)
    requires todo <= all && n in todo
    ensures all - (todo - {n}) - Seen(p) ==
      if n in p then all - todo - Seen(p) else (all - todo - Seen(p)) + {n}
  {
  }

  ghost function SignaturesOf(net: Network, entries: set<Node>): set<FindingSet> {
    set e, s | e in entries && s in Signatures(net, [e]) :: s
  }

  lemma OfSnoc(net: Network, done: set<Node>, e: Node)
    ensures SignaturesOf(net, done + {e}) == SignaturesOf(net, done) + Signatures(net, [e])
  {
    assert e in done + {e};
  }

  lemma CapsAtEntry(meta: map<Node, Meta>, e: Node)
    ensures CapsAlong(meta, [e]) == Yields(meta, e)
  {
    assert [e][0] == e;
  }

  /** A stretch of search that started from `before` has found only sets in `goal`, and all of
  them unless the cap stopped it. */
  ghost predicate Explored(net: Network, found: nat, before: set<FindingSet>, after: set<FindingSet>, goal: set<FindingSet>) {
    && before <= after <= before + goal
    && (found < net.maxChains ==> after == before + goal)
  }

  lemma ExploredThen(net: Network, m: nat, n: nat, s0: set<FindingSet>, s1: set<FindingSet>, s2: set<FindingSet>,
                     a: set<FindingSet>, b: set<FindingSet>)
    requires m <= n && Explored(net, m, s0, s1, a) && Explored(net, n, s1, s2, b)
    ensures Explored(net, n, s0, s2, a + b)
  {
  }

  class Search {
    const net: Network
    var chains: seq<Chain>
    var seenPaths: set<FindingSet>

    ghost predicate Consistent()
      reads this
    {
      Ledger(net, chains, seenPaths)
    }

    constructor (net: Network)
      ensures this.net == net && chains == [] && Consistent()
    {
      this.net := net;
      chains := [];
      seenPaths := {};
    }

    method Dfs(node: Node, path: Path, caps: set<Cap>)
      requires Consistent()
      requires Live(net, path) && FromEntry(net, path)
      requires node == path[|path| - 1] && caps == CapsAlong(net.meta, path)
      modifies this
      ensures Consistent()
      ensures old(chains) <= chains
      ensures Explored(net, |chains|, old(seenPaths), seenPaths, Signatures(net, path))
      decreases Budget(net, path), 1
    {
      if |chains| >= net.maxChains {
        return;
      }
      if |path| > net.maxLen {
        return;
      }
      if node in net.targets && |path| > 1 {
        var sig := Signature(path);
        if sig == {} || sig in seenPaths {
          return;
        }
        var c := Chain(|chains| + 1, path[0].key, node.key, path, FindingIds(path), caps);
        LedgerAppend(net, chains, seenPaths, c);
        seenPaths := seenPaths + {sig};
        chains := chains + [c];
        return;
      }
      Expand(node, path, caps);
    }

    method Expand(node: Node, path: Path, caps: set<Cap>)
      requires Consistent()
      requires Live(net, path) && FromEntry(net, path) && !AtTarget(net, path) && |path| <= net.maxLen
      requires node == path[|path| - 1] && caps == CapsAlong(net.meta, path)
      modifies this
      ensures Consistent()
      ensures old(chains) <= chains
      ensures Explored(net, |chains|, old(seenPaths), seenPaths,
                       SignaturesVia(net, path, Neighbours(net, node) - Seen(path)))
      decreases Budget(net, path), 0
    {
      var todo := Neighbours(net, node);
      ghost var all, via: set<Node> := todo, {};
      while todo != {}
        invariant Consistent()
        invariant todo <= all && via == all - todo - Seen(path)
        invariant old(chains) <= chains
        invariant Explored(net, |chains|, old(seenPaths), seenPaths, SignaturesVia(net, path, via))
        decreases todo
      {
        var nxt :| nxt in todo;
        ViaSkips(todo, all, nxt, path);
        todo := todo - {nxt};
        if nxt in path {
          continue;
        }
        LiveExtends(net, path, nxt);
        CapsAlongSnoc(net.meta, path, nxt);
        ViaSnoc(net, path, via, nxt);
        ghost var m, mid := |chains|, seenPaths;
        Dfs(nxt, path + [nxt], caps + Yields(net.meta, nxt));
        ExploredThen(net, m, |chains|, old(seenPaths), mid, seenPaths,
                     SignaturesVia(net, path, via), Signatures(net, path + [nxt]));
        via := via + {nxt};
      }
      assert via == all - Seen(path);
    }

    method Run()
      requires chains == [] && Consistent()
      modifies this
      ensures Exact(net, chains) && Numbered(chains)
    {
      var todo := net.entries;
      ghost var done: set<Node> := {};
      while todo != {}
        invariant Consistent()
        invariant todo <= net.entries && done == net.entries - todo
        invariant Explored(net, |chains|, {}, seenPaths, SignaturesOf(net, done))
        decreases todo
      {
        if |chains| >= net.maxChains {
          break;
        }
        var e :| e in todo;
        todo := todo - {e};
        OfSnoc(net, done, e);
        CapsAtEntry(net.meta, e);
        ghost var m, mid := |chains|, seenPaths;
        Dfs(e, [e], Yields(net.meta, e));
        ExploredThen(net, m, |chains|, {}, mid, seenPaths, SignaturesOf(net, done), Signatures(net, [e]));
        done := done + {e};
      }
      SearchDone(net, chains, seenPaths, done);
    }
  }

  lemma LedgerNumbers(net: Network, chains: seq<Chain>, seen: set<FindingSet>)
    requires Ledger(net, chains, seen)
    ensures Numbered(chains) && forall i :: 0 <= i < |chains| ==> Reports(net, chains[i])
  {
    forall i | 0 <= i < |chains|
      ensures Reports(net, chains[i]) && chains[i].id == i + 1
    {
      LedgerReports(net, chains, seen, i);
    }
  }

  lemma SearchDone(net: Network, chains: seq<Chain>, seen: set<FindingSet>, done: set<Node>)
    requires Ledger(net, chains, seen) && done <= net.entries
    requires Explored(net, |chains|, {}, seen, SignaturesOf(net, done))
    requires |chains| < net.maxChains ==> done == net.entries
    ensures Exact(net, chains) && Numbered(chains)
  {
    LedgerNumbers(net, chains, seen);
    LedgerCounts(net, chains, seen);
    AllExplored(net, |chains|, seen, done);
  }

  lemma AllExplored(net: Network, n: nat, seen: set<FindingSet>, done: set<Node>)
    requires done <= net.entries && Explored(net, n, {}, seen, SignaturesOf(net, done))
    requires n < net.maxChains ==> done == net.entries
    ensures seen <= AllSignatures(net) && (n < Limit(net) ==> seen == AllSignatures(net))
  {
    OfAll(net, done);
  }

  lemma OfAll(net: Network, done: set<Node>)
    requires done <= net.entries
    ensures SignaturesOf(net, done) <= AllSignatures(net)
    ensures done == net.entries ==> SignaturesOf(net, done) == AllSignatures(net)
  {
  }
}
