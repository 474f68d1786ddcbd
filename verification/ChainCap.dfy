/** Which neighbours the out-degree cap of chain.py keeps: when every entry and asset survives, and when
the choice is forced. */
module ChainCap {
  import opened Collections
  import opened ChainGraph
  import opened ChainSynthesis
  import Text

  /** What is no finding, and so ranks with the gravest of them. */
  function Unranked(meta: map<Node, Meta>, all: set<Node>): set<Node> {
    set n | n in all && !(n in meta && meta[n].FindingMeta?)
  }

  /** Those that come before rank `t`. */
  function Before(meta: map<Node, Meta>, all: set<Node>, t: nat): set<Node> {
    set n | n in all && NodeRank(meta, n) < t
  }

  lemma {:induction false} SubsetOfSize<T>(s: set<T>, k: nat) returns (t: set<T>)
    requires k <= |s|
    ensures t <= s && |t| == k
    decreases |s|
  {
    if k == |s| {
      t := s;
    } else {
      var x :| x in s;
      t := SubsetOfSize(s - {x}, k);
    }
  }

  lemma {:induction false} LeastRank(meta: map<Node, Meta>, s: set<Node>) returns (b: Node)
    requires s != {}
    ensures b in s && forall c :: c in s ==> NodeRank(meta, b) <= NodeRank(meta, c)
    decreases |s|
  {
    b :| b in s;
    var rest := s - {b};
    if rest != {} {
      var c := LeastRank(meta, rest);
      if NodeRank(meta, c) < NodeRank(meta, b) {
        b := c;
      }
    }
  }

  // ---------- entries and assets ----------

  /** Whatever order ties are broken in, the cap keeps every entry and asset among the neighbours
  exactly when nothing is cut, or no more neighbours than fit rank with them, or there is none. */
  lemma AlwaysKeptExact(meta: map<Node, Meta>, all: set<Node>, size: nat)
    ensures (forall kept :: Kept(meta, all, size, kept) ==> Unranked(meta, all) <= kept) <==>
      |all| <= size || |Before(meta, all, 1)| <= size || Unranked(meta, all) == {}
  {
    if |all| <= size || |Before(meta, all, 1)| <= size || Unranked(meta, all) == {} {
      forall kept | Kept(meta, all, size, kept)
        ensures Unranked(meta, all) <= kept
      {
        UnrankedFit(meta, all, size, kept);
      }
    } else {
      var kept := WithoutOne(meta, all, size);
    }
  }

  lemma UnrankedFit(meta: map<Node, Meta>, all: set<Node>, size: nat, kept: set<Node>)
    requires Kept(meta, all, size, kept)
    requires |all| <= size || |Before(meta, all, 1)| <= size || Unranked(meta, all) == {}
    ensures Unranked(meta, all) <= kept
  {
    if |all| <= size {
      SubsetSize(kept, all);
    } else if n :| n in Unranked(meta, all) && n !in kept {
      assert n in all - kept && NodeRank(meta, n) == 0;
      assert kept <= Before(meta, all, 1) - {n};
      SubsetSize(kept, Before(meta, all, 1) - {n});
    }
  }

  lemma WithoutOne(meta: map<Node, Meta>, all: set<Node>, size: nat) returns (kept: set<Node>)
    requires |all| > size && |Before(meta, all, 1)| > size && Unranked(meta, all) != {}
    ensures Kept(meta, all, size, kept) && !(Unranked(meta, all) <= kept)
  {
    var n :| n in Unranked(meta, all);
    assert n in Before(meta, all, 1);
    kept := SubsetOfSize(Before(meta, all, 1) - {n}, size);
    assert n !in kept;
  }

  // ---------- ties ----------

  /** No two neighbours of equal rank fall on either side of the cut. */
  ghost predicate CleanCut(meta: map<Node, Meta>, all: set<Node>, size: nat) {
    |all| <= size || exists t: nat :: |Before(meta, all, t)| == size
  }

  lemma CleanCutKeeps(meta: map<Node, Meta>, all: set<Node>, size: nat, t: nat, kept: set<Node>)
    requires |Before(meta, all, t)| == size < |all| && Kept(meta, all, size, kept)
    ensures kept == Before(meta, all, t)
  {
    var top := Before(meta, all, t);
    if a :| a in top && a !in kept {
      assert a in all - kept;
      assert kept <= top;
      SubsetSize(kept, top);
    }
    SubsetSize(top, kept);
  }

  /** If the cut is not clean, one of those kept can be exchanged for one dropped. */
  lemma Exchanged(meta: map<Node, Meta>, all: set<Node>, size: nat, kept: set<Node>) returns (other: set<Node>)
    requires Kept(meta, all, size, kept) && !CleanCut(meta, all, size)
    ensures Kept(meta, all, size, other) && other != kept
  {
    var dropped := all - kept;
    assert all == kept + dropped && |all| == |kept| + |dropped|;
    var b := LeastRank(meta, dropped);
    var t := NodeRank(meta, b);
    assert Before(meta, all, t) <= kept;
    assert Before(meta, all, t) != kept;
    var a :| a in kept && a !in Before(meta, all, t);
    assert NodeRank(meta, a) == t;
    other := kept - {a} + {b};
    assert |other| == |kept|;
    assert b in other && b !in kept;
  }

  lemma KeptUniqueExact(meta: map<Node, Meta>, all: set<Node>, size: nat, kept: set<Node>)
    requires Kept(meta, all, size, kept)
    ensures (forall other :: Kept(meta, all, size, other) ==> other == kept) <==> CleanCut(meta, all, size)
  {
    if CleanCut(meta, all, size) {
      forall other | Kept(meta, all, size, other)
        ensures other == kept
      {
        CleanlyKept(meta, all, size, kept, other);
      }
    } else {
      var other := Exchanged(meta, all, size, kept);
    }
  }

  lemma CleanlyKept(meta: map<Node, Meta>, all: set<Node>, size: nat, kept: set<Node>, other: set<Node>)
    requires CleanCut(meta, all, size) && Kept(meta, all, size, kept) && Kept(meta, all, size, other)
    ensures other == kept
  {
    if |all| <= size {
      SubsetSize(kept, all);
      SubsetSize(other, all);
    } else {
      var t: nat :| |Before(meta, all, t)| == size;
      CleanCutKeeps(meta, all, size, t, kept);
      CleanCutKeeps(meta, all, size, t, other);
    }
  }

  lemma CleanlyCapped(meta: map<Node, Meta>, full: Edges, size: nat, capped: Edges, other: Edges)
    requires Capped(meta, full, size, capped) && Capped(meta, full, size, other)
    requires forall n :: n in full ==> CleanCut(meta, full[n], size)
    ensures other == capped
  {
    forall n | n in full
      ensures other[n] == capped[n]
    {
      CleanlyKept(meta, full[n], size, capped[n], other[n]);
    }
  }

  lemma OtherwiseCapped(meta: map<Node, Meta>, full: Edges, size: nat, capped: Edges, n: Node) returns (other: Edges)
    requires Capped(meta, full, size, capped) && n in full && !CleanCut(meta, full[n], size)
    ensures Capped(meta, full, size, other) && other != capped
  {
    var kept := Exchanged(meta, full[n], size, capped[n]);
    other := capped[n := kept];
    assert other[n] != capped[n];
  }

  /** Of one graph, the cap leaves the same edges whatever order ties fall in exactly when every node's
  cut is clean. */
  lemma CappedUniqueExact(meta: map<Node, Meta>, full: Edges, size: nat, capped: Edges)
    requires Capped(meta, full, size, capped)
    ensures (forall other :: Capped(meta, full, size, other) ==> other == capped) <==>
      forall n :: n in full ==> CleanCut(meta, full[n], size)
  {
    if n :| n in full && !CleanCut(meta, full[n], size) {
      var other := OtherwiseCapped(meta, full, size, capped, n);
    } else {
      forall other | Capped(meta, full, size, other)
        ensures other == capped
      {
        CleanlyCapped(meta, full, size, capped, other);
      }
    }
  }

  // ---------- some choice of the cap ----------

  lemma {:induction false} KeptExists(meta: map<Node, Meta>, all: set<Node>, size: nat) returns (kept: set<Node>)
    ensures Kept(meta, all, size, kept)
    decreases |all|
  {
    if |all| <= size {
      kept := all;
    } else if size == 0 {
      kept := {};
    } else {
      var b := LeastRank(meta, all);
      kept := KeptExists(meta, all - {b}, size - 1);
      kept := kept + {b};
    }
  }

  lemma KeptWith(meta: map<Node, Meta>, all: set<Node>, size: nat, n: Node) returns (kept: set<Node>)
    requires n in all && NodeRank(meta, n) == 0 && size >= 1
    ensures Kept(meta, all, size, kept) && n in kept
  {
    kept := KeptExists(meta, all - {n}, size - 1);
    kept := kept + {n};
  }

  lemma CapExists(meta: map<Node, Meta>, full: Edges, size: nat) returns (capped: Edges)
    ensures Capped(meta, full, size, capped)
  {
    forall n | n in full
      ensures exists kept :: Kept(meta, full[n], size, kept)
    {
      var kept := KeptExists(meta, full[n], size);
    }
    capped := map n | n in full :: var kept :| Kept(meta, full[n], size, kept); kept;
  }

  /** A neighbour that nothing outranks survives in some order. */
  lemma CapWith(meta: map<Node, Meta>, full: Edges, size: nat, a: Node, n: Node) returns (capped: Edges)
    requires HasEdge(full, a, n) && NodeRank(meta, n) == 0 && size >= 1
    ensures Capped(meta, full, size, capped) && HasEdge(capped, a, n)
  {
    capped := CapExists(meta, full, size);
    var kept := KeptWith(meta, full[a], size, n);
    capped := capped[a := kept];
  }

  // ---------- nine assets and room for eight ----------

  function NamedAssets(n: nat): seq<Node> {
    seq(n, i requires 0 <= i < n => Node(AssetNode, Text.Decimal(i)))
  }

  function Sensitive(all: set<Node>): map<Node, Meta> {
    map n | n in all :: AssetMeta("critical")
  }

  /** With the planner's cap of eight, an entry point that reaches nine critical assets loses one. */
  lemma NinthAssetIsCut()
    ensures var all := Elements(NamedAssets(9));
      && Node(AssetNode, "8") in all
      && Kept(Sensitive(all), all, 8, all - {Node(AssetNode, "8")})
  {
    var s := NamedAssets(9);
    forall i, j | 0 <= i < j < 9
      ensures s[i] != s[j]
    {
      if s[i] == s[j] {
        Text.DecimalInjective(i, j);
      }
    }
    UnrepeatedSize(s);
    assert s[8].key == Text.Decimal(8) == "8";
    assert s[8] in Elements(s);
  }
}
