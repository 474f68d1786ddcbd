/** The figures of a snapshot are sums over findings, and the ownership cuts, computed in a traversal of
their own, share them out. */
module TrendTotals {
  import opened Options
  import opened Replay
  import opened TrendFlows
  import opened Collections

  // ---------- sums over findings ----------

  ghost function Total(items: seq<Item>, w: Item -> real): real {
    if items == [] then 0.0 else Total(items[..|items| - 1], w) + w(items[|items| - 1])
  }

  lemma {:induction false} TotalConcat(a: seq<Item>, b: seq<Item>, w: Item -> real)
    ensures Total(a + b, w) == Total(a, w) + Total(b, w)
  {
    if b == [] {
      assert a + b == a;
    } else {
      TotalConcat(a, b[..|b| - 1], w);
      assert (a + b)[..|a + b| - 1] == a + b[..|b| - 1];
    }
  }

  lemma {:induction false} TotalSame(items: seq<Item>, v: Item -> real, w: Item -> real)
    requires forall x :: x in items ==> v(x) == w(x)
    ensures Total(items, v) == Total(items, w)
  {
    if items != [] {
      var init := items[..|items| - 1];
      assert items == init + [items[|items| - 1]];
      TotalSame(init, v, w);
    }
  }

  lemma {:induction false} TotalNone(items: seq<Item>, w: Item -> real)
    requires forall x :: x in items ==> w(x) == 0.0
    ensures Total(items, w) == 0.0
  {
    if items != [] {
      var init := items[..|items| - 1];
      assert items == init + [items[|items| - 1]];
      TotalNone(init, w);
    }
  }

  lemma {:induction false} TotalSplits(items: seq<Item>, v: Item -> real, w: Item -> real, both: Item -> real)
    requires forall x :: both(x) == v(x) + w(x)
    ensures Total(items, both) == Total(items, v) + Total(items, w)
  {
    if items != [] {
      TotalSplits(items[..|items| - 1], v, w, both);
    }
  }

  // ---------- the figures of a snapshot ----------

  /** Every table entry and every risk sum of a snapshot. */
  datatype Column =
    | OpenFindings | OpenOf(severity: string) | OpenRated(band: Band) | OpenRisk
    | HardeningRisk | AcceptedOf(grade: string) | AcceptedRisk

  function Figure(t: Tallies, c: Column): real {
    match c
    case OpenFindings => t.open as real
    case OpenOf(s) => t.openBySev[s] as real
    case OpenRated(b) => t.owaspOpen[b] as real
    case OpenRisk => t.risk
    case HardeningRisk => t.hardeningRisk
    case AcceptedOf(s) => t.acceptedBySev[s] as real
    case AcceptedRisk => t.acceptedRisk
  }

  function When(b: bool, w: real): real {
    if b then w else 0.0
  }

  /** What one finding weighs in a column: its state decides whether, its score how much. */
  function Share(c: Column, f: Facts): real {
    match c
    case OpenFindings => When(f.state == Open, 1.0)
    case OpenOf(s) => When(f.state == Open && f.severity == s, 1.0)
    case OpenRated(b) => When(f.state == Open && f.band == b, 1.0)
    case OpenRisk => When(f.state == Open, f.cvss)
    case HardeningRisk => When(f.state == Hardening, f.lambda * f.cvss)
    case AcceptedOf(s) => When(f.state == Accepted && f.severity == s, 1.0)
    case AcceptedRisk => When(f.state == Accepted, f.cvss)
  }

  function ShareIn(rules: Rules, key: string, c: Column): Item -> real {
    (x: Item) => Share(c, FactsOf(rules, key, x))
  }

  lemma TallyShares(t: Tallies, was: Option<State>, f: Facts, c: Column)
    ensures Figure(Tally(t, was, f), c) == Figure(t, c) + Share(c, f)
  {
    if f.state == Open {
      OpenShares(t, was, f, c);
    } else {
      OtherShares(t, was, f, c);
    }
  }

  lemma OpenShares(t: Tallies, was: Option<State>, f: Facts, c: Column)
    requires f.state == Open
    ensures Figure(Tally(t, was, f), c) == Figure(t, c) + Share(c, f)
  {
  }

  lemma OtherShares(t: Tallies, was: Option<State>, f: Facts, c: Column)
    requires f.state != Open
    ensures Figure(Tally(t, was, f), c) == Figure(t, c) + Share(c, f)
  {
  }

  lemma {:induction false} FiguresTotal(rules: Rules, key: string, p: Pass, items: seq<Item>, c: Column)
    ensures Figure(ObserveAll(rules, key, p, items).tallies, c) == Figure(p.tallies, c) + Total(items, ShareIn(rules, key, c))
  {
    if items != [] {
      var init, item := items[..|items| - 1], items[|items| - 1];
      FiguresTotal(rules, key, p, init, c);
      var q := ObserveAll(rules, key, p, init);
      TallyShares(q.tallies, Before(q.prev, item.Fid()), FactsOf(rules, key, item), c);
    }
  }

  /** The share of a finding of a repo audited by the end of the bucket. */
  function Weight(rules: Rules, key: string, c: Column, x: Item): real {
    When(Born(rules, x.repo, key), Share(c, FactsOf(rules, key, x)))
  }

  function BornShare(rules: Rules, key: string, c: Column): Item -> real {
    (x: Item) => Weight(rules, key, c, x)
  }

  lemma {:induction false} PopulationTotal(rules: Rules, repos: seq<Repo>, key: string, c: Column)
    ensures Total(Population(rules, repos, key), ShareIn(rules, key, c)) == Total(Everything(repos), BornShare(rules, key, c))
  {
    if repos != [] {
      var init, r := repos[..|repos| - 1], repos[|repos| - 1];
      PopulationTotal(rules, init, key, c);
      TotalConcat(Everything(init), ItemsOf(r, r.findings), BornShare(rules, key, c));
      TotalConcat(Population(rules, init, key), ItemsOf(r, r.findings), ShareIn(rules, key, c));
      OwnShares(rules, key, r, c);
    }
  }

  lemma OwnShares(rules: Rules, key: string, r: Repo, c: Column)
    ensures Total(ItemsOf(r, r.findings), BornShare(rules, key, c))
         == if Born(rules, r, key) then Total(ItemsOf(r, r.findings), ShareIn(rules, key, c)) else 0.0
  {
    var own := ItemsOf(r, r.findings);
    forall x | x in own
      ensures x.repo == r
    {
      ItemsOfRepo(r, r.findings, x);
    }
    if Born(rules, r, key) {
      TotalSame(own, BornShare(rules, key, c), ShareIn(rules, key, c));
    } else {
      TotalNone(own, BornShare(rules, key, c));
    }
  }

  lemma NothingFigures(c: Column)
    ensures Figure(NOTHING, c) == 0.0
  {
  }

  lemma BucketFigures(rules: Rules, repos: seq<Repo>, key: string, prev: Previous, c: Column)
    ensures Figure(BucketPass(rules, repos, key, prev).tallies, c)
         == Total(Population(rules, repos, key), ShareIn(rules, key, c))
  {
    NothingFigures(c);
    FiguresTotal(rules, key, Pass(NOTHING, prev), Population(rules, repos, key), c);
  }

  /** Each table entry and risk sum of a snapshot is the total over all findings of the repos audited
  by then, whatever was carried over from earlier buckets. */
  lemma SnapshotFigures(rules: Rules, repos: seq<Repo>, keys: seq<string>, c: Column)
    requires keys != []
    ensures Figure(LastTallies(rules, repos, keys), c)
         == Total(Everything(repos), BornShare(rules, keys[|keys| - 1], c))
  {
    var key := keys[|keys| - 1];
    var prev := Series(rules, repos, keys[..|keys| - 1]).prev;
    assert LastTallies(rules, repos, keys) == BucketPass(rules, repos, key, prev).tallies;
    BucketFigures(rules, repos, key, prev, c);
    PopulationTotal(rules, repos, key, c);
  }

  // ---------- ownership cuts ----------

  /** The columns a cut has too. */
  predicate Cutting(c: Column) {
    match c
    case OpenFindings => true
    case OpenOf(s) => s == "critical" || s == "high"
    case OpenRisk => true
    case _ => false
  }

  function CutFigure(u: Cut, c: Column): real
    requires Cutting(c)
  {
    match c
    case OpenFindings => u.open as real
    case OpenOf(s) => if s == "critical" then u.openCritical as real else u.openHigh as real
    case OpenRisk => u.risk
  }

  lemma CutShares(rules: Rules, key: string, u: Cut, x: Item, c: Column)
    requires Cutting(c)
    ensures CutFigure(CutFinding(rules, key, u, x), c) == CutFigure(u, c) + Share(c, FactsOf(rules, key, x))
    ensures CutFinding(rules, key, u, x).repos == u.repos
  {
  }

  lemma {:induction false} CutItemsTotal(rules: Rules, key: string, u: Cut, items: seq<Item>, c: Column)
    requires Cutting(c)
    ensures CutFigure(CutItems(rules, key, u, items), c) == CutFigure(u, c) + Total(items, ShareIn(rules, key, c))
    ensures CutItems(rules, key, u, items).repos == u.repos
  {
    if items != [] {
      var init := items[..|items| - 1];
      CutItemsTotal(rules, key, u, init, c);
      CutShares(rules, key, CutItems(rules, key, u, init), items[|items| - 1], c);
    }
  }

  lemma CutRepoTotal(rules: Rules, key: string, u: Cut, r: Repo, c: Column)
    requires Cutting(c)
    ensures CutFigure(CutRepo(rules, key, u, r), c) == CutFigure(u, c) + Total(ItemsOf(r, r.findings), BornShare(rules, key, c))
  {
    OwnShares(rules, key, r, c);
    if Born(rules, r, key) {
      var ledgered := u.ledgered + (if r.hasLayer && r.layerStart.Some? then 1 else 0);
      CutItemsTotal(rules, key, u.(repos := u.repos + 1, ledgered := ledgered), ItemsOf(r, r.findings), c);
    }
  }

  lemma CutRepoCounted(rules: Rules, key: string, u: Cut, r: Repo)
    ensures CutRepo(rules, key, u, r).repos == u.repos + (if Born(rules, r, key) then 1 else 0)
  {
    if Born(rules, r, key) {
      var ledgered := u.ledgered + (if r.hasLayer && r.layerStart.Some? then 1 else 0);
      CutItemsTotal(rules, key, u.(repos := u.repos + 1, ledgered := ledgered), ItemsOf(r, r.findings), OpenFindings);
    }
  }

  /** The share of a finding of one tree, or of one of several. */
  function TreeShare(rules: Rules, key: string, tree: string, c: Column): Item -> real {
    (x: Item) => When(TreeOf(x.repo) == tree, Weight(rules, key, c, x))
  }

  function TreesShare(rules: Rules, key: string, trees: seq<string>, c: Column): Item -> real {
    (x: Item) => When(TreeOf(x.repo) in trees, Weight(rules, key, c, x))
  }

  lemma OwnTree(rules: Rules, key: string, r: Repo, tree: string, c: Column)
    ensures Total(ItemsOf(r, r.findings), TreeShare(rules, key, tree, c))
         == When(TreeOf(r) == tree, Total(ItemsOf(r, r.findings), BornShare(rules, key, c)))
  {
    var own := ItemsOf(r, r.findings);
    forall x | x in own
      ensures x.repo == r
    {
      ItemsOfRepo(r, r.findings, x);
    }
    if TreeOf(r) == tree {
      TotalSame(own, TreeShare(rules, key, tree, c), BornShare(rules, key, c));
    } else {
      forall x | x in own
        ensures TreeShare(rules, key, tree, c)(x) == 0.0
      {
        assert TreeOf(x.repo) != tree;
      }
      TotalNone(own, TreeShare(rules, key, tree, c));
    }
  }

  lemma {:induction false} CutTotal(rules: Rules, key: string, repos: seq<Repo>, tree: string, c: Column)
    requires Cutting(c)
    ensures CutFigure(CutOf(rules, key, repos, tree), c) == Total(Everything(repos), TreeShare(rules, key, tree, c))
  {
    if repos != [] {
      var init, r := repos[..|repos| - 1], repos[|repos| - 1];
      CutTotal(rules, key, init, tree, c);
      TotalConcat(Everything(init), ItemsOf(r, r.findings), TreeShare(rules, key, tree, c));
      OwnTree(rules, key, r, tree, c);
      CutRepoTotal(rules, key, CutOf(rules, key, init, tree), r, c);
    }
  }

  ghost predicate Listing(trees: seq<string>, repos: seq<Repo>) {
    Unrepeated(trees) && forall r :: r in repos ==> TreeOf(r) in trees
  }

  ghost function FigureSum(rules: Rules, key: string, repos: seq<Repo>, trees: seq<string>, c: Column): real
    requires Cutting(c)
  {
    if trees == [] then 0.0
    else FigureSum(rules, key, repos, trees[..|trees| - 1], c) + CutFigure(CutOf(rules, key, repos, trees[|trees| - 1]), c)
  }

  ghost function ReposSum(rules: Rules, key: string, repos: seq<Repo>, trees: seq<string>): nat {
    if trees == [] then 0
    else ReposSum(rules, key, repos, trees[..|trees| - 1]) + CutOf(rules, key, repos, trees[|trees| - 1]).repos
  }

  lemma NoTrees(rules: Rules, key: string, items: seq<Item>, c: Column)
    ensures Total(items, TreesShare(rules, key, [], c)) == 0.0
  {
    forall x | x in items
      ensures TreesShare(rules, key, [], c)(x) == 0.0
    {
      assert TreeOf(x.repo) !in [];
    }
    TotalNone(items, TreesShare(rules, key, [], c));
  }

  lemma OneMoreTree(rules: Rules, key: string, items: seq<Item>, trees: seq<string>, tree: string, c: Column)
    requires tree !in trees
    ensures Total(items, TreesShare(rules, key, trees + [tree], c))
         == Total(items, TreesShare(rules, key, trees, c)) + Total(items, TreeShare(rules, key, tree, c))
  {
    var v, w, both := TreesShare(rules, key, trees, c), TreeShare(rules, key, tree, c), TreesShare(rules, key, trees + [tree], c);
    forall x: Item
      ensures both(x) == v(x) + w(x)
    {
      var t := TreeOf(x.repo);
      assert t in trees + [tree] <==> t in trees || t == tree;
    }
    TotalSplits(items, v, w, both);
  }

  lemma {:induction false} FigureSumTotal(rules: Rules, key: string, repos: seq<Repo>, trees: seq<string>, c: Column)
    requires Cutting(c) && Unrepeated(trees)
    ensures FigureSum(rules, key, repos, trees, c) == Total(Everything(repos), TreesShare(rules, key, trees, c))
  {
    var all := Everything(repos);
    if trees == [] {
      NoTrees(rules, key, all, c);
    } else {
      var init, last := trees[..|trees| - 1], trees[|trees| - 1];
      FigureSumTotal(rules, key, repos, init, c);
      CutTotal(rules, key, repos, last, c);
      assert trees == init + [last] && last !in init;
      OneMoreTree(rules, key, all, init, last, c);
    }
  }

  lemma {:induction false} EverythingMembers(repos: seq<Repo>, x: Item)
    requires x in Everything(repos)
    ensures x.repo in repos
  {
    var init, r := repos[..|repos| - 1], repos[|repos| - 1];
    assert repos == init + [r];
    if x in Everything(init) {
      EverythingMembers(init, x);
    } else {
      ItemsOfRepo(r, r.findings, x);
    }
  }

  lemma {:induction false} ReposSumAddsUp(rules: Rules, key: string, repos: seq<Repo>, trees: seq<string>)
    requires Listing(trees, repos)
    ensures ReposSum(rules, key, repos, trees) == RepoCountsOf(rules, key, repos).audited
  {
    if repos == [] {
      NoRepos(rules, key, trees);
    } else {
      var init, r := repos[..|repos| - 1], repos[|repos| - 1];
      assert repos == init + [r];
      ReposSumAddsUp(rules, key, init, trees);
      RepoAddsOnce(rules, key, repos, trees);
    }
  }

  lemma {:induction false} NoRepos(rules: Rules, key: string, trees: seq<string>)
    ensures ReposSum(rules, key, [], trees) == 0
  {
    if trees != [] {
      NoRepos(rules, key, trees[..|trees| - 1]);
    }
  }

  lemma {:induction false} RepoAddsOnce(rules: Rules, key: string, repos: seq<Repo>, trees: seq<string>)
    requires repos != [] && Unrepeated(trees)
    ensures var init, r := repos[..|repos| - 1], repos[|repos| - 1];
      ReposSum(rules, key, repos, trees) == ReposSum(rules, key, init, trees)
        + (if TreeOf(r) in trees && Born(rules, r, key) then 1 else 0)
  {
    if trees != [] {
      var fewer, last := trees[..|trees| - 1], trees[|trees| - 1];
      var init, r := repos[..|repos| - 1], repos[|repos| - 1];
      RepoAddsOnce(rules, key, repos, fewer);
      assert trees == fewer + [last] && last !in fewer;
      CutRepoCounted(rules, key, CutOf(rules, key, init, last), r);
    }
  }

  /** Two traversals, one total: over any listing of the trees without repetition, the open, critical,
  high and risk figures of the cuts, and their repo counts, sum to those of the last snapshot. */
  lemma CutsSumToLastSnapshot(rules: Rules, repos: seq<Repo>, keys: seq<string>, trees: seq<string>, c: Column)
    requires keys != [] && Listing(trees, repos) && Cutting(c)
    ensures FigureSum(rules, keys[|keys| - 1], repos, trees, c) == Figure(LastTallies(rules, repos, keys), c)
    ensures ReposSum(rules, keys[|keys| - 1], repos, trees) == RepoCountsOf(rules, keys[|keys| - 1], repos).audited
  {
    var key := keys[|keys| - 1];
    FigureSumTotal(rules, key, repos, trees, c);
    ReposSumAddsUp(rules, key, repos, trees);
    SnapshotFigures(rules, repos, keys, c);
    forall x | x in Everything(repos)
      ensures TreeOf(x.repo) in trees
    {
      EverythingMembers(repos, x);
    }
    TotalSame(Everything(repos), TreesShare(rules, key, trees, c), BornShare(rules, key, c));
  }
}
