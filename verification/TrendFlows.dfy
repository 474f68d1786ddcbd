/** Stocks and flows of the trend series balance. */
module TrendFlows {
  import opened Options
  import opened Text
  import opened Replay
  import opened TrendHistory

  // ---------- counting ----------

  ghost function Count(items: seq<Item>, p: Item -> bool): nat {
    if items == [] then 0
    else Count(items[..|items| - 1], p) + (if p(items[|items| - 1]) then 1 else 0)
  }

  lemma {:induction false} CountConcat(a: seq<Item>, b: seq<Item>, p: Item -> bool)
    ensures Count(a + b, p) == Count(a, p) + Count(b, p)
  {
    if b == [] {
      assert a + b == a;
    } else {
      CountConcat(a, b[..|b| - 1], p);
      assert (a + b)[..|a + b| - 1] == a + b[..|b| - 1];
    }
  }

  lemma {:induction false} CountSame(items: seq<Item>, p: Item -> bool, q: Item -> bool)
    requires forall x :: x in items ==> p(x) == q(x)
    ensures Count(items, p) == Count(items, q)
  {
    if items != [] {
      var init := items[..|items| - 1];
      assert items == init + [items[|items| - 1]];
      CountSame(init, p, q);
    }
  }

  lemma {:induction false} CountNone(items: seq<Item>, p: Item -> bool)
    requires forall x :: x in items ==> !p(x)
    ensures Count(items, p) == 0
  {
    if items != [] {
      var init := items[..|items| - 1];
      assert items == init + [items[|items| - 1]];
      CountNone(init, p);
    }
  }

  function Gained(now: Item -> bool, before: Item -> bool): Item -> bool {
    (x: Item) => now(x) && !before(x)
  }

  /** What a stock gains beyond what it loses is its change. */
  lemma {:induction false} Balance(items: seq<Item>, now: Item -> bool, before: Item -> bool)
    ensures Count(items, now) + Count(items, Gained(before, now))
         == Count(items, before) + Count(items, Gained(now, before))
  {
    if items != [] {
      Balance(items[..|items| - 1], now, before);
    }
  }

  // ---------- stocks ----------

  function InState(rules: Rules, key: string, s: State): Item -> bool {
    x => ItemState(rules, x, key) == s
  }

  function Stock(t: Tallies, s: State): nat {
    match s
    case Open => t.open
    case Hardening => t.hardening
    case Closed => t.closed
    case Accepted => t.accepted
    case FalsePositive => t.falsePositives
  }

  /** The counters of findings entering a stock. */
  function Flow(t: Tallies, s: State): nat
    requires s in {Closed, Accepted, FalsePositive}
  {
    if s == Closed then t.closedNew else if s == Accepted then t.acceptedNew else t.fpNew
  }

  /** One finding adds one to the stock of its state, and to its flow if it was not there before. */
  lemma TallyMoves(t: Tallies, was: Option<State>, f: Facts, s: State)
    ensures Stock(Tally(t, was, f), s) == Stock(t, s) + (if f.state == s then 1 else 0)
    ensures s in {Closed, Accepted, FalsePositive} ==>
      Flow(Tally(t, was, f), s) == Flow(t, s) + (if f.state == s && was != Some(s) then 1 else 0)
  {
  }

  /** Each stock of a snapshot is the number of findings in that state. */
  lemma {:induction false} StocksCount(rules: Rules, key: string, p: Pass, items: seq<Item>, s: State)
    ensures Stock(ObserveAll(rules, key, p, items).tallies, s) == Stock(p.tallies, s) + Count(items, InState(rules, key, s))
  {
    if items != [] {
      var init, item := items[..|items| - 1], items[|items| - 1];
      StocksCount(rules, key, p, init, s);
      var q := ObserveAll(rules, key, p, init);
      TallyMoves(q.tallies, Before(q.prev, item.Fid()), FactsOf(rules, key, item), s);
    }
  }

  /** The five stocks come to `n`, and the severity and OWASP tables add up to theirs. */
  ghost predicate AddsUp(t: Tallies, n: nat) {
    && t.open + t.hardening + t.closed + t.accepted + t.falsePositives == n
    && |t.openBySev| == |t.owaspOpen| == t.open
    && |t.acceptedBySev| == t.accepted
  }

  lemma TallyAddsUp(t: Tallies, was: Option<State>, f: Facts, n: nat)
    requires AddsUp(t, n)
    ensures AddsUp(Tally(t, was, f), n + 1)
  {
    match f.state
    case Open =>
      OneMore(t.openBySev, f.severity);
      OneMore(t.owaspOpen, f.band);
    case Accepted =>
      OneMore(t.acceptedBySev, f.severity);
    case _ =>
  }

  lemma OneMore<T>(m: multiset<T>, x: T)
    ensures |m + multiset{x}| == |m| + 1
  {
  }

  lemma {:induction false} StocksPartition(rules: Rules, key: string, prev: Previous, items: seq<Item>)
    ensures AddsUp(ObserveAll(rules, key, Pass(NOTHING, prev), items).tallies, |items|)
  {
    if items != [] {
      var init, item := items[..|items| - 1], items[|items| - 1];
      StocksPartition(rules, key, prev, init);
      var p := ObserveAll(rules, key, Pass(NOTHING, prev), init);
      TallyAddsUp(p.tallies, Before(p.prev, item.Fid()), FactsOf(rules, key, item), |init|);
    }
  }

  // ---------- which findings are which ----------

  ghost function Everything(repos: seq<Repo>): seq<Item> {
    if repos == [] then []
    else Everything(repos[..|repos| - 1]) + ItemsOf(repos[|repos| - 1], repos[|repos| - 1].findings)
  }

  ghost predicate Distinct(items: seq<Item>) {
    forall i, j :: 0 <= i < j < |items| ==> items[i].Fid() != items[j].Fid()
  }

  lemma {:induction false} ItemsOfRepo(r: Repo, findings: seq<Finding>, x: Item)
    requires x in ItemsOf(r, findings)
    ensures x.repo == r
  {
    var init := findings[..|findings| - 1];
    if x in ItemsOf(r, init) {
      ItemsOfRepo(r, init, x);
    }
  }

  function Alive(rules: Rules, key: string, p: Item -> bool): Item -> bool {
    (x: Item) => Born(rules, x.repo, key) && p(x)
  }

  lemma {:induction false} PopulationCount(rules: Rules, repos: seq<Repo>, key: string, p: Item -> bool)
    ensures Count(Population(rules, repos, key), p) == Count(Everything(repos), Alive(rules, key, p))
  {
    if repos != [] {
      var init, r := repos[..|repos| - 1], repos[|repos| - 1];
      var own := ItemsOf(r, r.findings);
      PopulationCount(rules, init, key, p);
      CountConcat(Everything(init), own, Alive(rules, key, p));
      forall x | x in own
        ensures x.repo == r
      {
        ItemsOfRepo(r, r.findings, x);
      }
      if Born(rules, r, key) {
        CountConcat(Population(rules, init, key), own, p);
        CountSame(own, p, Alive(rules, key, p));
      } else {
        CountNone(own, Alive(rules, key, p));
      }
    }
  }

  lemma {:induction false} PopulationMembers(rules: Rules, repos: seq<Repo>, key: string, x: Item)
    ensures x in Population(rules, repos, key) <==> x in Everything(repos) && Born(rules, x.repo, key)
  {
    if repos != [] {
      var init, r := repos[..|repos| - 1], repos[|repos| - 1];
      PopulationMembers(rules, init, key, x);
      if x in ItemsOf(r, r.findings) {
        ItemsOfRepo(r, r.findings, x);
      }
    }
  }

  lemma DistinctConcat(a: seq<Item>, b: seq<Item>)
    ensures Distinct(a + b) <==> Distinct(a) && Distinct(b) && forall x, y :: x in a && y in b ==> x.Fid() != y.Fid()
  {
    var s := a + b;
    if Distinct(s) {
      forall i, j | 0 <= i < j < |a|
        ensures a[i].Fid() != a[j].Fid()
      {
        assert s[i] == a[i] && s[j] == a[j];
      }
      forall i, j | 0 <= i < j < |b|
        ensures b[i].Fid() != b[j].Fid()
      {
        assert s[|a| + i] == b[i] && s[|a| + j] == b[j];
      }
      forall x, y | x in a && y in b
        ensures x.Fid() != y.Fid()
      {
        var i :| 0 <= i < |a| && a[i] == x;
        var j :| 0 <= j < |b| && b[j] == y;
        assert s[i] == x && s[|a| + j] == y;
      }
    }
  }

  lemma {:induction false} PopulationDistinct(rules: Rules, repos: seq<Repo>, key: string)
    requires Distinct(Everything(repos))
    ensures Distinct(Population(rules, repos, key))
  {
    if repos != [] {
      var init, r := repos[..|repos| - 1], repos[|repos| - 1];
      var own := ItemsOf(r, r.findings);
      DistinctConcat(Everything(init), own);
      PopulationDistinct(rules, init, key);
      forall x, y | x in Population(rules, init, key) && y in own
        ensures x.Fid() != y.Fid()
      {
        PopulationMembers(rules, init, key, x);
      }
      DistinctConcat(Population(rules, init, key), own);
    }
  }

  lemma SameFidSameItem(items: seq<Item>, x: Item, y: Item)
    requires Distinct(items) && x in items && y in items && x.Fid() == y.Fid()
    ensures x == y
  {
  }

  // ---------- the previous state of a finding ----------

  lemma {:induction false} PrevAfter(rules: Rules, key: string, p: Pass, items: seq<Item>, fid: (string, string))
    ensures var after := Before(ObserveAll(rules, key, p, items).prev, fid);
      after == Before(p.prev, fid) || exists x :: x in items && x.Fid() == fid && after == Some(ItemState(rules, x, key))
    ensures (forall x :: x in items ==> x.Fid() != fid) ==>
      Before(ObserveAll(rules, key, p, items).prev, fid) == Before(p.prev, fid)
    ensures (exists x :: x in items && x.Fid() == fid) ==>
      exists x :: x in items && x.Fid() == fid && Before(ObserveAll(rules, key, p, items).prev, fid) == Some(ItemState(rules, x, key))
  {
    if items != [] {
      var init, last := items[..|items| - 1], items[|items| - 1];
      assert items == init + [last];
      PrevAfter(rules, key, p, init, fid);
    }
  }

  ghost predicate Ordered(keys: seq<string>) {
    forall i, j :: 0 <= i < j < |keys| ==> LexLe(keys[i], keys[j])
  }

  /** The state of a finding at the end of the buckets so far: none until its repo is audited. */
  ghost function LastState(rules: Rules, keys: seq<string>, x: Item): Option<State> {
    if keys != [] && Born(rules, x.repo, keys[|keys| - 1]) then Some(ItemState(rules, x, keys[|keys| - 1])) else None
  }

  /** With distinct finding ids, the map the loop carries holds exactly the previous states. */
  lemma {:induction false} PrevExact(rules: Rules, repos: seq<Repo>, keys: seq<string>, x: Item)
    requires Distinct(Everything(repos)) && Ordered(keys) && x in Everything(repos)
    ensures Before(Series(rules, repos, keys).prev, x.Fid()) == LastState(rules, keys, x)
  {
    if keys != [] {
      var init, key := keys[..|keys| - 1], keys[|keys| - 1];
      PrevExact(rules, repos, init, x);
      var items := Population(rules, repos, key);
      var p := Pass(NOTHING, Series(rules, repos, init).prev);
      PrevAfter(rules, key, p, items, x.Fid());
      forall y | y in items && y.Fid() == x.Fid()
        ensures y == x && Born(rules, x.repo, key)
      {
        PopulationMembers(rules, repos, key, y);
        SameFidSameItem(Everything(repos), x, y);
      }
      PopulationMembers(rules, repos, key, x);
      if !Born(rules, x.repo, key) && init != [] && Born(rules, x.repo, init[|init| - 1]) {
        LexTransitive(rules.bucket(x.repo.auditDate), init[|init| - 1], key);
      }
    }
  }

  // ---------- flows ----------

  function Entering(rules: Rules, key: string, prev: Previous, s: State): Item -> bool {
    x => ItemState(rules, x, key) == s && Before(prev, x.Fid()) != Some(s)
  }

  lemma {:induction false} FlowsCount(rules: Rules, key: string, p: Pass, items: seq<Item>, s: State)
    requires s in {Closed, Accepted, FalsePositive} && Distinct(items)
    ensures Flow(ObserveAll(rules, key, p, items).tallies, s)
         == Flow(p.tallies, s) + Count(items, Entering(rules, key, p.prev, s))
  {
    if items != [] {
      var init, last := items[..|items| - 1], items[|items| - 1];
      FlowsCount(rules, key, p, init, s);
      PrevAfter(rules, key, p, init, last.Fid());
      assert forall x :: x in init ==> x.Fid() != last.Fid();
      var q := ObserveAll(rules, key, p, init);
      TallyMoves(q.tallies, Before(q.prev, last.Fid()), FactsOf(rules, key, last), s);
    }
  }

  ghost function HeldBefore(rules: Rules, keys: seq<string>, s: State): Item -> bool {
    x => LastState(rules, keys, x) == Some(s)
  }

  ghost function LastTallies(rules: Rules, repos: seq<Repo>, keys: seq<string>): Tallies {
    if keys == [] then NOTHING
    else BucketPass(rules, repos, keys[|keys| - 1], Series(rules, repos, keys[..|keys| - 1]).prev).tallies
  }

  lemma LastTalliesReported(rules: Rules, repos: seq<Repo>, keys: seq<string>)
    requires keys != []
    ensures |Series(rules, repos, keys).buckets| == |keys|
    ensures Series(rules, repos, keys).buckets[|keys| - 1].findings == LastTallies(rules, repos, keys)
  {
    SeriesPrefix(rules, repos, keys[..|keys| - 1], 0);
  }

  lemma StockIsHolding(rules: Rules, repos: seq<Repo>, keys: seq<string>, s: State)
    ensures Stock(LastTallies(rules, repos, keys), s) == Count(Everything(repos), HeldBefore(rules, keys, s))
  {
    if keys == [] {
      CountNone(Everything(repos), HeldBefore(rules, keys, s));
    } else {
      var key := keys[|keys| - 1];
      var p := Pass(NOTHING, Series(rules, repos, keys[..|keys| - 1]).prev);
      StocksCount(rules, key, p, Population(rules, repos, key), s);
      PopulationCount(rules, repos, key, InState(rules, key, s));
      CountSame(Everything(repos), Alive(rules, key, InState(rules, key, s)), HeldBefore(rules, keys, s));
    }
  }

  lemma FlowIsEntering(rules: Rules, repos: seq<Repo>, keys: seq<string>, s: State)
    requires s in {Closed, Accepted, FalsePositive} && keys != []
    requires Distinct(Everything(repos)) && Ordered(keys)
    ensures Flow(LastTallies(rules, repos, keys), s)
         == Count(Everything(repos), Gained(HeldBefore(rules, keys, s), HeldBefore(rules, keys[..|keys| - 1], s)))
  {
    var init, key := keys[..|keys| - 1], keys[|keys| - 1];
    var prev := Series(rules, repos, init).prev;
    PopulationDistinct(rules, repos, key);
    FlowsCount(rules, key, Pass(NOTHING, prev), Population(rules, repos, key), s);
    PopulationCount(rules, repos, key, Entering(rules, key, prev, s));
    forall x | x in Everything(repos)
      ensures Before(prev, x.Fid()) == LastState(rules, init, x)
    {
      PrevExact(rules, repos, init, x);
    }
    CountSame(Everything(repos), Alive(rules, key, Entering(rules, key, prev, s)),
              Gained(HeldBefore(rules, keys, s), HeldBefore(rules, init, s)));
  }

  /** In every bucket, stock plus exits equals previous stock plus entries, where the exits are the
  findings held before and no longer. */
  lemma StocksAndFlowsBalance(rules: Rules, repos: seq<Repo>, keys: seq<string>, s: State)
    requires s in {Closed, Accepted, FalsePositive} && keys != []
    requires Distinct(Everything(repos)) && Ordered(keys)
    ensures var init := keys[..|keys| - 1];
      Stock(LastTallies(rules, repos, keys), s)
        + Count(Everything(repos), Gained(HeldBefore(rules, init, s), HeldBefore(rules, keys, s)))
      == Stock(LastTallies(rules, repos, init), s) + Flow(LastTallies(rules, repos, keys), s)
  {
    var init := keys[..|keys| - 1];
    StockIsHolding(rules, repos, keys, s);
    StockIsHolding(rules, repos, init, s);
    FlowIsEntering(rules, repos, keys, s);
    Balance(Everything(repos), HeldBefore(rules, keys, s), HeldBefore(rules, init, s));
  }

  function BornBy(rules: Rules, key: string): Item -> bool {
    (x: Item) => Born(rules, x.repo, key)
  }

  function Anyone(): Item -> bool {
    (x: Item) => true
  }

  /** The snapshot of a bucket accounts for every finding of every repo audited by then. */
  lemma SnapshotAccountsForAll(rules: Rules, repos: seq<Repo>, keys: seq<string>)
    requires keys != []
    ensures AddsUp(LastTallies(rules, repos, keys), Count(Everything(repos), BornBy(rules, keys[|keys| - 1])))
  {
    var key := keys[|keys| - 1];
    var items := Population(rules, repos, key);
    StocksPartition(rules, key, Series(rules, repos, keys[..|keys| - 1]).prev, items);
    CountAll(items);
    PopulationCount(rules, repos, key, Anyone());
    CountSame(Everything(repos), Alive(rules, key, Anyone()), BornBy(rules, key));
  }

  lemma {:induction false} CountAll(items: seq<Item>)
    ensures Count(items, Anyone()) == |items|
  {
    if items != [] {
      CountAll(items[..|items| - 1]);
    }
  }
}
