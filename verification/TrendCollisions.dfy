/** Findings that share a directory and an id. The replay keeps one previous state for both, so entries
are counted again and again, or not at all: when every bucket balances. */
module TrendCollisions {
  import opened Options
  import opened Calendar
  import opened Buckets
  import opened Text
  import opened Replay
  import opened TrendHistory
  import opened TrendFlows

  /** Stock plus exits is the previous stock plus what the bucket counts as entries. */
  ghost predicate Balanced(rules: Rules, repos: seq<Repo>, keys: seq<string>, s: State)
    requires s in {Closed, Accepted, FalsePositive} && keys != []
  {
    var init := keys[..|keys| - 1];
    Stock(LastTallies(rules, repos, keys), s)
      + Count(Everything(repos), Gained(HeldBefore(rules, init, s), HeldBefore(rules, keys, s)))
    == Stock(LastTallies(rules, repos, init), s) + Flow(LastTallies(rules, repos, keys), s)
  }

  /** The same audits, whatever their ledgers record. */
  ghost predicate SameAudits(a: seq<Repo>, b: seq<Repo>) {
    |a| == |b| && forall i :: 0 <= i < |a| ==>
      a[i].dir == b[i].dir && a[i].tree == b[i].tree && a[i].auditDate == b[i].auditDate && a[i].findings == b[i].findings
  }

  ghost predicate SameFids(x: seq<Item>, y: seq<Item>) {
    |x| == |y| && forall i :: 0 <= i < |x| ==> x[i].Fid() == y[i].Fid()
  }

  lemma RepoFids(a: Repo, b: Repo)
    requires a.dir == b.dir && a.findings == b.findings
    ensures SameFids(ItemsOf(a, a.findings), ItemsOf(b, b.findings))
  {
    ItemsExact(a, a.findings);
    ItemsExact(b, b.findings);
  }

  lemma SameFidsConcat(x: seq<Item>, y: seq<Item>, u: seq<Item>, v: seq<Item>)
    requires SameFids(x, y) && SameFids(u, v)
    ensures SameFids(x + u, y + v)
  {
  }

  lemma {:induction false} AuditsFixFids(a: seq<Repo>, b: seq<Repo>)
    requires SameAudits(a, b)
    ensures SameFids(Everything(a), Everything(b))
  {
    if a != [] {
      var n := |a| - 1;
      AuditsFixFids(a[..n], b[..n]);
      RepoFids(a[n], b[n]);
      SameFidsConcat(Everything(a[..n]), Everything(b[..n]), ItemsOf(a[n], a[n].findings), ItemsOf(b[n], b[n].findings));
    }
  }

  // ---------- a run in which everything enters at once ----------

  ghost function Fids(items: seq<Item>): set<(string, string)> {
    set x | x in items :: x.Fid()
  }

  lemma FidsSnoc(items: seq<Item>, x: Item)
    ensures Fids(items + [x]) == Fids(items) + {x.Fid()}
  {
  }

  lemma {:induction false} FidsDistinct(items: seq<Item>)
    ensures |Fids(items)| <= |items|
    ensures |Fids(items)| == |items| ==> Distinct(items)
  {
    if items != [] {
      var init, last := items[..|items| - 1], items[|items| - 1];
      assert items == init + [last];
      FidsDistinct(init);
      FidsSnoc(init, last);
      forall x | x in init
        ensures x.Fid() in Fids(init)
      {
      }
    }
  }

  /** Each finding joins the stock, but a shared id is counted as an entry once. */
  ghost predicate Entered(p: Pass, items: seq<Item>, s: State)
    requires s in {Closed, Accepted, FalsePositive}
  {
    && Stock(p.tallies, s) == |items| && Flow(p.tallies, s) == |Fids(items)|
    && p.prev.Keys == Fids(items) && AllIn(p.prev, s)
  }

  ghost predicate AllIn(prev: Previous, s: State) {
    forall fid :: fid in prev ==> prev[fid] == s
  }

  /** The stock and the entries counted, after one more finding in state `s`. */
  lemma OneCounted(t: Tallies, was: Option<State>, f: Facts, n: nat, fids: set<(string, string)>, fid: (string, string), s: State)
    requires s in {Closed, Accepted, FalsePositive} && f.state == s
    requires Stock(t, s) == n && Flow(t, s) == |fids| && (fid in fids <==> was == Some(s))
    ensures Stock(Tally(t, was, f), s) == n + 1 && Flow(Tally(t, was, f), s) == |fids + {fid}|
  {
    TallyMoves(t, was, f, s);
    if fid in fids {
      assert fids + {fid} == fids;
    }
  }

  lemma OneEnters(rules: Rules, key: string, p: Pass, items: seq<Item>, x: Item, s: State)
    requires s in {Closed, Accepted, FalsePositive} && Entered(p, items, s) && ItemState(rules, x, key) == s
    ensures Entered(ObserveItem(rules, key, p, x), items + [x], s)
  {
    FidsSnoc(items, x);
    var was, f := Before(p.prev, x.Fid()), FactsOf(rules, key, x);
    OneCounted(p.tallies, was, f, |items|, Fids(items), x.Fid(), s);
    OneRemembered(p.prev, Fids(items), x.Fid(), s);
    assert ObserveItem(rules, key, p, x) == Pass(Tally(p.tallies, was, f), p.prev[x.Fid() := s]);
  }

  lemma OneRemembered(prev: Previous, fids: set<(string, string)>, fid: (string, string), s: State)
    requires prev.Keys == fids && AllIn(prev, s)
    ensures prev[fid := s].Keys == fids + {fid} && AllIn(prev[fid := s], s)
  {
  }

  lemma {:induction false} AllEnter(rules: Rules, key: string, items: seq<Item>, s: State)
    requires s in {Closed, Accepted, FalsePositive} && forall x :: x in items ==> ItemState(rules, x, key) == s
    ensures Entered(ObserveAll(rules, key, Pass(NOTHING, map[]), items), items, s)
  {
    if items == [] {
      NothingEntered(s);
    } else {
      var init, last := items[..|items| - 1], items[|items| - 1];
      assert items == init + [last];
      AllEnter(rules, key, init, s);
      OneEnters(rules, key, ObserveAll(rules, key, Pass(NOTHING, map[]), init), init, last, s);
    }
  }

  lemma NothingEntered(s: State)
    requires s in {Closed, Accepted, FalsePositive}
    ensures Entered(Pass(NOTHING, map[]), [], s)
  {
  }

  function Ruling(s: State): Disposition {
    match s
    case FalsePositive => Disposition(RuledFalse, Unresolved)
    case Closed => Disposition(NotVerified, Resolved)
    case Accepted => Disposition(NotVerified, RiskAccepted)
    case Hardening => Disposition(HardeningOnly, Unresolved)
    case Open => Disposition(NotVerified, Unresolved)
  }

  const ONLY := "only"

  /** Everything happens in one bucket, and any event decides its finding. */
  function Deciding(s: State): Rules {
    Rules((f: Finding, events: seq<Event>) => Ruling(s), (d: Day) => ONLY)
  }

  function EventFor(r: Repo, f: Finding): Event {
    Event(f.id, r.auditDate, None, None, None)
  }

  function EventsFor(r: Repo, findings: seq<Finding>): seq<Event> {
    if findings == [] then []
    else EventsFor(r, findings[..|findings| - 1]) + [EventFor(r, findings[|findings| - 1])]
  }

  lemma {:induction false} EveryFindingHasOne(r: Repo, findings: seq<Finding>, f: Finding)
    requires f in findings
    ensures Own(EventsFor(r, findings), f.id) != []
  {
    var init, last := findings[..|findings| - 1], findings[|findings| - 1];
    assert findings == init + [last];
    var before := EventsFor(r, init);
    assert (before + [EventFor(r, last)])[..|before|] == before;
    if f in init {
      EveryFindingHasOne(r, init, f);
    }
  }

  function Ledgered(r: Repo): Repo {
    r.(log := EventsFor(r, r.findings), hasLayer := true, layerStart := Some(r.auditDate))
  }

  function LedgeredAll(repos: seq<Repo>): seq<Repo> {
    seq(|repos|, i requires 0 <= i < |repos| => Ledgered(repos[i]))
  }

  lemma {:induction false} EverythingBorn(s: State, repos: seq<Repo>)
    ensures Population(Deciding(s), repos, ONLY) == Everything(repos)
  {
    LexReflexive(ONLY);
    if repos != [] {
      EverythingBorn(s, repos[..|repos| - 1]);
    }
  }

  lemma {:induction false} ItemSource(repos: seq<Repo>, x: Item)
    requires x in Everything(repos)
    ensures x.repo in repos && x.finding in x.repo.findings
  {
    var init, r := repos[..|repos| - 1], repos[|repos| - 1];
    assert repos == init + [r];
    if x in Everything(init) {
      ItemSource(init, x);
    } else {
      ItemsExact(r, r.findings);
    }
  }

  lemma DecidedByEvents(s: State, f: Finding, events: seq<Event>, key: string)
    requires events != []
    ensures StateOf(Deciding(s), f, events, key) == s
  {
  }

  lemma EverythingDecided(s: State, repos: seq<Repo>, x: Item)
    requires x in Everything(LedgeredAll(repos))
    ensures ItemState(Deciding(s), x, ONLY) == s
  {
    ItemSource(LedgeredAll(repos), x);
    var i :| 0 <= i < |repos| && x.repo == Ledgered(repos[i]);
    EveryFindingHasOne(repos[i], repos[i].findings, x.finding);
    DecidedByEvents(s, x.finding, x.Events(), ONLY);
  }

  lemma OnlyBucket(rules: Rules, repos: seq<Repo>)
    requires Population(rules, repos, ONLY) == Everything(repos)
    ensures LastTallies(rules, repos, [ONLY]) == ObserveAll(rules, ONLY, Pass(NOTHING, map[]), Everything(repos)).tallies
    ensures LastTallies(rules, repos, [ONLY][..0]) == NOTHING
  {
    assert [ONLY][..0] == [];
    assert Series(rules, repos, []).prev == map[];
  }

  lemma NoExits(rules: Rules, items: seq<Item>, s: State)
    ensures Count(items, Gained(HeldBefore(rules, [ONLY][..0], s), HeldBefore(rules, [ONLY], s))) == 0
  {
    assert [ONLY][..0] == [];
    CountNone(items, Gained(HeldBefore(rules, [ONLY][..0], s), HeldBefore(rules, [ONLY], s)));
  }

  lemma CollisionUnbalances(repos: seq<Repo>, s: State)
    requires s in {Closed, Accepted, FalsePositive} && !Distinct(Everything(repos))
    ensures SameAudits(repos, LedgeredAll(repos)) && !Balanced(Deciding(s), LedgeredAll(repos), [ONLY], s)
  {
    var rules, later := Deciding(s), LedgeredAll(repos);
    AuditsFixFids(repos, later);
    EverythingBorn(s, later);
    forall x | x in Everything(later)
      ensures ItemState(rules, x, ONLY) == s
    {
      EverythingDecided(s, repos, x);
    }
    SharedIdUnbalances(rules, later, s);
  }

  /** When everything enters in one bucket and two findings share an id, fewer entries are counted. */
  lemma SharedIdUnbalances(rules: Rules, repos: seq<Repo>, s: State)
    requires s in {Closed, Accepted, FalsePositive} && !Distinct(Everything(repos))
    requires Population(rules, repos, ONLY) == Everything(repos)
    requires forall x :: x in Everything(repos) ==> ItemState(rules, x, ONLY) == s
    ensures !Balanced(rules, repos, [ONLY], s)
  {
    var all := Everything(repos);
    FidsDistinct(all);
    AllEnter(rules, ONLY, all, s);
    OnlyBucket(rules, repos);
    NoExits(rules, all, s);
  }

  /** Every bucket balances, whatever the ledgers record and however they are ruled on, exactly when no
  two findings of the audits share a directory and an id. */
  lemma BalanceExact(repos: seq<Repo>, s: State)
    requires s in {Closed, Accepted, FalsePositive}
    ensures (forall rules, later, keys :: SameAudits(repos, later) && keys != [] && Ordered(keys) ==>
               Balanced(rules, later, keys, s))
      <==> Distinct(Everything(repos))
  {
    if Distinct(Everything(repos)) {
      forall rules, later, keys | SameAudits(repos, later) && keys != [] && Ordered(keys)
        ensures Balanced(rules, later, keys, s)
      {
        AuditsFixFids(repos, later);
        StocksAndFlowsBalance(rules, later, keys, s);
      }
    } else {
      CollisionUnbalances(repos, s);
      assert Ordered([ONLY]);
    }
  }

  // ---------- two reports in one directory ----------

  /** Two findings with one id, the first closed throughout and the second open throughout. */
  lemma SharedIdRecounts(rules: Rules, a: Repo, b: Repo, f: Finding, g: Finding, k: string, k': string)
    requires ClosedAndOpen(rules, a, b, f, g, k) && ClosedAndOpen(rules, a, b, f, g, k')
    ensures Stock(LastTallies(rules, [a, b], [k]), Closed) == 1 == Stock(LastTallies(rules, [a, b], [k, k']), Closed)
    ensures Flow(LastTallies(rules, [a, b], [k]), Closed) == 1 == Flow(LastTallies(rules, [a, b], [k, k']), Closed)
    ensures Count(Everything([a, b]), Gained(HeldBefore(rules, [k], Closed), HeldBefore(rules, [k, k'], Closed))) == 0
  {
    var x, y := Item(a, f), Item(b, g);
    FirstOfTwo(rules, a, b, f, g, k);
    SecondOfTwo(rules, a, b, f, g, k, k');
    TwoItems(rules, a, b, f, g, k);
    forall z | z in [x, y]
      ensures !Gained(HeldBefore(rules, [k], Closed), HeldBefore(rules, [k, k'], Closed))(z)
    {
      assert z == x || z == y;
    }
    CountNone([x, y], Gained(HeldBefore(rules, [k], Closed), HeldBefore(rules, [k, k'], Closed)));
  }

  ghost predicate ClosedAndOpen(rules: Rules, a: Repo, b: Repo, f: Finding, g: Finding, key: string) {
    && a.dir == b.dir && f.id == g.id && a.findings == [f] && b.findings == [g]
    && Born(rules, a, key) && Born(rules, b, key)
    && ItemState(rules, Item(a, f), key) == Closed && ItemState(rules, Item(b, g), key) == Open
  }

  lemma FirstOfTwo(rules: Rules, a: Repo, b: Repo, f: Finding, g: Finding, k: string)
    requires ClosedAndOpen(rules, a, b, f, g, k)
    ensures var t := LastTallies(rules, [a, b], [k]); t.closed == 1 && t.closedNew == 1
    ensures Before(Series(rules, [a, b], [k]).prev, Item(a, f).Fid()) == Some(Open)
  {
    TwoItems(rules, a, b, f, g, k);
    PassOverTwo(rules, k, map[], Item(a, f), Item(b, g));
    assert [k][..0] == [];
    assert Series(rules, [a, b], []) == Replayed([], map[]);
    assert BucketPass(rules, [a, b], k, map[]) == ObserveAll(rules, k, Pass(NOTHING, map[]), [Item(a, f), Item(b, g)]);
  }

  lemma SecondOfTwo(rules: Rules, a: Repo, b: Repo, f: Finding, g: Finding, k: string, k': string)
    requires ClosedAndOpen(rules, a, b, f, g, k')
    requires Before(Series(rules, [a, b], [k]).prev, Item(a, f).Fid()) == Some(Open)
    ensures var t := LastTallies(rules, [a, b], [k, k']); t.closed == 1 && t.closedNew == 1
  {
    var prev := Series(rules, [a, b], [k]).prev;
    TwoItems(rules, a, b, f, g, k');
    PassOverTwo(rules, k', prev, Item(a, f), Item(b, g));
    assert [k, k'][..1] == [k];
    assert BucketPass(rules, [a, b], k', prev) == ObserveAll(rules, k', Pass(NOTHING, prev), [Item(a, f), Item(b, g)]);
  }

  lemma TwoItems(rules: Rules, a: Repo, b: Repo, f: Finding, g: Finding, key: string)
    requires a.findings == [f] && b.findings == [g] && Born(rules, a, key) && Born(rules, b, key)
    ensures Everything([a, b]) == Population(rules, [a, b], key) == [Item(a, f), Item(b, g)]
  {
    OneItem(a, f);
    OneItem(b, g);
    EverythingSnoc([], a);
    EverythingSnoc([a], b);
    PopulationSnoc(rules, [], a, key);
    PopulationSnoc(rules, [a], b, key);
    assert [] + [a] == [a] && [a] + [b] == [a, b];
    assert [] + [Item(a, f)] == [Item(a, f)];
  }

  lemma OneItem(r: Repo, f: Finding)
    ensures ItemsOf(r, [f]) == [Item(r, f)]
  {
    assert [f][..0] == [];
    assert ItemsOf(r, []) == [];
  }

  lemma EverythingSnoc(repos: seq<Repo>, r: Repo)
    ensures Everything(repos + [r]) == Everything(repos) + ItemsOf(r, r.findings)
  {
    assert (repos + [r])[..|repos|] == repos;
  }

  lemma PopulationSnoc(rules: Rules, repos: seq<Repo>, r: Repo, key: string)
    requires Born(rules, r, key)
    ensures Population(rules, repos + [r], key) == Population(rules, repos, key) + ItemsOf(r, r.findings)
  {
    assert (repos + [r])[..|repos|] == repos;
  }

  lemma PassOverTwo(rules: Rules, key: string, prev: Previous, x: Item, y: Item)
    requires x.Fid() == y.Fid() && Before(prev, x.Fid()) != Some(Closed)
    requires ItemState(rules, x, key) == Closed && ItemState(rules, y, key) == Open
    ensures var p := ObserveAll(rules, key, Pass(NOTHING, prev), [x, y]);
      p.tallies.closed == 1 && p.tallies.closedNew == 1 && Before(p.prev, x.Fid()) == Some(Open)
  {
    var p := Pass(NOTHING, prev);
    ObserveTwo(rules, key, p, x, y);
    var q := ObserveItem(rules, key, p, x);
    assert Before(q.prev, y.Fid()) == Some(Closed);
    TallyMoves(p.tallies, Before(prev, x.Fid()), FactsOf(rules, key, x), Closed);
    TallyMoves(q.tallies, Some(Closed), FactsOf(rules, key, y), Closed);
  }

  lemma ObserveTwo(rules: Rules, key: string, p: Pass, x: Item, y: Item)
    ensures ObserveAll(rules, key, p, [x, y]) == ObserveItem(rules, key, ObserveItem(rules, key, p, x), y)
  {
    assert [x, y][..1] == [x] && [x][..0] == [];
    assert ObserveAll(rules, key, p, []) == p;
    assert ObserveAll(rules, key, p, [x]) == ObserveItem(rules, key, p, x);
  }

  const JANUARY: Day := Date(2024, 1, 31)
  const FEBRUARY: Day := Date(2024, 2, 29)
  const AUDITED: Day := Date(2024, 1, 10)

  function Shared(): Finding { Finding("SEC-001", "high", NotVerified, 7.5, HighRisk) }

  function Main(): Repo {
    Repo("findings/acme/proxy", "findings", AUDITED, [Shared()],
         [Event("SEC-001", AUDITED, None, Some(Resolved), None)], true, Some(AUDITED))
  }

  function Branch(): Repo {
    Repo("findings/acme/proxy", "findings", AUDITED, [Shared()], [], false, None)
  }

  /** Months, and a ledger whose last word on the resolution stands. */
  function ByMonth(): Rules {
    Rules((f: Finding, events: seq<Event>) => Disposition(f.status,
            if events != [] && events[|events| - 1].resolution == Some(Resolved) then Resolved else Unresolved),
          (d: Day) => BucketKey(d, Month))
  }

  /** The report of a branch beside that of the main line, in one directory: SEC-001 is resolved in one
  and open in the other, and from the second month on is counted as newly resolved each month. */
  lemma BranchReportRecounts()
    ensures var rules, repos := ByMonth(), [Main(), Branch()];
      var first, both := [BucketKey(JANUARY, Month)], [BucketKey(JANUARY, Month), BucketKey(FEBRUARY, Month)];
      && Calendared(rules, Month) && Ordered(both) && !Distinct(Everything(repos))
      && Stock(LastTallies(rules, repos, first), Closed) == 1 == Stock(LastTallies(rules, repos, both), Closed)
      && Flow(LastTallies(rules, repos, both), Closed) == 1
      && !Balanced(rules, repos, both, Closed)
  {
    MonthsInOrder();
    RecountsAt(BucketKey(JANUARY, Month), BucketKey(FEBRUARY, Month));
  }

  lemma RecountsAt(k: string, k': string)
    requires LexLe(BucketKey(AUDITED, Month), k) && LexLe(BucketKey(AUDITED, Month), k')
    ensures var rules, repos := ByMonth(), [Main(), Branch()];
      && Stock(LastTallies(rules, repos, [k]), Closed) == 1 == Stock(LastTallies(rules, repos, [k, k']), Closed)
      && Flow(LastTallies(rules, repos, [k, k']), Closed) == 1
      && !Distinct(Everything(repos)) && !Balanced(rules, repos, [k, k'], Closed)
  {
    var rules, a, b, f := ByMonth(), Main(), Branch(), Shared();
    BranchStates(k);
    BranchStates(k');
    SharedIdRecounts(rules, a, b, f, f, k, k');
    assert [k, k'][..1] == [k];
    TwoItems(rules, a, b, f, f, k);
    SharedIdCollides(a, b, f);
  }

  lemma SharedIdCollides(a: Repo, b: Repo, f: Finding)
    requires a.dir == b.dir
    ensures !Distinct([Item(a, f), Item(b, f)])
  {
    var items := [Item(a, f), Item(b, f)];
    assert items[0].Fid() == items[1].Fid();
  }

  lemma MonthsInOrder()
    ensures var k, k' := BucketKey(JANUARY, Month), BucketKey(FEBRUARY, Month);
      LexLe(BucketKey(AUDITED, Month), k) && LexLe(BucketKey(AUDITED, Month), k') && LexLe(k, k')
  {
    KeyOrderIsTimeOrder(AUDITED, JANUARY, Month);
    KeyOrderIsTimeOrder(AUDITED, FEBRUARY, Month);
    KeyOrderIsTimeOrder(JANUARY, FEBRUARY, Month);
  }

  lemma BranchStates(key: string)
    requires LexLe(BucketKey(AUDITED, Month), key)
    ensures ClosedAndOpen(ByMonth(), Main(), Branch(), Shared(), Shared(), key)
  {
    var f, e := Shared(), Event("SEC-001", AUDITED, None, Some(Resolved), None);
    SeenResolution(f, e, key);
    assert Own([], "SEC-001") == [];
    assert Item(Main(), f).Events() == [e] by {
      assert [e][..0] == [];
    }
  }

  lemma SeenResolution(f: Finding, e: Event, key: string)
    requires Seen(ByMonth(), e, key) && e.resolution == Some(Resolved) && f.status == NotVerified
    ensures StateOf(ByMonth(), f, [e], key) == Closed && StateOf(ByMonth(), f, [], key) == Open
  {
    assert [e][..0] == [];
    assert Visible(ByMonth(), [e], key) == [e];
  }
}
