/** Ledger replay in build_trends.py: the state of a finding as of a bucket, and the series of
snapshots that replaying every bucket yields.

The disposition engine is an arbitrary function of the finding and its visible events; CVSS and
OWASP figures of a finding are inputs, and sums are exact. */
module Replay {
  import opened Options
  import opened Calendar
  import opened Buckets
  import opened Text

  type Day = d: Date | Valid(d) witness Date(1, 1, 1)

  datatype Validity = NotVerified | RuledFalse | HardeningOnly | OtherValidity
  datatype Resolution = Unresolved | Resolved | RiskAccepted | RegressionIntroduced | OtherResolution
  datatype Disposition = Disposition(validity: Validity, resolution: Resolution)

  /** A ledger event, dated by when it happened or else was recorded. */
  datatype Event = Event(
    findingRef: string, date: Day, validity: Option<Validity>, resolution: Option<Resolution>, lambda: Option<real>)

  datatype Band = Note | LowRisk | MediumRisk | HighRisk | CriticalRisk

  datatype Finding = Finding(id: string, severity: string, status: Validity, cvss: real, band: Band)

  datatype Repo = Repo(
    dir: string, tree: string, auditDate: Day, findings: seq<Finding>, log: seq<Event>,
    hasLayer: bool, layerStart: Option<Day>)

  datatype Rules = Rules(derive: (Finding, seq<Event>) -> Disposition, bucket: Day -> string)

  /** The rules buckets are really kept by. */
  ghost predicate Calendared(rules: Rules, g: Granularity) {
    forall d: Day :: rules.bucket(d) == BucketKey(d, g)
  }

  datatype State = Open | Hardening | Closed | Accepted | FalsePositive

  // ---------- events ----------

  function KeyOf(rules: Rules, e: Event): string {
    rules.bucket(e.date)
  }

  predicate Seen(rules: Rules, e: Event, key: string) {
    LexLe(KeyOf(rules, e), key)
  }

  function Visible(rules: Rules, events: seq<Event>, key: string): seq<Event> {
    if events == [] then []
    else
      var e, before := events[|events| - 1], Visible(rules, events[..|events| - 1], key);
      if Seen(rules, e, key) then before + [e] else before
  }

  function Own(log: seq<Event>, id: string): seq<Event> {
    if log == [] then []
    else
      var e, before := log[|log| - 1], Own(log[..|log| - 1], id);
      if e.findingRef == id then before + [e] else before
  }

  // ---------- the state of one finding ----------

  function Default(f: Finding): Disposition {
    Disposition(f.status, Unresolved)
  }

  function Classify(d: Disposition): State {
    if d.validity == RuledFalse then FalsePositive
    else if d.resolution == Resolved then Closed
    else if d.resolution == RiskAccepted then Accepted
    else if d.validity == HardeningOnly then Hardening
    else Open
  }

  function StateOf(rules: Rules, f: Finding, events: seq<Event>, key: string): State {
    Classify(if events != [] then rules.derive(f, Visible(rules, events, key)) else Default(f))
  }

  const HARDENING_LAMBDA_FALLBACK := 0.3

  /** The weight recorded by the latest visible hardening event, or the fallback. */
  function HardeningLambda(rules: Rules, events: seq<Event>, key: string): real {
    if events == [] then HARDENING_LAMBDA_FALLBACK
    else
      var e := events[|events| - 1];
      if e.validity == Some(HardeningOnly) && Seen(rules, e, key) && e.lambda.Some? then e.lambda.value
      else HardeningLambda(rules, events[..|events| - 1], key)
  }

  function Later(a: Option<Day>, b: Day): Day {
    if a.Some? && AtOrBefore(b, a.value) then a.value else b
  }

  /** The latest visible day on which the finding was closed. */
  function CloseDate(rules: Rules, events: seq<Event>, key: string): Option<Day> {
    if events == [] then None
    else
      var e := events[|events| - 1];
      var before := CloseDate(rules, events[..|events| - 1], key);
      if e.resolution == Some(Resolved) && Seen(rules, e, key) then Some(Later(before, e.date)) else before
  }

  function EarliestDay(log: seq<Event>): Option<Day> {
    if log == [] then None
    else
      var e, before := log[|log| - 1], EarliestDay(log[..|log| - 1]);
      if before.Some? && AtOrBefore(before.value, e.date) then before else Some(e.date)
  }

  // ---------- one bucket ----------

  datatype Item = Item(repo: Repo, finding: Finding)
  {
    function Fid(): (string, string) { (repo.dir, finding.id) }
    function Events(): seq<Event> { Own(repo.log, finding.id) }
  }

  type Previous = map<(string, string), State>

  /** Everything a snapshot counts finding by finding; counters by name are multisets. */
  datatype Tallies = Tallies(
    open: nat, hardening: nat, accepted: nat, closed: nat, falsePositives: nat,
    openBySev: multiset<string>, owaspOpen: multiset<Band>, acceptedBySev: multiset<string>,
    risk: real, hardeningRisk: real, acceptedRisk: real,
    discovered: nat, closedNew: nat, acceptedNew: nat, fpNew: nat, mttr: seq<(string, int)>)

  const NOTHING := Tallies(0, 0, 0, 0, 0, multiset{}, multiset{}, multiset{}, 0.0, 0.0, 0.0, 0, 0, 0, 0, [])

  datatype RepoCounts = RepoCounts(audited: nat, covered: nat, dispositions: nat, regressions: nat)
  datatype Snapshot = Snapshot(key: string, repos: RepoCounts, findings: Tallies)

  function DaysToClose(rules: Rules, item: Item, key: string): seq<(string, int)> {
    var cd := CloseDate(rules, item.Events(), key);
    if cd.None? then []
    else
      var days := Ordinal(cd.value) - Ordinal(item.repo.auditDate);
      [(item.finding.severity, if days < 0 then 0 else days)]
  }

  function ItemState(rules: Rules, item: Item, key: string): State {
    StateOf(rules, item.finding, item.Events(), key)
  }

  /** All that a snapshot takes from one finding. */
  datatype Facts = Facts(bornNow: bool, state: State, severity: string, band: Band, cvss: real, lambda: real, closing: seq<(string, int)>)

  function FactsOf(rules: Rules, key: string, item: Item): Facts {
    Facts(rules.bucket(item.repo.auditDate) == key, ItemState(rules, item, key), item.finding.severity, item.finding.band,
          item.finding.cvss, HardeningLambda(rules, item.Events(), key), DaysToClose(rules, item, key))
  }

  function Before(prev: Previous, fid: (string, string)): Option<State> {
    if fid in prev then Some(prev[fid]) else None
  }

  function Tally(t0: Tallies, was: Option<State>, f: Facts): Tallies {
    var t := if f.bornNow then t0.(discovered := t0.discovered + 1) else t0;
    match f.state
    case Open =>
      t.(open := t.open + 1, openBySev := t.openBySev + multiset{f.severity},
         owaspOpen := t.owaspOpen + multiset{f.band}, risk := t.risk + f.cvss)
    case Hardening =>
      t.(hardening := t.hardening + 1, hardeningRisk := t.hardeningRisk + f.lambda * f.cvss)
    case Accepted =>
      t.(accepted := t.accepted + 1, acceptedBySev := t.acceptedBySev + multiset{f.severity},
         acceptedRisk := t.acceptedRisk + f.cvss,
         acceptedNew := t.acceptedNew + (if was == Some(Accepted) then 0 else 1))
    case Closed =>
      var t1 := t.(closed := t.closed + 1);
      if was == Some(Closed) then t1
      else t1.(closedNew := t1.closedNew + 1, mttr := t1.mttr + f.closing)
    case FalsePositive =>
      t.(falsePositives := t.falsePositives + 1,
         fpNew := t.fpNew + (if was == Some(FalsePositive) then 0 else 1))
  }

  predicate Born(rules: Rules, r: Repo, key: string) {
    LexLe(rules.bucket(r.auditDate), key)
  }

  predicate Covered(rules: Rules, r: Repo, key: string) {
    r.hasLayer && r.layerStart.Some? && LexLe(rules.bucket(r.layerStart.value), key)
  }

  function EventsIn(rules: Rules, log: seq<Event>, key: string): nat {
    if log == [] then 0
    else EventsIn(rules, log[..|log| - 1], key) + (if KeyOf(rules, log[|log| - 1]) == key then 1 else 0)
  }

  function RegressionsIn(rules: Rules, log: seq<Event>, key: string): nat {
    if log == [] then 0
    else
      var e := log[|log| - 1];
      RegressionsIn(rules, log[..|log| - 1], key)
      + (if KeyOf(rules, e) == key && e.resolution == Some(RegressionIntroduced) then 1 else 0)
  }

  function CountRepo(rules: Rules, key: string, c: RepoCounts, r: Repo): RepoCounts {
    RepoCounts(c.audited + 1, c.covered + (if Covered(rules, r, key) then 1 else 0),
               c.dispositions + EventsIn(rules, r.log, key), c.regressions + RegressionsIn(rules, r.log, key))
  }

  ghost function RepoCountsOf(rules: Rules, key: string, repos: seq<Repo>): RepoCounts {
    if repos == [] then RepoCounts(0, 0, 0, 0)
    else
      var r, before := repos[|repos| - 1], RepoCountsOf(rules, key, repos[..|repos| - 1]);
      if Born(rules, r, key) then CountRepo(rules, key, before, r) else before
  }

  ghost function ItemsOf(r: Repo, findings: seq<Finding>): seq<Item> {
    if findings == [] then [] else ItemsOf(r, findings[..|findings| - 1]) + [Item(r, findings[|findings| - 1])]
  }

  /** Every finding of every repo audited by the end of the bucket. */
  ghost function Population(rules: Rules, repos: seq<Repo>, key: string): seq<Item> {
    if repos == [] then []
    else
      var r, before := repos[|repos| - 1], Population(rules, repos[..|repos| - 1], key);
      if Born(rules, r, key) then before + ItemsOf(r, r.findings) else before
  }

  datatype Pass = Pass(tallies: Tallies, prev: Previous)

  function ObserveItem(rules: Rules, key: string, p: Pass, item: Item): Pass {
    Pass(Tally(p.tallies, Before(p.prev, item.Fid()), FactsOf(rules, key, item)), p.prev[item.Fid() := ItemState(rules, item, key)])
  }

  ghost function ObserveAll(rules: Rules, key: string, p: Pass, items: seq<Item>): Pass {
    if items == [] then p
    else ObserveItem(rules, key, ObserveAll(rules, key, p, items[..|items| - 1]), items[|items| - 1])
  }

  ghost function BucketPass(rules: Rules, repos: seq<Repo>, key: string, prev: Previous): Pass {
    ObserveAll(rules, key, Pass(NOTHING, prev), Population(rules, repos, key))
  }

  // ---------- the series ----------

  datatype Replayed = Replayed(buckets: seq<Snapshot>, prev: Previous)

  ghost function Series(rules: Rules, repos: seq<Repo>, keys: seq<string>): Replayed {
    if keys == [] then Replayed([], map[])
    else
      var key, before := keys[|keys| - 1], Series(rules, repos, keys[..|keys| - 1]);
      var pass := BucketPass(rules, repos, key, before.prev);
      Replayed(before.buckets + [Snapshot(key, RepoCountsOf(rules, key, repos), pass.tallies)], pass.prev)
  }

  method CountEvents(rules: Rules, log: seq<Event>, key: string) returns (dispositions: nat, regressions: nat)
    ensures dispositions == EventsIn(rules, log, key) && regressions == RegressionsIn(rules, log, key)
  {
    dispositions, regressions := 0, 0;
    for i := 0 to |log|
      invariant dispositions == EventsIn(rules, log[..i], key) && regressions == RegressionsIn(rules, log[..i], key)
    {
      assert log[..i + 1][..i] == log[..i];
      if KeyOf(rules, log[i]) == key {
        dispositions := dispositions + 1;
        if log[i].resolution == Some(RegressionIntroduced) {
          regressions := regressions + 1;
        }
      }
    }
    assert log[..|log|] == log;
  }

  lemma ObserveSnoc(rules: Rules, key: string, start: Pass, before: seq<Item>, own: seq<Item>, item: Item)
    ensures ObserveAll(rules, key, start, before + (own + [item]))
         == ObserveItem(rules, key, ObserveAll(rules, key, start, before + own), item)
  {
    var all := before + (own + [item]);
    assert all[..|all| - 1] == before + own;
  }

  lemma ItemsSnoc(r: Repo, i: nat)
    requires i < |r.findings|
    ensures ItemsOf(r, r.findings[..i + 1]) == ItemsOf(r, r.findings[..i]) + [Item(r, r.findings[i])]
  {
    assert r.findings[..i + 1][..i] == r.findings[..i];
  }

  /** The findings of one repo, observed in order. */
  method ReplayRepo(rules: Rules, r: Repo, key: string, p0: Pass, ghost start: Pass, ghost before: seq<Item>) returns (p: Pass)
    requires p0 == ObserveAll(rules, key, start, before)
    ensures p == ObserveAll(rules, key, start, before + ItemsOf(r, r.findings))
  {
    p := p0;
    ghost var own: seq<Item> := [];
    assert before + own == before;
    for i := 0 to |r.findings|
      invariant own == ItemsOf(r, r.findings[..i]) && p == ObserveAll(rules, key, start, before + own)
    {
      var item := Item(r, r.findings[i]);
      ItemsSnoc(r, i);
      ObserveSnoc(rules, key, start, before, own, item);
      own := own + [item];
      p := ObserveItem(rules, key, p, item);
    }
    assert r.findings[..|r.findings|] == r.findings;
  }

  method ReplayBucket(rules: Rules, repos: seq<Repo>, key: string, prev: Previous) returns (counts: RepoCounts, p: Pass)
    ensures counts == RepoCountsOf(rules, key, repos) && p == BucketPass(rules, repos, key, prev)
  {
    counts := RepoCounts(0, 0, 0, 0);
    p := Pass(NOTHING, prev);
    ghost var start, seen := p, [];
    for i := 0 to |repos|
      invariant counts == RepoCountsOf(rules, key, repos[..i])
      invariant seen == Population(rules, repos[..i], key) && p == ObserveAll(rules, key, start, seen)
    {
      var r := repos[i];
      assert repos[..i + 1][..i] == repos[..i];
      if !Born(rules, r, key) {
        continue;
      }
      counts := AddRepoCounts(rules, r, key, counts);
      p := ReplayRepo(rules, r, key, p, start, seen);
      seen := seen + ItemsOf(r, r.findings);
    }
    assert repos[..|repos|] == repos;
  }

  method AddRepoCounts(rules: Rules, r: Repo, key: string, c: RepoCounts) returns (counts: RepoCounts)
    ensures counts == CountRepo(rules, key, c, r)
  {
    var dispositions, regressions := CountEvents(rules, r.log, key);
    counts := RepoCounts(c.audited + 1, c.covered + (if Covered(rules, r, key) then 1 else 0),
                         c.dispositions + dispositions, c.regressions + regressions);
  }

  /** build_trends.py's bucket loop, over the keys of the range. */
  method BuildSeries(rules: Rules, repos: seq<Repo>, keys: seq<string>) returns (buckets: seq<Snapshot>)
    ensures buckets == Series(rules, repos, keys).buckets
  {
    buckets := [];
    var prev: Previous := map[];
    for j := 0 to |keys|
      invariant Replayed(buckets, prev) == Series(rules, repos, keys[..j])
    {
      assert keys[..j + 1][..j] == keys[..j];
      var counts, p := ReplayBucket(rules, repos, keys[j], prev);
      buckets := buckets + [Snapshot(keys[j], counts, p.tallies)];
      prev := p.prev;
    }
    assert keys[..|keys|] == keys;
  }

  // ---------- the latest bucket by ownership ----------

  datatype Cut = Cut(repos: nat, ledgered: nat, open: nat, openCritical: nat, openHigh: nat, risk: real)

  const NO_CUT := Cut(0, 0, 0, 0, 0, 0.0)
  const OWNERSHIP_TREES: set<string> := {"findings", "oss-findings", "cloud-config"}

  function TreeOf(r: Repo): string {
    if r.tree == "" then "findings" else r.tree
  }

  function CutFinding(rules: Rules, key: string, c: Cut, item: Item): Cut {
    if ItemState(rules, item, key) != Open then c
    else
      var f := item.finding;
      c.(open := c.open + 1,
         openCritical := c.openCritical + (if f.severity == "critical" then 1 else 0),
         openHigh := c.openHigh + (if f.severity == "high" then 1 else 0),
         risk := c.risk + f.cvss)
  }

  ghost function CutItems(rules: Rules, key: string, c: Cut, items: seq<Item>): Cut {
    if items == [] then c
    else CutFinding(rules, key, CutItems(rules, key, c, items[..|items| - 1]), items[|items| - 1])
  }

  ghost function CutRepo(rules: Rules, key: string, c: Cut, r: Repo): Cut {
    if !Born(rules, r, key) then c
    else
      CutItems(rules, key,
               c.(repos := c.repos + 1, ledgered := c.ledgered + (if r.hasLayer && r.layerStart.Some? then 1 else 0)),
               ItemsOf(r, r.findings))
  }

  /** The share of one tree. */
  ghost function CutOf(rules: Rules, key: string, repos: seq<Repo>, tree: string): Cut {
    if repos == [] then NO_CUT
    else
      var r, before := repos[|repos| - 1], CutOf(rules, key, repos[..|repos| - 1], tree);
      if TreeOf(r) == tree then CutRepo(rules, key, before, r) else before
  }

  method AddRepoToCut(rules: Rules, key: string, c0: Cut, r: Repo) returns (c: Cut)
    ensures c == CutRepo(rules, key, c0, r)
  {
    c := c0;
    if !Born(rules, r, key) {
      return;
    }
    c := c.(repos := c.repos + 1, ledgered := c.ledgered + (if r.hasLayer && r.layerStart.Some? then 1 else 0));
    ghost var start := c;
    for i := 0 to |r.findings|
      invariant c == CutItems(rules, key, start, ItemsOf(r, r.findings[..i]))
    {
      assert r.findings[..i + 1][..i] == r.findings[..i];
      ghost var done := ItemsOf(r, r.findings[..i]);
      assert (done + [Item(r, r.findings[i])])[..|done|] == done;
      c := CutFinding(rules, key, c, Item(r, r.findings[i]));
    }
    assert r.findings[..|r.findings|] == r.findings;
  }

  /** `compute_ownership_cuts`: a second traversal, of the last bucket only. */
  method ComputeOwnershipCuts(rules: Rules, repos: seq<Repo>, key: string) returns (cuts: map<string, Cut>)
    ensures forall t :: (if t in cuts then cuts[t] else NO_CUT) == CutOf(rules, key, repos, t)
    ensures cuts.Keys == {"findings", "oss-findings", "cloud-config"} + set i | 0 <= i < |repos| :: TreeOf(repos[i])
  {
    cuts := map t | t in OWNERSHIP_TREES :: NO_CUT;
    for i := 0 to |repos|
      invariant forall t :: (if t in cuts then cuts[t] else NO_CUT) == CutOf(rules, key, repos[..i], t)
      invariant cuts.Keys == OWNERSHIP_TREES + set j | 0 <= j < i :: TreeOf(repos[j])
    {
      assert repos[..i + 1][..i] == repos[..i];
      var tree := TreeOf(repos[i]);
      var c := AddRepoToCut(rules, key, if tree in cuts then cuts[tree] else NO_CUT, repos[i]);
      cuts := cuts[tree := c];
    }
    assert repos[..|repos|] == repos;
  }
}
