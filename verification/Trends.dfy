/** `build_series` as a whole: choose the range, list its buckets, replay them, cut the last one. */
module Trends {
  import opened Options
  import opened Calendar
  import opened Buckets
  import opened Replay
  import opened TrendFlows

  /** The earliest audit of any repo. */
  ghost predicate EarliestAudit(repos: seq<Repo>, d: Day) {
    (exists i :: 0 <= i < |repos| && repos[i].auditDate == d)
    && forall i :: 0 <= i < |repos| ==> AtOrBefore(d, repos[i].auditDate)
  }

  function StartFrom(earliest: Day, since: Option<Day>): Day {
    if since.Some? && !AtOrBefore(since.value, earliest) then since.value else earliest
  }

  method FirstDay(repos: seq<Repo>, since: Option<Day>) returns (start: Day, ghost earliest: Day)
    requires repos != []
    ensures EarliestAudit(repos, earliest)
    ensures start == StartFrom(earliest, since)
  {
    start := repos[0].auditDate;
    for i := 1 to |repos|
      invariant EarliestAudit(repos[..i], start)
    {
      assert repos[..i + 1] == repos[..i] + [repos[i]];
      ghost var j :| 0 <= j < i && repos[..i][j].auditDate == start;
      assert repos[..i + 1][j].auditDate == start && repos[..i + 1][i] == repos[i];
      OrdinalOrder(repos[i].auditDate, start);
      OrdinalOrder(start, repos[i].auditDate);
      if !AtOrBefore(start, repos[i].auditDate) {
        EarlierStill(repos[..i], start, repos[i].auditDate);
        start := repos[i].auditDate;
      }
    }
    assert repos[..|repos|] == repos;
    earliest := start;
    if since.Some? && !AtOrBefore(since.value, start) {
      start := since.value;
    }
  }

  lemma EarlierStill(repos: seq<Repo>, d: Day, e: Day)
    requires EarliestAudit(repos, d) && AtOrBefore(e, d)
    ensures forall i :: 0 <= i < |repos| ==> AtOrBefore(e, repos[i].auditDate)
  {
    forall i | 0 <= i < |repos|
      ensures AtOrBefore(e, repos[i].auditDate)
    {
      OrdinalOrder(e, d);
      OrdinalOrder(d, repos[i].auditDate);
      OrdinalOrder(e, repos[i].auditDate);
    }
  }

  /** The series over a listing of buckets, and the cuts of the last of them. */
  method ReplayKeys(rules: Rules, repos: seq<Repo>, keys: seq<string>) returns (buckets: seq<Snapshot>, cuts: map<string, Cut>)
    requires keys != []
    ensures buckets == Series(rules, repos, keys).buckets
    ensures forall t :: (if t in cuts then cuts[t] else NO_CUT) == CutOf(rules, keys[|keys| - 1], repos, t)
  {
    buckets := BuildSeries(rules, repos, keys);
    cuts := ComputeOwnershipCuts(rules, repos, keys[|keys| - 1]);
  }

  /** None when the range is empty (enumerating it raises); with no repos there is nothing to show. */
  method BuildTrends(derive: (Finding, seq<Event>) -> Disposition, repos: seq<Repo>, since: Option<Day>, asOf: Day, g: Granularity)
    returns (r: Option<seq<Snapshot>>, cuts: map<string, Cut>, ghost rules: Rules, ghost keys: seq<string>, ghost start: Day)
    ensures rules.derive == derive && Calendared(rules, g)
    ensures repos == [] ==> r == Some([])
    ensures repos != [] ==> exists e: Day :: EarliestAudit(repos, e) && start == StartFrom(e, since)
    ensures repos != [] ==> (r.None? <==> !AtOrBefore(start, asOf))
    ensures repos != [] && r.Some? ==>
      && keys != [] && r.value == Series(rules, repos, keys).buckets
      && (forall d :: Within(d, start, asOf) ==> BucketKey(d, g) in keys)
      && (forall k :: k in keys ==> exists d :: Within(d, start, asOf) && BucketKey(d, g) == k)
      && ((forall d :: Within(d, start, asOf) ==> FourDigitYear(d, g)) ==> Ordered(keys))
      && (forall t :: (if t in cuts then cuts[t] else NO_CUT) == CutOf(rules, keys[|keys| - 1], repos, t))
  {
    var replay := Rules(derive, (d: Day) => BucketKey(d, g));
    rules, keys, cuts := replay, [], map[];
    start := asOf;
    if repos == [] {
      return Some([]), cuts, rules, keys, start;
    }
    ghost var earliest, days;
    var first: Day;
    first, earliest := FirstDay(repos, since);
    start := first;
    var listed;
    listed, days := EnumerateBuckets(first, asOf, g);
    if listed.None? {
      return None, cuts, rules, keys, start;
    }
    IndexMonotone(first, asOf, g);
    KeysAreExact(listed.value, days, first, asOf, g);
    keys := listed.value;
    var buckets;
    buckets, cuts := ReplayKeys(replay, repos, listed.value);
    r := Some(buckets);
  }
}
