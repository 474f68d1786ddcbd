/** History is stable: events dated after a bucket leave every snapshot up to it as it was. */
module TrendHistory {
  import opened Options
  import opened Calendar
  import opened Buckets
  import opened Text
  import opened Replay

  // ---------- everything reads the log through what is visible ----------

  lemma {:induction false} VisibleTwice(rules: Rules, log: seq<Event>, key: string, k: string)
    requires LexLe(key, k)
    ensures Visible(rules, Visible(rules, log, k), key) == Visible(rules, log, key)
  {
    if log != [] {
      var init, e := log[..|log| - 1], log[|log| - 1];
      VisibleTwice(rules, init, key, k);
      var v := Visible(rules, init, k);
      if Seen(rules, e, k) {
        assert (v + [e])[..|v|] == v;
      } else if Seen(rules, e, key) {
        LexTransitive(KeyOf(rules, e), key, k);
      }
    }
  }

  lemma {:induction false} OwnOfVisible(rules: Rules, log: seq<Event>, id: string, key: string)
    ensures Visible(rules, Own(log, id), key) == Own(Visible(rules, log, key), id)
  {
    if log != [] {
      var init, e := log[..|log| - 1], log[|log| - 1];
      OwnOfVisible(rules, init, id, key);
      var o, v := Own(init, id), Visible(rules, init, key);
      assert (o + [e])[..|o|] == o && (v + [e])[..|v|] == v;
    }
  }

  lemma {:induction false} LambdaOfVisible(rules: Rules, events: seq<Event>, key: string)
    ensures HardeningLambda(rules, events, key) == HardeningLambda(rules, Visible(rules, events, key), key)
  {
    if events != [] {
      var init, e := events[..|events| - 1], events[|events| - 1];
      LambdaOfVisible(rules, init, key);
      var v := Visible(rules, init, key);
      assert (v + [e])[..|v|] == v;
    }
  }

  lemma {:induction false} CloseOfVisible(rules: Rules, events: seq<Event>, key: string)
    ensures CloseDate(rules, events, key) == CloseDate(rules, Visible(rules, events, key), key)
  {
    if events != [] {
      var init, e := events[..|events| - 1], events[|events| - 1];
      CloseOfVisible(rules, init, key);
      var v := Visible(rules, init, key);
      assert (v + [e])[..|v|] == v;
    }
  }

  lemma {:induction false} EventsOfVisible(rules: Rules, log: seq<Event>, key: string)
    ensures EventsIn(rules, log, key) == EventsIn(rules, Visible(rules, log, key), key)
    ensures RegressionsIn(rules, log, key) == RegressionsIn(rules, Visible(rules, log, key), key)
  {
    if log != [] {
      var init, e := log[..|log| - 1], log[|log| - 1];
      EventsOfVisible(rules, init, key);
      var v := Visible(rules, init, key);
      assert (v + [e])[..|v|] == v;
      LexReflexive(key);
    }
  }

  // ---------- coverage ----------

  /** How discovery fills a repo record from its layer file. */
  ghost predicate Discovered(r: Repo) {
    r.layerStart == EarliestDay(r.log) && (!r.hasLayer ==> r.log == [])
  }

  ghost predicate FourDigitLog(g: Granularity, log: seq<Event>) {
    forall i :: 0 <= i < |log| ==> FourDigitYear(log[i].date, g)
  }

  /** The earliest day stands for the log: its bucket is reached exactly when some event is visible. */
  lemma {:induction false} EarliestSeen(rules: Rules, g: Granularity, log: seq<Event>, key: string)
    requires Calendared(rules, g) && FourDigitLog(g, log) && log != []
    ensures EarliestDay(log).Some? && FourDigitYear(EarliestDay(log).value, g)
    ensures LexLe(rules.bucket(EarliestDay(log).value), key) <==> Visible(rules, log, key) != []
  {
    var init, e := log[..|log| - 1], log[|log| - 1];
    if init != [] {
      EarliestSeen(rules, g, init, key);
      var a := EarliestDay(init).value;
      OrdinalOrder(a, e.date);
      OrdinalOrder(e.date, a);
      if AtOrBefore(a, e.date) {
        IndexMonotone(a, e.date, g);
        KeyOrderIsTimeOrder(a, e.date, g);
        if Seen(rules, e, key) {
          LexTransitive(rules.bucket(a), KeyOf(rules, e), key);
        }
      } else {
        IndexMonotone(e.date, a, g);
        KeyOrderIsTimeOrder(e.date, a, g);
        if LexLe(rules.bucket(a), key) {
          LexTransitive(KeyOf(rules, e), rules.bucket(a), key);
        }
      }
    } else {
      assert EarliestDay(init) == None && Visible(rules, init, key) == [];
    }
  }

  lemma CoveredExact(rules: Rules, g: Granularity, r: Repo, key: string)
    requires Calendared(rules, g) && Discovered(r) && FourDigitLog(g, r.log)
    ensures Covered(rules, r, key) <==> Visible(rules, r.log, key) != []
  {
    if r.log != [] {
      EarliestSeen(rules, g, r.log, key);
    }
  }

  // ---------- repos that look the same up to a bucket ----------

  /** The unseen replay of an empty log comes to the state a finding has with no ledger at all. */
  ghost predicate EmptyReplayIsDefault(rules: Rules, f: Finding) {
    Classify(rules.derive(f, [])) == Classify(Default(f))
  }

  ghost predicate AlikeFor(rules: Rules, f: Finding, a: seq<Event>, b: seq<Event>) {
    (a == [] <==> b == []) || EmptyReplayIsDefault(rules, f)
  }

  ghost predicate SameUpTo(rules: Rules, g: Granularity, a: Repo, b: Repo, k: string) {
    && Calendared(rules, g)
    && a.dir == b.dir && a.auditDate == b.auditDate && a.findings == b.findings
    && Discovered(a) && Discovered(b) && FourDigitLog(g, a.log) && FourDigitLog(g, b.log)
    && Visible(rules, a.log, k) == Visible(rules, b.log, k)
    && forall i :: 0 <= i < |a.findings| ==>
         AlikeFor(rules, a.findings[i], Own(a.log, a.findings[i].id), Own(b.log, a.findings[i].id))
  }

  lemma SameOwnVisible(rules: Rules, g: Granularity, a: Repo, b: Repo, k: string, key: string, id: string)
    requires SameUpTo(rules, g, a, b, k) && LexLe(key, k)
    ensures Visible(rules, a.log, key) == Visible(rules, b.log, key)
    ensures Visible(rules, Own(a.log, id), key) == Visible(rules, Own(b.log, id), key)
  {
    VisibleTwice(rules, a.log, key, k);
    VisibleTwice(rules, b.log, key, k);
    OwnOfVisible(rules, a.log, id, key);
    OwnOfVisible(rules, b.log, id, key);
  }

  lemma SameState(rules: Rules, g: Granularity, a: Repo, b: Repo, k: string, key: string, i: nat)
    requires SameUpTo(rules, g, a, b, k) && LexLe(key, k) && i < |a.findings|
    ensures var x, y := Item(a, a.findings[i]), Item(b, b.findings[i]);
      && ItemState(rules, x, key) == ItemState(rules, y, key)
      && HardeningLambda(rules, x.Events(), key) == HardeningLambda(rules, y.Events(), key)
      && CloseDate(rules, x.Events(), key) == CloseDate(rules, y.Events(), key)
  {
    var f := a.findings[i];
    var x, y := Own(a.log, f.id), Own(b.log, f.id);
    SameOwnVisible(rules, g, a, b, k, key, f.id);
    assert AlikeFor(rules, f, x, y);
    LambdaOfVisible(rules, x, key);
    LambdaOfVisible(rules, y, key);
    CloseOfVisible(rules, x, key);
    CloseOfVisible(rules, y, key);
  }

  /** Two items a snapshot cannot tell apart, and two populations of such items. */
  ghost predicate SameEffect(rules: Rules, key: string, s: Item, t: Item) {
    s.Fid() == t.Fid() && FactsOf(rules, key, s) == FactsOf(rules, key, t)
  }

  ghost predicate SameEffects(rules: Rules, key: string, x: seq<Item>, y: seq<Item>) {
    |x| == |y| && forall i :: 0 <= i < |x| ==> SameEffect(rules, key, x[i], y[i])
  }

  lemma {:induction false} ObserveSameEffects(rules: Rules, key: string, p: Pass, x: seq<Item>, y: seq<Item>)
    requires SameEffects(rules, key, x, y)
    ensures ObserveAll(rules, key, p, x) == ObserveAll(rules, key, p, y)
  {
    if x != [] {
      ObserveSameEffects(rules, key, p, x[..|x| - 1], y[..|y| - 1]);
      assert SameEffect(rules, key, x[|x| - 1], y[|y| - 1]);
    }
  }

  lemma {:induction false} ItemsExact(r: Repo, findings: seq<Finding>)
    ensures |ItemsOf(r, findings)| == |findings|
    ensures forall i :: 0 <= i < |findings| ==> ItemsOf(r, findings)[i] == Item(r, findings[i])
  {
    if findings != [] {
      ItemsExact(r, findings[..|findings| - 1]);
    }
  }

  lemma SameFacts(rules: Rules, g: Granularity, a: Repo, b: Repo, k: string, key: string, i: nat)
    requires SameUpTo(rules, g, a, b, k) && LexLe(key, k) && i < |a.findings|
    ensures SameEffect(rules, key, Item(a, a.findings[i]), Item(b, b.findings[i]))
  {
    SameState(rules, g, a, b, k, key, i);
    assert DaysToClose(rules, Item(a, a.findings[i]), key) == DaysToClose(rules, Item(b, b.findings[i]), key);
  }

  lemma SameItems(rules: Rules, g: Granularity, a: Repo, b: Repo, k: string, key: string)
    requires SameUpTo(rules, g, a, b, k) && LexLe(key, k)
    ensures SameEffects(rules, key, ItemsOf(a, a.findings), ItemsOf(b, b.findings))
  {
    ItemsExact(a, a.findings);
    ItemsExact(b, b.findings);
    forall i | 0 <= i < |a.findings|
      ensures SameEffect(rules, key, Item(a, a.findings[i]), Item(b, b.findings[i]))
    {
      SameFacts(rules, g, a, b, k, key, i);
    }
  }

  ghost predicate AllSameUpTo(rules: Rules, g: Granularity, x: seq<Repo>, y: seq<Repo>, k: string) {
    |x| == |y| && forall i :: 0 <= i < |x| ==> SameUpTo(rules, g, x[i], y[i], k)
  }

  lemma SameCounts(rules: Rules, g: Granularity, a: Repo, b: Repo, k: string, key: string, c: RepoCounts)
    requires SameUpTo(rules, g, a, b, k) && LexLe(key, k)
    ensures CountRepo(rules, key, c, a) == CountRepo(rules, key, c, b)
  {
    SameOwnVisible(rules, g, a, b, k, key, "");
    CoveredExact(rules, g, a, key);
    CoveredExact(rules, g, b, key);
    EventsOfVisible(rules, a.log, key);
    EventsOfVisible(rules, b.log, key);
  }

  lemma SameEffectsConcat(rules: Rules, key: string, x: seq<Item>, y: seq<Item>, u: seq<Item>, v: seq<Item>)
    requires SameEffects(rules, key, x, y) && SameEffects(rules, key, u, v)
    ensures SameEffects(rules, key, x + u, y + v)
  {
  }

  lemma {:induction false} SamePopulation(rules: Rules, g: Granularity, x: seq<Repo>, y: seq<Repo>, k: string, key: string)
    requires AllSameUpTo(rules, g, x, y, k) && LexLe(key, k)
    ensures SameEffects(rules, key, Population(rules, x, key), Population(rules, y, key))
  {
    if x != [] {
      var n := |x| - 1;
      assert SameUpTo(rules, g, x[n], y[n], k);
      SamePopulation(rules, g, x[..n], y[..n], k, key);
      SameItems(rules, g, x[n], y[n], k, key);
      SameEffectsConcat(rules, key, Population(rules, x[..n], key), Population(rules, y[..n], key),
                        ItemsOf(x[n], x[n].findings), ItemsOf(y[n], y[n].findings));
    }
  }

  lemma {:induction false} SameRepoCounts(rules: Rules, g: Granularity, x: seq<Repo>, y: seq<Repo>, k: string, key: string)
    requires AllSameUpTo(rules, g, x, y, k) && LexLe(key, k)
    ensures RepoCountsOf(rules, key, x) == RepoCountsOf(rules, key, y)
  {
    if x != [] {
      var n := |x| - 1;
      assert SameUpTo(rules, g, x[n], y[n], k);
      SameRepoCounts(rules, g, x[..n], y[..n], k, key);
      SameCounts(rules, g, x[n], y[n], k, key, RepoCountsOf(rules, key, x[..n]));
    }
  }

  lemma {:induction false} SameSeries(rules: Rules, g: Granularity, x: seq<Repo>, y: seq<Repo>, k: string, keys: seq<string>)
    requires AllSameUpTo(rules, g, x, y, k) && forall i :: 0 <= i < |keys| ==> LexLe(keys[i], k)
    ensures Series(rules, x, keys) == Series(rules, y, keys)
  {
    if keys != [] {
      var init, key := keys[..|keys| - 1], keys[|keys| - 1];
      SameSeries(rules, g, x, y, k, init);
      SameRepoCounts(rules, g, x, y, k, key);
      SamePopulation(rules, g, x, y, k, key);
      ObserveSameEffects(rules, key, Pass(NOTHING, Series(rules, x, init).prev),
                         Population(rules, x, key), Population(rules, y, key));
    }
  }

  lemma SeriesStep(rules: Rules, x: seq<Repo>, keys: seq<string>)
    requires keys != []
    ensures var before, after := Series(rules, x, keys[..|keys| - 1]).buckets, Series(rules, x, keys).buckets;
      |after| == |before| + 1 && after[..|before|] == before
  {
  }

  lemma {:induction false} SeriesLength(rules: Rules, x: seq<Repo>, keys: seq<string>)
    ensures |Series(rules, x, keys).buckets| == |keys|
  {
    if keys != [] {
      SeriesLength(rules, x, keys[..|keys| - 1]);
      SeriesStep(rules, x, keys);
    }
  }

  lemma {:induction false} SeriesPrefix(rules: Rules, x: seq<Repo>, keys: seq<string>, n: nat)
    requires n <= |keys|
    ensures |Series(rules, x, keys).buckets| == |keys|
    ensures Series(rules, x, keys).buckets[..n] == Series(rules, x, keys[..n]).buckets
    decreases |keys|
  {
    SeriesLength(rules, x, keys);
    if n == |keys| {
      assert keys[..n] == keys;
    } else {
      var init := keys[..|keys| - 1];
      SeriesLength(rules, x, init);
      SeriesStep(rules, x, keys);
      SeriesPrefix(rules, x, init, n);
      assert init[..n] == keys[..n];
      PrefixOfPrefix(Series(rules, x, keys).buckets, |init|, n);
    }
  }

  lemma PrefixOfPrefix<T>(s: seq<T>, m: nat, n: nat)
    requires n <= m <= |s|
    ensures s[..m][..n] == s[..n]
  {
  }

  /** Snapshots up to a bucket depend only on what was visible by it: states, risk sums, closing
  times, coverage and flows alike. */
  lemma HistoryIsStable(rules: Rules, g: Granularity, x: seq<Repo>, y: seq<Repo>, k: string, keys: seq<string>, n: nat)
    requires AllSameUpTo(rules, g, x, y, k)
    requires n <= |keys| && forall i :: 0 <= i < n ==> LexLe(keys[i], k)
    ensures |Series(rules, x, keys).buckets| == |Series(rules, y, keys).buckets| == |keys|
    ensures Series(rules, x, keys).buckets[..n] == Series(rules, y, keys).buckets[..n]
  {
    SeriesPrefix(rules, x, keys, n);
    SeriesPrefix(rules, y, keys, n);
    SameSeries(rules, g, x, y, k, keys[..n]);
  }

  // ---------- a late event ----------

  function Inserted(log: seq<Event>, p: nat, e: Event): seq<Event>
    requires p <= |log|
  {
    log[..p] + [e] + log[p..]
  }

  lemma {:induction false} VisibleConcat(rules: Rules, a: seq<Event>, b: seq<Event>, key: string)
    ensures Visible(rules, a + b, key) == Visible(rules, a, key) + Visible(rules, b, key)
  {
    if b == [] {
      assert a + b == a;
    } else {
      VisibleConcat(rules, a, b[..|b| - 1], key);
      assert (a + b)[..|a + b| - 1] == a + b[..|b| - 1];
    }
  }

  lemma {:induction false} OwnConcat(a: seq<Event>, b: seq<Event>, id: string)
    ensures Own(a + b, id) == Own(a, id) + Own(b, id)
  {
    if b == [] {
      assert a + b == a;
    } else {
      OwnConcat(a, b[..|b| - 1], id);
      assert (a + b)[..|a + b| - 1] == a + b[..|b| - 1];
    }
  }

  lemma InsertedUnseen(rules: Rules, log: seq<Event>, p: nat, e: Event, key: string)
    requires p <= |log| && !Seen(rules, e, key)
    ensures Visible(rules, Inserted(log, p, e), key) == Visible(rules, log, key)
  {
    var a, b := log[..p], log[p..];
    assert log == a + b;
    VisibleConcat(rules, a, b, key);
    VisibleConcat(rules, a + [e], b, key);
    assert (a + [e])[..|a|] == a;
  }

  lemma InsertedOwn(log: seq<Event>, p: nat, e: Event, id: string)
    requires p <= |log|
    ensures Own(Inserted(log, p, e), id) == [] <==> Own(log, id) == [] && e.findingRef != id
  {
    OwnConcat(log[..p] + [e], log[p..], id);
    OwnConcat(log[..p], [e], id);
    OwnConcat(log[..p], log[p..], id);
    assert log == log[..p] + log[p..];
    assert [e][..0] == [] && Own([e], id) == if e.findingRef == id then [e] else [];
  }

  lemma InsertedFourDigit(g: Granularity, log: seq<Event>, p: nat, e: Event)
    requires p <= |log| && FourDigitLog(g, log) && FourDigitYear(e.date, g)
    ensures FourDigitLog(g, Inserted(log, p, e))
  {
  }

  /** A later event anywhere in a finding's log keeps its earlier state exactly when the log was not
  empty or replaying an empty log agrees with having none. */
  lemma LateEventExact(rules: Rules, f: Finding, events: seq<Event>, p: nat, e: Event, key: string)
    requires p <= |events| && !Seen(rules, e, key)
    ensures StateOf(rules, f, Inserted(events, p, e), key) == StateOf(rules, f, events, key)
      <==> events != [] || EmptyReplayIsDefault(rules, f)
  {
    InsertedUnseen(rules, events, p, e, key);
    assert Inserted(events, p, e) != [];
  }

  /** A repo whose ledger gains an event after bucket `k`, written on the next discovery. */
  function WithLateEvent(r: Repo, p: nat, e: Event): Repo
    requires p <= |r.log|
  {
    var log := Inserted(r.log, p, e);
    r.(log := log, hasLayer := true, layerStart := EarliestDay(log))
  }

  lemma LateEventLooksTheSame(rules: Rules, g: Granularity, r: Repo, p: nat, e: Event, k: string)
    requires Calendared(rules, g) && Discovered(r) && FourDigitLog(g, r.log) && p <= |r.log|
    requires !Seen(rules, e, k) && FourDigitYear(e.date, g)
    requires forall f :: f in r.findings && f.id == e.findingRef && Own(r.log, f.id) == [] ==> EmptyReplayIsDefault(rules, f)
    ensures SameUpTo(rules, g, r, WithLateEvent(r, p, e), k)
  {
    InsertedUnseen(rules, r.log, p, e, k);
    InsertedFourDigit(g, r.log, p, e);
    forall i | 0 <= i < |r.findings|
      ensures AlikeFor(rules, r.findings[i], Own(r.log, r.findings[i].id), Own(Inserted(r.log, p, e), r.findings[i].id))
    {
      InsertedOwn(r.log, p, e, r.findings[i].id);
    }
    assert Discovered(WithLateEvent(r, p, e));
  }

  ghost predicate Wellformed(rules: Rules, g: Granularity, repos: seq<Repo>) {
    Calendared(rules, g) && forall i :: 0 <= i < |repos| ==> Discovered(repos[i]) && FourDigitLog(g, repos[i].log)
  }

  lemma SameAsItself(rules: Rules, g: Granularity, r: Repo, k: string)
    requires Calendared(rules, g) && Discovered(r) && FourDigitLog(g, r.log)
    ensures SameUpTo(rules, g, r, r, k)
  {
  }

  lemma SameButForOne(rules: Rules, g: Granularity, repos: seq<Repo>, i: nat, r: Repo, k: string)
    requires Wellformed(rules, g, repos) && i < |repos| && SameUpTo(rules, g, repos[i], r, k)
    ensures AllSameUpTo(rules, g, repos, repos[i := r], k)
  {
    forall j | 0 <= j < |repos|
      ensures SameUpTo(rules, g, repos[j], repos[i := r][j], k)
    {
      if j != i {
        SameAsItself(rules, g, repos[j], k);
      }
    }
  }

  /** Appending, or slipping in, a ledger event dated after bucket `k` rewrites no snapshot up to `k`,
  if the finding it is about already had an event or the replay of an empty log is the default. */
  lemma LateEventChangesNoHistory(rules: Rules, g: Granularity, repos: seq<Repo>, i: nat, p: nat, e: Event,
                                  k: string, keys: seq<string>, n: nat)
    requires Wellformed(rules, g, repos) && i < |repos| && p <= |repos[i].log|
    requires !Seen(rules, e, k) && FourDigitYear(e.date, g)
    requires forall f :: f in repos[i].findings && f.id == e.findingRef && Own(repos[i].log, f.id) == [] ==>
      EmptyReplayIsDefault(rules, f)
    requires n <= |keys| && forall j :: 0 <= j < n ==> LexLe(keys[j], k)
    ensures var later := repos[i := WithLateEvent(repos[i], p, e)];
      |Series(rules, later, keys).buckets| == |Series(rules, repos, keys).buckets| == |keys| &&
      Series(rules, later, keys).buckets[..n] == Series(rules, repos, keys).buckets[..n]
  {
    LateEventLooksTheSame(rules, g, repos[i], p, e, k);
    SameButForOne(rules, g, repos, i, WithLateEvent(repos[i], p, e), k);
    HistoryIsStable(rules, g, repos, repos[i := WithLateEvent(repos[i], p, e)], k, keys, n);
  }
}
