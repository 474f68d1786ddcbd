/** The state of a finding as of a bucket, and what a snapshot takes from it, read off its record and the
events of its ledger. */
module TrendStates {
  import opened Options
  import opened Calendar
  import opened Text
  import opened Replay
  import opened TrendFlows

  // ---------- which events count ----------

  /** A finding's events are those that refer to it, in ledger order. */
  lemma {:induction false} OwnInOrder(log: seq<Event>, id: string)
    requires log != []
    ensures Own(log, id) == (if log[0].findingRef == id then [log[0]] else []) + Own(log[1..], id)
  {
    if |log| == 1 {
      assert log[..0] == [] == log[1..];
    } else {
      OwnInOrder(log[..|log| - 1], id);
      assert log[1..][..|log| - 2] == log[..|log| - 1][1..];
    }
  }

  /** Visible are the events dated in the bucket or before it. */
  lemma {:induction false} VisibleInOrder(rules: Rules, events: seq<Event>, key: string)
    requires events != []
    ensures Visible(rules, events, key) ==
      (if LexLe(rules.bucket(events[0].date), key) then [events[0]] else []) + Visible(rules, events[1..], key)
  {
    if |events| == 1 {
      assert events[..0] == [] == events[1..];
    } else {
      VisibleInOrder(rules, events[..|events| - 1], key);
      assert events[1..][..|events| - 2] == events[..|events| - 1][1..];
    }
  }

  // ---------- the state ----------

  /** Without a ledger the audit decides, in every bucket: what it refuted is a false positive, what it
  calls hardening is that, and all else is open. */
  lemma LedgerlessState(rules: Rules, f: Finding, key: string)
    ensures var s := StateOf(rules, f, [], key);
      && (s == FalsePositive <==> f.status == RuledFalse)
      && (s == Hardening <==> f.status == HardeningOnly)
      && (s == Open <==> f.status == NotVerified || f.status == OtherValidity)
  {
  }

  /** With one, the disposition of the visible events does. Refuted goes before how it was resolved, and
  how it was resolved before hardening: hardening whose risk was accepted counts as accepted. */
  lemma LedgeredState(rules: Rules, f: Finding, events: seq<Event>, key: string)
    requires events != []
    ensures var s, d := StateOf(rules, f, events, key), rules.derive(f, Visible(rules, events, key));
      && (s == FalsePositive <==> d.validity == RuledFalse)
      && (s == Closed <==> d.resolution == Resolved && d.validity != RuledFalse)
      && (s == Accepted <==> d.resolution == RiskAccepted && d.validity != RuledFalse)
      && (s == Hardening <==> d.validity == HardeningOnly && d.resolution !in {Resolved, RiskAccepted})
      && (s == Open <==> d.validity in {NotVerified, OtherValidity} && d.resolution !in {Resolved, RiskAccepted})
  {
  }

  // ---------- the weight of hardening ----------

  /** A visible hardening event that records its weight. */
  ghost predicate Weighs(rules: Rules, e: Event, key: string) {
    e.validity == Some(HardeningOnly) && LexLe(rules.bucket(e.date), key) && e.lambda.Some?
  }

  /** The last such event gives the weight, and without one it is three tenths. */
  lemma {:induction false} LambdaExact(rules: Rules, events: seq<Event>, key: string)
    ensures if exists e :: e in events && Weighs(rules, e, key)
      then exists i :: LastWeight(rules, events, key, i) && HardeningLambda(rules, events, key) == events[i].lambda.value
      else HardeningLambda(rules, events, key) == 3.0 / 10.0
  {
    if events != [] {
      var init, last := events[..|events| - 1], events[|events| - 1];
      assert events == init + [last];
      LambdaExact(rules, init, key);
      if Weighs(rules, last, key) {
        assert LastWeight(rules, events, key, |init|);
      } else if e :| e in init && Weighs(rules, e, key) {
        var i :| LastWeight(rules, init, key, i) && HardeningLambda(rules, init, key) == init[i].lambda.value;
        assert LastWeight(rules, events, key, i) && events[i] == init[i];
      }
    }
  }

  ghost predicate LastWeight(rules: Rules, events: seq<Event>, key: string, i: int) {
    && 0 <= i < |events| && Weighs(rules, events[i], key)
    && forall j :: i < j < |events| ==> !Weighs(rules, events[j], key)
  }

  // ---------- the time to close ----------

  ghost predicate Closes(rules: Rules, e: Event, key: string) {
    e.resolution == Some(Resolved) && LexLe(rules.bucket(e.date), key)
  }

  /** The latest day on which a visible event closed the finding. */
  lemma {:induction false} CloseDateExact(rules: Rules, events: seq<Event>, key: string)
    ensures CloseDate(rules, events, key).None? <==> forall e :: e in events ==> !Closes(rules, e, key)
    ensures CloseDate(rules, events, key).Some? ==>
      && (exists e :: e in events && Closes(rules, e, key) && e.date == CloseDate(rules, events, key).value)
      && forall e :: e in events && Closes(rules, e, key) ==> Ordinal(e.date) <= Ordinal(CloseDate(rules, events, key).value)
  {
    if events != [] {
      var init, last := events[..|events| - 1], events[|events| - 1];
      assert events == init + [last];
      CloseDateExact(rules, init, key);
      var before := CloseDate(rules, init, key);
      if Closes(rules, last, key) {
        if before.Some? {
          OrdinalOrder(last.date, before.value);
        }
        LatestOfTwo(rules, init, last, key);
      }
    }
  }

  lemma LatestOfTwo(rules: Rules, init: seq<Event>, last: Event, key: string)
    requires Closes(rules, last, key)
    ensures CloseDate(rules, init + [last], key) == Some(Later(CloseDate(rules, init, key), last.date))
  {
    assert (init + [last])[..|init|] == init;
  }

  /** A closing counts the days from the audit, and none if it came before. */
  lemma ClosingExact(rules: Rules, item: Item, key: string)
    ensures var cd, closing := CloseDate(rules, Own(item.repo.log, item.finding.id), key), DaysToClose(rules, item, key);
      && (cd.None? <==> closing == [])
      && (cd.Some? ==>
            && |closing| == 1 && closing[0].0 == item.finding.severity && closing[0].1 >= 0
            && (Ordinal(item.repo.auditDate) <= Ordinal(cd.value) ==>
                  Ordinal(item.repo.auditDate) + closing[0].1 == Ordinal(cd.value))
            && (Ordinal(cd.value) < Ordinal(item.repo.auditDate) ==> closing[0].1 == 0))
  {
  }

  // ---------- what a snapshot takes ----------

  /** A snapshot takes a finding's own figures, from the events of its own ledger. */
  lemma FactsExact(rules: Rules, key: string, item: Item)
    ensures var f, own := FactsOf(rules, key, item), Own(item.repo.log, item.finding.id);
      && (f.bornNow <==> rules.bucket(item.repo.auditDate) == key)
      && f.state == StateOf(rules, item.finding, own, key)
      && f.severity == item.finding.severity && f.band == item.finding.band && f.cvss == item.finding.cvss
      && f.lambda == HardeningLambda(rules, own, key) && f.closing == DaysToClose(rules, item, key)
  {
  }

  /** The events of a bucket are counted once each, whatever finding they refer to; some of them are
  regressions. */
  lemma {:induction false} EventsExact(rules: Rules, key: string, log: seq<Event>)
    requires log != []
    ensures EventsIn(rules, log, key) == (if rules.bucket(log[0].date) == key then 1 else 0) + EventsIn(rules, log[1..], key)
    ensures RegressionsIn(rules, log, key) ==
      (if rules.bucket(log[0].date) == key && log[0].resolution == Some(RegressionIntroduced) then 1 else 0)
      + RegressionsIn(rules, log[1..], key)
  {
    if |log| == 1 {
      assert log[..0] == [] == log[1..];
    } else {
      EventsExact(rules, key, log[..|log| - 1]);
      assert log[1..][..|log| - 2] == log[..|log| - 1][1..];
    }
  }

  function BornIn(rules: Rules, key: string): Item -> bool {
    (x: Item) => rules.bucket(x.repo.auditDate) == key
  }

  /** A bucket discovers the findings of the repos audited in it. */
  lemma {:induction false} DiscoveredExact(rules: Rules, key: string, p: Pass, items: seq<Item>)
    ensures ObserveAll(rules, key, p, items).tallies.discovered == p.tallies.discovered + Count(items, BornIn(rules, key))
  {
    if items != [] {
      var init, item := items[..|items| - 1], items[|items| - 1];
      DiscoveredExact(rules, key, p, init);
      var q := ObserveAll(rules, key, p, init);
      TallyNotes(q.tallies, Before(q.prev, item.Fid()), FactsOf(rules, key, item));
    }
  }

  /** A finding new to the closed stock adds its time to close; none other does. */
  lemma TallyNotes(t: Tallies, was: Option<State>, f: Facts)
    ensures Tally(t, was, f).discovered == t.discovered + (if f.bornNow then 1 else 0)
    ensures Tally(t, was, f).mttr == t.mttr + (if f.state == Closed && was != Some(Closed) then f.closing else [])
  {
  }

  /** A repo is in a snapshot from the bucket of its audit on, and covered from that of its first event. */
  lemma RepoExact(rules: Rules, key: string, r: Repo)
    ensures RepoCountsOf(rules, key, [r]).audited == if LexLe(rules.bucket(r.auditDate), key) then 1 else 0
    ensures RepoCountsOf(rules, key, [r]).covered ==
      if LexLe(rules.bucket(r.auditDate), key) && r.hasLayer && r.layerStart.Some? && LexLe(rules.bucket(r.layerStart.value), key)
      then 1 else 0
  {
    assert [r][..0] == [];
  }

  /** A tree's share counts its repos audited by then, a repo without a tree among the findings, and as
  ledgered those with any event at all. */
  lemma CutCountsRepo(rules: Rules, key: string, repos: seq<Repo>, r: Repo, tree: string)
    ensures var before, after := CutOf(rules, key, repos, tree), CutOf(rules, key, repos + [r], tree);
      var counts := (if r.tree == "" then "findings" else r.tree) == tree && LexLe(rules.bucket(r.auditDate), key);
      && after.repos == before.repos + (if counts then 1 else 0)
      && after.ledgered == before.ledgered + (if counts && r.hasLayer && r.layerStart.Some? then 1 else 0)
  {
    assert (repos + [r])[..|repos|] == repos;
    if TreeOf(r) == tree && Born(rules, r, key) {
      var c := CutOf(rules, key, repos, tree);
      CutKeepsRepos(rules, key, c.(repos := c.repos + 1, ledgered := c.ledgered + (if r.hasLayer && r.layerStart.Some? then 1 else 0)),
                    ItemsOf(r, r.findings));
    }
  }

  lemma {:induction false} CutKeepsRepos(rules: Rules, key: string, c: Cut, items: seq<Item>)
    ensures CutItems(rules, key, c, items).repos == c.repos && CutItems(rules, key, c, items).ledgered == c.ledgered
  {
    if items != [] {
      CutKeepsRepos(rules, key, c, items[..|items| - 1]);
    }
  }
}
