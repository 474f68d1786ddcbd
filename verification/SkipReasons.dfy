/** The skip reason of a finding, unlike its verdict, can depend on the order of the results: when it
does not. */
module SkipReasons {
  import opened Options
  import opened Soundness
  import opened Steps
  import opened Report
  import opened Sorting

  ghost predicate Skips(id: string, r: StepResult) {
    r.findingRef == id && id != "" && Primary(r) && PlannerSkip(r)
  }

  ghost predicate Blocks(id: string, r: StepResult) {
    Bears(id, r) && r.verdict == BlockedByScope
  }

  /** No planner skip gives a reason. */
  ghost predicate SkipsSilent(id: string, results: seq<StepResult>) {
    forall r :: r in results && Skips(id, r) ==> Reason(r).None?
  }

  /** The planner skips give at most one reason between them. */
  ghost predicate SkipsAgree(id: string, results: seq<StepResult>) {
    forall r, s :: r in results && s in results && Skips(id, r) && Skips(id, s) && Reason(r).Some? && Reason(s).Some? ==>
      Reason(r) == Reason(s)
  }

  ghost predicate BlocksAgree(id: string, results: seq<StepResult>) {
    forall r, s :: r in results && s in results && Blocks(id, r) && Blocks(id, s) ==> Reason(r) == Reason(s)
  }

  ghost predicate BlocksSpeak(id: string, results: seq<StepResult>) {
    forall r :: r in results && Blocks(id, r) ==> Reason(r).Some?
  }

  /** By the verdict, which order does not touch, and the reasons given, in whatever order. */
  ghost predicate ReasonSettled(id: string, results: seq<StepResult>) {
    match Rolled(id, results).verdict
    case NotAttempted => SkipsAgree(id, results)
    case BlockedByScope => BlocksAgree(id, results) && (BlocksSpeak(id, results) || SkipsSilent(id, results))
    case _ => SkipsSilent(id, results)
  }

  // ---------- settled: the reason follows from what occurs ----------

  lemma {:induction false} UnattemptedReason(id: string, results: seq<StepResult>)
    requires Rolled(id, results).verdict == NotAttempted
    ensures Rolled(id, results).skipReason.Some? <==> !SkipsSilent(id, results)
    ensures Rolled(id, results).skipReason.Some? ==>
      exists r :: r in results && Skips(id, r) && Reason(r) == Rolled(id, results).skipReason
  {
    if results != [] {
      var init, r := results[..|results| - 1], results[|results| - 1];
      assert results == init + [r];
      VerdictIsBest(id, init);
      UnattemptedReason(id, init);
    }
  }

  lemma {:induction false} BlockedReason(id: string, results: seq<StepResult>, why: string)
    requires Rolled(id, results).verdict == BlockedByScope
    requires forall r :: r in results && Blocks(id, r) ==> Reason(r) == Some(why)
    ensures Rolled(id, results).skipReason == Some(why)
  {
    var init, r := results[..|results| - 1], results[|results| - 1];
    assert results == init + [r];
    if Rolled(id, init).verdict == BlockedByScope {
      BlockedReason(id, init, why);
    } else {
      assert Blocks(id, r);
    }
  }

  lemma {:induction false} SilentReason(id: string, results: seq<StepResult>)
    requires SkipsSilent(id, results)
    requires Rolled(id, results).verdict == BlockedByScope ==>
      forall r :: r in results && Blocks(id, r) ==> Reason(r).None?
    ensures Rolled(id, results).skipReason.None?
  {
    if results != [] {
      var init, r := results[..|results| - 1], results[|results| - 1];
      assert results == init + [r];
      VerdictIsBest(id, init);
      if Rolled(id, init).verdict == Rolled(id, results).verdict {
        SilentReason(id, init);
      } else {
        assert Bears(id, r);
      }
    }
  }

  /** A settled reason is the same in any order, and however often results are repeated. */
  lemma SettledIgnoresOrder(id: string, a: seq<StepResult>, b: seq<StepResult>)
    requires ReasonSettled(id, a) && forall r :: r in a <==> r in b
    ensures Rolled(id, a).skipReason == Rolled(id, b).skipReason
  {
    VerdictIgnoresOrder(id, a, b);
    match Rolled(id, a).verdict
    case NotAttempted =>
      UnattemptedReason(id, a);
      UnattemptedReason(id, b);
    case BlockedByScope =>
      VerdictIsBest(id, a);
      var x :| x in a && Blocks(id, x);
      if Reason(x).Some? {
        BlockedReason(id, a, Reason(x).value);
        BlockedReason(id, b, Reason(x).value);
      } else {
        SilentReason(id, a);
        SilentReason(id, b);
      }
    case _ =>
      SilentReason(id, a);
      SilentReason(id, b);
  }

  lemma AbsorbCases(id: string, e: Entry, r: StepResult)
    requires r.findingRef == id && id != ""
    ensures var after := Absorb(e, r);
      && (Skips(id, r) ==> after.verdict == e.verdict && after.skipReason == if e.skipReason.None? then Reason(r) else e.skipReason)
      && (!Skips(id, r) && !Bears(id, r) ==> after.verdict == e.verdict && after.skipReason == e.skipReason)
      && (Bears(id, r) && Precedence(e.verdict) <= Precedence(r.verdict) ==>
            after.verdict == e.verdict && after.skipReason == e.skipReason)
      && (Bears(id, r) && Precedence(r.verdict) < Precedence(e.verdict) ==>
            after.verdict == r.verdict
            && after.skipReason == if r.verdict == NotAttempted || r.verdict == BlockedByScope then Reason(r) else None)
  {
    BearsExact(id, r);
  }

  lemma RolledSnoc(id: string, results: seq<StepResult>, r: StepResult)
    ensures var e, after := Rolled(id, results), Rolled(id, results + [r]);
      && after == (if r.findingRef == id && id != "" then Absorb(e, r) else e)
      && (Skips(id, r) ==> after.verdict == e.verdict && after.skipReason == if e.skipReason.None? then Reason(r) else e.skipReason)
      && (!Skips(id, r) && !Bears(id, r) ==> after.verdict == e.verdict && after.skipReason == e.skipReason)
      && (Bears(id, r) && Precedence(e.verdict) <= Precedence(r.verdict) ==>
            after.verdict == e.verdict && after.skipReason == e.skipReason)
  {
    assert (results + [r])[..|results|] == results;
    if r.findingRef == id && id != "" {
      AbsorbCases(id, Rolled(id, results), r);
    }
  }

  // ---------- unsettled: two orders that differ ----------

  /** Nothing in `rest` is an attempt better than `v`. */
  ghost predicate NoBetter(id: string, v: Verdict, rest: seq<StepResult>) {
    forall r :: r in rest && Bears(id, r) ==> Precedence(v) <= Precedence(r.verdict)
  }

  /** Once the best verdict is reached, a reason stays, and so does its lack unless a skip follows. */
  lemma {:induction false} ReasonStays(id: string, pre: seq<StepResult>, rest: seq<StepResult>)
    requires NoBetter(id, Rolled(id, pre).verdict, rest)
    requires Rolled(id, pre).skipReason.Some? || forall r :: r in rest ==> !Skips(id, r)
    ensures Rolled(id, pre + rest).skipReason == Rolled(id, pre).skipReason
    ensures Rolled(id, pre + rest).verdict == Rolled(id, pre).verdict
  {
    if rest == [] {
      assert pre + rest == pre;
    } else {
      var init, r := rest[..|rest| - 1], rest[|rest| - 1];
      assert rest == init + [r];
      ReasonStays(id, pre, init);
      RolledSnoc(id, pre + init, r);
      assert pre + rest == (pre + init) + [r];
      assert r in rest;
    }
  }

  /** `x` first: if it gives a reason and nothing beats it, that reason stays. */
  lemma SpeakFirst(id: string, results: seq<StepResult>, x: StepResult) returns (p: seq<StepResult>)
    requires id != "" && x in results && Reason(x).Some?
    requires (Skips(id, x) && Rolled(id, results).verdict == NotAttempted)
      || (Blocks(id, x) && Rolled(id, results).verdict == BlockedByScope)
    ensures multiset(p) == multiset(results) && Rolled(id, p).skipReason == Reason(x)
  {
    VerdictIsBest(id, results);
    var rest := Pull(results, x);
    p := [x] + rest;
    RolledOne(id, x);
    ReasonStays(id, [x], rest);
  }

  /** A best attempt that leaves no reason, then a skip that gives one. */
  lemma SkipAfter(id: string, results: seq<StepResult>, x: StepResult, s: StepResult) returns (p: seq<StepResult>)
    requires x in results && s in results && Bears(id, x) && Skips(id, s) && Reason(s).Some?
    requires x.verdict == Rolled(id, results).verdict != NotAttempted
    requires x.verdict == BlockedByScope ==> Reason(x).None?
    ensures multiset(p) == multiset(results) && Rolled(id, p).skipReason == Reason(s)
  {
    VerdictIsBest(id, results);
    var rest := Pull(results, x);
    var rest' := Pull(rest, s);
    p := [x] + ([s] + rest');
    assert multiset(p) == multiset([x]) + multiset([s] + rest');
    assert p == [x, s] + rest';
    RolledOne(id, x);
    assert [x, s][..1] == [x];
    assert Rolled(id, [x]).verdict == x.verdict && Rolled(id, [x]).skipReason.None?;
    ReasonStays(id, [x, s], rest');
  }

  ghost function OnlySkips(id: string, results: seq<StepResult>, wanted: bool): seq<StepResult> {
    if results == [] then []
    else
      var r, before := results[|results| - 1], OnlySkips(id, results[..|results| - 1], wanted);
      if Skips(id, r) == wanted then before + [r] else before
  }

  lemma {:induction false} SkipsSplit(id: string, results: seq<StepResult>)
    ensures multiset(OnlySkips(id, results, true)) + multiset(OnlySkips(id, results, false)) == multiset(results)
    ensures forall r :: r in OnlySkips(id, results, true) <==> r in results && Skips(id, r)
    ensures forall r :: r in OnlySkips(id, results, false) <==> r in results && !Skips(id, r)
  {
    if results != [] {
      var init, r := results[..|results| - 1], results[|results| - 1];
      assert results == init + [r];
      SkipsSplit(id, init);
    }
  }

  lemma {:induction false} SkipsAttemptNothing(id: string, results: seq<StepResult>)
    requires forall r :: r in results ==> Skips(id, r)
    ensures Rolled(id, results).verdict == NotAttempted
  {
    if results != [] {
      var init, r := results[..|results| - 1], results[|results| - 1];
      assert results == init + [r];
      SkipsAttemptNothing(id, init);
      assert Skips(id, r);
      RolledSnoc(id, init, r);
    }
  }

  /** All skips first, then a best attempt that leaves no reason. */
  lemma SkipsBefore(id: string, results: seq<StepResult>, x: StepResult) returns (p: seq<StepResult>)
    requires x in results && Bears(id, x) && x.verdict == Rolled(id, results).verdict != NotAttempted
    requires x.verdict == BlockedByScope ==> Reason(x).None?
    ensures multiset(p) == multiset(results) && Rolled(id, p).skipReason.None?
  {
    VerdictIsBest(id, results);
    var skips, others := OnlySkips(id, results, true), OnlySkips(id, results, false);
    SkipsSplit(id, results);
    var rest := Pull(others, x);
    AttemptAfterSkips(id, skips, x);
    p := (skips + [x]) + rest;
    assert p == skips + ([x] + rest);
    ReasonStays(id, skips + [x], rest);
  }

  /** Such an attempt takes the verdict from any skips, and their reasons with it. */
  lemma AttemptAfterSkips(id: string, skips: seq<StepResult>, x: StepResult)
    requires (forall r :: r in skips ==> Skips(id, r)) && Bears(id, x)
    requires Precedence(x.verdict) < Precedence(NotAttempted) && (x.verdict == BlockedByScope ==> Reason(x).None?)
    ensures Rolled(id, skips + [x]).verdict == x.verdict && Rolled(id, skips + [x]).skipReason.None?
  {
    SkipsAttemptNothing(id, skips);
    assert (skips + [x])[..|skips|] == skips;
    AbsorbCases(id, Rolled(id, skips), x);
  }

  lemma Unsettled(id: string, results: seq<StepResult>) returns (p: seq<StepResult>, q: seq<StepResult>)
    requires !ReasonSettled(id, results)
    ensures multiset(p) == multiset(results) == multiset(q)
    ensures Rolled(id, p).skipReason != Rolled(id, q).skipReason
  {
    VerdictIsBest(id, results);
    match Rolled(id, results).verdict {
      case NotAttempted =>
        var x, y :| x in results && y in results && Skips(id, x) && Skips(id, y)
          && Reason(x).Some? && Reason(y).Some? && Reason(x) != Reason(y);
        p := SpeakFirst(id, results, x);
        q := SpeakFirst(id, results, y);
      case BlockedByScope =>
        p, q := UnsettledBlocked(id, results);
      case _ =>
        var s :| s in results && Skips(id, s) && Reason(s).Some?;
        var x :| x in results && Bears(id, x) && x.verdict == Rolled(id, results).verdict;
        p := SkipAfter(id, results, x, s);
        q := SkipsBefore(id, results, x);
    }
  }

  lemma UnsettledBlocked(id: string, results: seq<StepResult>) returns (p: seq<StepResult>, q: seq<StepResult>)
    requires !ReasonSettled(id, results) && Rolled(id, results).verdict == BlockedByScope
    ensures multiset(p) == multiset(results) == multiset(q)
    ensures Rolled(id, p).skipReason != Rolled(id, q).skipReason
  {
    if BlocksAgree(id, results) {
      var x :| x in results && Blocks(id, x) && Reason(x).None?;
      var s :| s in results && Skips(id, s) && Reason(s).Some?;
      p := SkipAfter(id, results, x, s);
      q := SkipsBefore(id, results, x);
    } else {
      var x, y :| x in results && y in results && Blocks(id, x) && Blocks(id, y) && Reason(x) != Reason(y);
      if Reason(x).None? {
        p := SkipsBefore(id, results, x);
      } else {
        p := SpeakFirst(id, results, x);
      }
      if Reason(y).None? {
        q := SkipsBefore(id, results, y);
      } else {
        q := SpeakFirst(id, results, y);
      }
    }
  }

  /** Every order of the results gives one skip reason exactly when: nothing was attempted and the
  planner skips give at most one reason; or scope blocked the best attempt, all blocked attempts
  share one reason, and they state it or no skip does; or the verdict is better and no skip gives a
  reason. */
  lemma SkipReasonExact(id: string, results: seq<StepResult>)
    ensures (forall p :: multiset(p) == multiset(results) ==> Rolled(id, p).skipReason == Rolled(id, results).skipReason)
      <==> ReasonSettled(id, results)
  {
    if ReasonSettled(id, results) {
      forall p | multiset(p) == multiset(results)
        ensures Rolled(id, p).skipReason == Rolled(id, results).skipReason
      {
        PermutationMembers(p, results);
        SettledIgnoresOrder(id, results, p);
      }
    } else {
      var p, q := Unsettled(id, results);
      assert multiset(p) == multiset(results) && multiset(q) == multiset(results);
    }
  }

  // ---------- a finding whose reason depends on order ----------

  const BLOCKED_BY_NAMESPACE :=
    StepResult("step-004", "k8s", "raw", Safe, BlockedByScope, SILENT, None, "blocked_by_scope: namespace", None, "f", "")
  const BLOCKED_BY_IMAGE :=
    StepResult("step-005", "k8s", "raw", Safe, BlockedByScope, SILENT, None, "blocked_by_scope: image", None, "f", "")

  /** Two PoCs of one finding, kept out of scope for different reasons. */
  lemma SkipReasonDependsOnOrder()
    ensures multiset([BLOCKED_BY_NAMESPACE, BLOCKED_BY_IMAGE]) == multiset([BLOCKED_BY_IMAGE, BLOCKED_BY_NAMESPACE])
    ensures Rolled("f", [BLOCKED_BY_NAMESPACE, BLOCKED_BY_IMAGE]).skipReason == Some("blocked_by_scope: namespace")
    ensures Rolled("f", [BLOCKED_BY_IMAGE, BLOCKED_BY_NAMESPACE]).skipReason == Some("blocked_by_scope: image")
  {
    var x, y := BLOCKED_BY_NAMESPACE, BLOCKED_BY_IMAGE;
    assert [x, y][..1] == [x] && [y, x][..1] == [y];
    RolledOne("f", x);
    RolledOne("f", y);
  }
}
