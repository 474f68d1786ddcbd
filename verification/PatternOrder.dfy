/** When the order in which findings arrive shows in the insecure-pattern report: of the findings at one
place only the first counts, so its severity is the one that ranks there. */
module PatternOrder {
  import opened Collections
  import opened Sorting
  import opened Patterns

  // ---------- counting below a rank ----------

  ghost function Below(m: multiset<nat>, t: nat): nat {
    if t == 0 then 0 else Below(m, t - 1) + m[t - 1]
  }

  lemma {:induction false} BelowSum(m: multiset<nat>, n: multiset<nat>, t: nat)
    ensures Below(m + n, t) == Below(m, t) + Below(n, t)
  {
    if t > 0 {
      BelowSum(m, n, t - 1);
    }
  }

  lemma {:induction false} BelowOne(x: nat, t: nat)
    ensures Below(multiset{x}, t) == if x < t then 1 else 0
  {
    if t > 0 {
      BelowOne(x, t - 1);
    }
  }

  lemma {:induction false} BelowSize(m: multiset<nat>, t: nat)
    ensures Below(m, t) <= |m|
    ensures (forall x :: x in m ==> x < t) ==> Below(m, t) == |m|
    ensures (forall x :: x in m ==> x >= t) ==> Below(m, t) == 0
    decreases |m|
  {
    if m == multiset{} {
      NothingBelow(t);
    } else {
      var x :| x in m;
      var rest := m - multiset{x};
      assert m == rest + multiset{x};
      BelowSize(rest, t);
      BelowSum(rest, multiset{x}, t);
      BelowOne(x, t);
    }
  }

  lemma {:induction false} NothingBelow(t: nat)
    ensures Below(multiset{}, t) == 0
  {
    if t > 0 {
      NothingBelow(t - 1);
    }
  }

  lemma BelowDetermines(m: multiset<nat>, n: multiset<nat>)
    requires forall t: nat :: Below(m, t) == Below(n, t)
    ensures m == n
  {
    forall x: nat
      ensures m[x] == n[x]
    {
      assert Below(m, x + 1) == Below(m, x) + m[x];
      assert Below(n, x + 1) == Below(n, x) + n[x];
    }
  }

  function Least(a: nat, b: nat): nat {
    if a < b then a else b
  }

  /** The k smallest hold as many below a rank as there are, up to k. */
  lemma BelowKept(kept: multiset<nat>, all: multiset<nat>, k: nat, t: nat)
    requires KSmallest(kept, all, k)
    ensures Below(kept, t) == Least(k, Below(all, t))
  {
    var dropped := all - kept;
    assert all == kept + dropped;
    BelowSum(kept, dropped, t);
    BelowSize(kept, t);
    BelowSize(dropped, t);
    if b :| b in dropped && b < t {
      assert forall a :: a in kept ==> a <= b;
      assert |all| == |kept| + |dropped|;
    }
  }

  lemma {:induction false} KSmallestExists(all: multiset<nat>, k: nat) returns (kept: multiset<nat>)
    ensures KSmallest(kept, all, k)
    decreases |all|
  {
    if all == multiset{} || k == 0 {
      kept := multiset{};
    } else {
      var x :| x in all;
      var rest := all - multiset{x};
      assert all == rest + multiset{x};
      kept := KSmallestExists(rest, k);
      if |rest| < k {
        KSmallestGrows(kept, rest, k, x);
        kept := kept + multiset{x};
      } else {
        var worst := Greatest(kept);
        KSmallestKeeps(kept, rest, k, x, worst);
        if x < worst {
          kept := kept - multiset{worst} + multiset{x};
        }
      }
    }
  }

  lemma {:induction false} Greatest(m: multiset<nat>) returns (w: nat)
    requires m != multiset{}
    ensures w in m && forall a :: a in m ==> a <= w
    decreases |m|
  {
    w :| w in m;
    var rest := m - multiset{w};
    assert forall a :: a in m ==> a == w || a in rest;
    if rest != multiset{} {
      var v := Greatest(rest);
      if v > w {
        w := v;
      }
    }
  }

  // ---------- places and the ranks found at them ----------

  function RankAt(e: Entry): nat {
    SeverityRank(Word(e.finding))
  }

  predicate CountsFor(e: Entry, cwe: string) {
    Counts(e) && Primary(e.finding) == cwe
  }

  /** The places of a CWE where some finding ranks below `t`, and where some does not. */
  ghost function SomeBelow(log: seq<Entry>, cwe: string, t: nat): set<Place> {
    set e | e in log && CountsFor(e, cwe) && RankAt(e) < t :: PlaceOf(e)
  }

  ghost function SomeNotBelow(log: seq<Entry>, cwe: string, t: nat): set<Place> {
    set e | e in log && CountsFor(e, cwe) && RankAt(e) >= t :: PlaceOf(e)
  }

  /** Where every finding does. */
  ghost function AllBelow(log: seq<Entry>, cwe: string, t: nat): set<Place> {
    SomeBelow(log, cwe, t) - SomeNotBelow(log, cwe, t)
  }

  /** Where the first finding does. */
  ghost function FirstBelow(log: seq<Entry>, cwe: string, t: nat): set<Place> {
    if log == [] then {}
    else
      var e, init := log[|log| - 1], log[..|log| - 1];
      if FirstAt(init, e, cwe) && RankAt(e) < t then FirstBelow(init, cwe, t) + {PlaceOf(e)} else FirstBelow(init, cwe, t)
  }

  lemma {:induction false} PlacesExact(log: seq<Entry>, p: Place)
    ensures p in Places(log) <==> exists e :: e in log && Counts(e) && PlaceOf(e) == p
  {
    if log != [] {
      var init, e := log[..|log| - 1], log[|log| - 1];
      assert log == init + [e];
      PlacesExact(init, p);
    }
  }

  lemma {:induction false} FirstBelowCounts(log: seq<Entry>, cwe: string, t: nat)
    ensures FirstBelow(log, cwe, t) <= Places(log)
    ensures Below(Ranks(log, cwe), t) == |FirstBelow(log, cwe, t)|
  {
    if log == [] {
      NothingBelow(t);
    } else {
      var init, e := log[..|log| - 1], log[|log| - 1];
      FirstBelowCounts(init, cwe, t);
      if FirstAt(init, e, cwe) {
        BelowSum(Ranks(init, cwe), multiset{RankAt(e)}, t);
        BelowOne(RankAt(e), t);
      }
    }
  }

  lemma {:induction false} FirstIsSome(log: seq<Entry>, cwe: string, t: nat, p: Place)
    requires p in FirstBelow(log, cwe, t)
    ensures p in SomeBelow(log, cwe, t)
  {
    var init, e := log[..|log| - 1], log[|log| - 1];
    assert log == init + [e];
    if p in FirstBelow(init, cwe, t) {
      FirstIsSome(init, cwe, t, p);
    } else {
      assert e in log;
    }
  }

  lemma {:induction false} AllIsFirst(log: seq<Entry>, cwe: string, t: nat, p: Place)
    requires p in Places(log) && p.cwe == cwe && p !in SomeNotBelow(log, cwe, t)
    ensures p in FirstBelow(log, cwe, t)
  {
    var init, e := log[..|log| - 1], log[|log| - 1];
    assert log == init + [e];
    assert e in log;
    if p in Places(init) {
      assert forall x :: x in init ==> x in log;
      AllIsFirst(init, cwe, t, p);
    }
  }

  /** Whatever the order, the count below a rank lies between the two. */
  lemma BetweenBounds(log: seq<Entry>, cwe: string, t: nat)
    ensures |AllBelow(log, cwe, t)| <= Below(Ranks(log, cwe), t) <= |SomeBelow(log, cwe, t)|
  {
    FirstBelowCounts(log, cwe, t);
    var first := FirstBelow(log, cwe, t);
    forall p | p in first
      ensures p in SomeBelow(log, cwe, t)
    {
      FirstIsSome(log, cwe, t, p);
    }
    forall p | p in AllBelow(log, cwe, t)
      ensures p in first
    {
      PlacesExact(log, p);
      AllIsFirst(log, cwe, t, p);
    }
    SubsetSize(first, SomeBelow(log, cwe, t));
    SubsetSize(AllBelow(log, cwe, t), first);
  }

  lemma SameSets(a: seq<Entry>, b: seq<Entry>, cwe: string, t: nat)
    requires forall e :: e in a <==> e in b
    ensures SomeBelow(a, cwe, t) == SomeBelow(b, cwe, t) && AllBelow(a, cwe, t) == AllBelow(b, cwe, t)
  {
  }

  // ---------- the orders that reach the bounds ----------

  ghost function Sifted(log: seq<Entry>, t: nat, below: bool): seq<Entry> {
    if log == [] then []
    else
      var e, before := log[|log| - 1], Sifted(log[..|log| - 1], t, below);
      if (RankAt(e) < t) == below then before + [e] else before
  }

  lemma {:induction false} SiftedExact(log: seq<Entry>, t: nat)
    ensures multiset(Sifted(log, t, true)) + multiset(Sifted(log, t, false)) == multiset(log)
    ensures forall e :: e in Sifted(log, t, true) <==> e in log && RankAt(e) < t
    ensures forall e :: e in Sifted(log, t, false) <==> e in log && RankAt(e) >= t
  {
    if log != [] {
      var init, e := log[..|log| - 1], log[|log| - 1];
      assert log == init + [e];
      SiftedExact(init, t);
    }
  }

  lemma {:induction false} PlacesConcat(a: seq<Entry>, b: seq<Entry>)
    ensures Places(a + b) == Places(a) + Places(b)
  {
    if b == [] {
      assert a + b == a;
    } else {
      PlacesConcat(a, b[..|b| - 1]);
      assert (a + b)[..|a + b| - 1] == a + b[..|b| - 1];
    }
  }

  lemma {:induction false} GraverAppended(a: seq<Entry>, b: seq<Entry>, cwe: string, t: nat)
    requires forall e :: e in b ==> RankAt(e) < t
    ensures FirstBelow(a + b, cwe, t) == FirstBelow(a, cwe, t) + (PlacesFor(Places(b), cwe) - Places(a))
  {
    if b == [] {
      assert a + b == a;
    } else {
      var init, e := b[..|b| - 1], b[|b| - 1];
      assert b == init + [e];
      GraverAppended(a, init, cwe, t);
      PlacesConcat(a, init);
      assert (a + b)[..|a + b| - 1] == a + init;
    }
  }

  lemma {:induction false} OthersAppended(a: seq<Entry>, b: seq<Entry>, cwe: string, t: nat)
    requires forall e :: e in b ==> RankAt(e) >= t
    ensures FirstBelow(a + b, cwe, t) == FirstBelow(a, cwe, t)
  {
    if b == [] {
      assert a + b == a;
    } else {
      var init, e := b[..|b| - 1], b[|b| - 1];
      assert b == init + [e];
      OthersAppended(a, init, cwe, t);
      assert (a + b)[..|a + b| - 1] == a + init;
    }
  }

  lemma GraverPlaces(log: seq<Entry>, cwe: string, t: nat)
    ensures PlacesFor(Places(Sifted(log, t, true)), cwe) == SomeBelow(log, cwe, t)
    ensures PlacesFor(Places(Sifted(log, t, true)), cwe) - Places(Sifted(log, t, false)) == AllBelow(log, cwe, t)
  {
    SiftedExact(log, t);
    forall p
      ensures p in PlacesFor(Places(Sifted(log, t, true)), cwe) <==> p in SomeBelow(log, cwe, t)
      ensures p.cwe == cwe ==> (p in Places(Sifted(log, t, false)) <==> p in SomeNotBelow(log, cwe, t))
    {
      PlacesExact(Sifted(log, t, true), p);
      PlacesExact(Sifted(log, t, false), p);
    }
  }

  /** With the graver findings first. */
  lemma GraverFirst(graver: seq<Entry>, others: seq<Entry>, cwe: string, t: nat)
    requires (forall e :: e in graver ==> RankAt(e) < t) && (forall e :: e in others ==> RankAt(e) >= t)
    ensures FirstBelow(graver + others, cwe, t) == PlacesFor(Places(graver), cwe)
  {
    GraverAppended([], graver, cwe, t);
    assert [] + graver == graver;
    OthersAppended(graver, others, cwe, t);
  }

  /** With the graver findings last. */
  lemma GraverLast(graver: seq<Entry>, others: seq<Entry>, cwe: string, t: nat)
    requires (forall e :: e in graver ==> RankAt(e) < t) && (forall e :: e in others ==> RankAt(e) >= t)
    ensures FirstBelow(others + graver, cwe, t) == PlacesFor(Places(graver), cwe) - Places(others)
  {
    OthersAppended([], others, cwe, t);
    assert [] + others == others;
    GraverAppended(others, graver, cwe, t);
  }

  lemma GraverFirstOrder(log: seq<Entry>, cwe: string, t: nat) returns (p: seq<Entry>)
    ensures multiset(p) == multiset(log) && Below(Ranks(p, cwe), t) == |SomeBelow(log, cwe, t)|
  {
    SiftedExact(log, t);
    GraverPlaces(log, cwe, t);
    GraverFirst(Sifted(log, t, true), Sifted(log, t, false), cwe, t);
    p := Sifted(log, t, true) + Sifted(log, t, false);
    FirstBelowCounts(p, cwe, t);
  }

  lemma GraverLastOrder(log: seq<Entry>, cwe: string, t: nat) returns (q: seq<Entry>)
    ensures multiset(q) == multiset(log) && Below(Ranks(q, cwe), t) == |AllBelow(log, cwe, t)|
  {
    SiftedExact(log, t);
    GraverPlaces(log, cwe, t);
    GraverLast(Sifted(log, t, true), Sifted(log, t, false), cwe, t);
    q := Sifted(log, t, false) + Sifted(log, t, true);
    FirstBelowCounts(q, cwe, t);
  }

  // ---------- when order does not show ----------

  /** For each rank, the places with some finding graver than it have only such, or `k` places do. */
  ghost predicate RanksSettled(log: seq<Entry>, cwe: string, k: nat) {
    forall t: nat :: SettledBelow(log, cwe, k, t)
  }

  ghost predicate SettledBelow(log: seq<Entry>, cwe: string, k: nat, t: nat) {
    |SomeBelow(log, cwe, t)| == |AllBelow(log, cwe, t)| || |AllBelow(log, cwe, t)| >= k
  }

  /** What the k smallest may be when the findings come in some order. */
  ghost predicate MayKeep(log: seq<Entry>, cwe: string, k: nat, p: seq<Entry>, kept: multiset<nat>) {
    multiset(p) == multiset(log) && KSmallest(kept, Ranks(p, cwe), k)
  }

  lemma SettledBelowKeeps(log: seq<Entry>, cwe: string, k: nat, t: nat, p: seq<Entry>, kept: multiset<nat>)
    requires SettledBelow(log, cwe, k, t) && MayKeep(log, cwe, k, p, kept)
    ensures Below(kept, t) == Least(k, |AllBelow(log, cwe, t)|)
  {
    PermutationMembers(p, log);
    SameSets(log, p, cwe, t);
    BetweenBounds(p, cwe, t);
    BelowKept(kept, Ranks(p, cwe), k, t);
  }

  lemma SettledKeeps(log: seq<Entry>, cwe: string, k: nat, p: seq<Entry>, x: multiset<nat>, q: seq<Entry>, y: multiset<nat>)
    requires RanksSettled(log, cwe, k) && MayKeep(log, cwe, k, p, x) && MayKeep(log, cwe, k, q, y)
    ensures x == y
  {
    forall t: nat
      ensures Below(x, t) == Below(y, t)
    {
      assert SettledBelow(log, cwe, k, t);
      SettledBelowKeeps(log, cwe, k, t, p, x);
      SettledBelowKeeps(log, cwe, k, t, q, y);
    }
    BelowDetermines(x, y);
  }

  lemma UnsettledDiffers(log: seq<Entry>, cwe: string, k: nat)
    returns (p: seq<Entry>, x: multiset<nat>, q: seq<Entry>, y: multiset<nat>)
    requires !RanksSettled(log, cwe, k)
    ensures MayKeep(log, cwe, k, p, x) && MayKeep(log, cwe, k, q, y) && x != y
  {
    var t: nat :| !SettledBelow(log, cwe, k, t);
    p := GraverFirstOrder(log, cwe, t);
    q := GraverLastOrder(log, cwe, t);
    x := KSmallestExists(Ranks(p, cwe), k);
    y := KSmallestExists(Ranks(q, cwe), k);
    BelowKept(x, Ranks(p, cwe), k, t);
    BelowKept(y, Ranks(q, cwe), k, t);
    SubsetSize(AllBelow(log, cwe, t), SomeBelow(log, cwe, t));
  }

  /** The k smallest ranks of a CWE come out the same in every order exactly when, for each rank, the
  places with some finding graver than it have only such, or at least k places do. */
  lemma KeptRanksExact(log: seq<Entry>, cwe: string, k: nat, kept: multiset<nat>)
    requires KSmallest(kept, Ranks(log, cwe), k)
    ensures (forall p, other :: MayKeep(log, cwe, k, p, other) ==> other == kept) <==> RanksSettled(log, cwe, k)
  {
    assert MayKeep(log, cwe, k, log, kept);
    if RanksSettled(log, cwe, k) {
      forall p, other | MayKeep(log, cwe, k, p, other)
        ensures other == kept
      {
        SettledKeeps(log, cwe, k, p, other, log, kept);
      }
    } else {
      var p, x, q, y := UnsettledDiffers(log, cwe, k);
    }
  }

  ghost function BufferRanks(log: seq<Entry>, cwe: string): multiset<nat> {
    RanksOf(Of(PatternsOf(log), cwe).examples)
  }

  lemma BufferMayKeep(log: seq<Entry>, cwe: string, p: seq<Entry>)
    requires multiset(p) == multiset(log)
    ensures MayKeep(log, cwe, BUFFER, p, BufferRanks(p, cwe))
  {
    PatternsAreFaithful(p, cwe);
  }

  /** So do the ranks in the buffer, with its forty places. */
  lemma BufferOrderExact(log: seq<Entry>, cwe: string)
    ensures (forall p :: multiset(p) == multiset(log) ==> BufferRanks(p, cwe) == BufferRanks(log, cwe))
      <==> RanksSettled(log, cwe, BUFFER)
  {
    BufferMayKeep(log, cwe, log);
    if RanksSettled(log, cwe, BUFFER) {
      forall p | multiset(p) == multiset(log)
        ensures BufferRanks(p, cwe) == BufferRanks(log, cwe)
      {
        BufferMayKeep(log, cwe, p);
        SettledKeeps(log, cwe, BUFFER, p, BufferRanks(p, cwe), log, BufferRanks(log, cwe));
      }
    } else {
      var p, x, q, y := UnsettledDiffers(log, cwe, BUFFER);
      BufferMayKeep(log, cwe, p);
      BufferMayKeep(log, cwe, q);
      KSmallestUnique(x, BufferRanks(p, cwe), Ranks(p, cwe), BUFFER);
      KSmallestUnique(y, BufferRanks(q, cwe), Ranks(q, cwe), BUFFER);
      assert multiset(p) == multiset(log) && multiset(q) == multiset(log);
    }
  }

  /** All findings at one place of a CWE rank alike. */
  ghost predicate PlacesAgree(log: seq<Entry>, cwe: string) {
    forall e, f :: e in log && f in log && CountsFor(e, cwe) && CountsFor(f, cwe) && PlaceOf(e) == PlaceOf(f) ==>
      RankAt(e) == RankAt(f)
  }

  lemma AgreeingPlaces(log: seq<Entry>, cwe: string)
    ensures PlacesAgree(log, cwe) <==> forall t: nat :: |SomeBelow(log, cwe, t)| == |AllBelow(log, cwe, t)|
  {
    if PlacesAgree(log, cwe) {
      forall t: nat
        ensures |SomeBelow(log, cwe, t)| == |AllBelow(log, cwe, t)|
      {
        assert SomeBelow(log, cwe, t) * SomeNotBelow(log, cwe, t) == {};
        assert AllBelow(log, cwe, t) == SomeBelow(log, cwe, t);
      }
    } else {
      var e, f :| e in log && f in log && CountsFor(e, cwe) && CountsFor(f, cwe) && PlaceOf(e) == PlaceOf(f)
        && RankAt(e) < RankAt(f);
      var t := RankAt(f);
      assert PlaceOf(e) in SomeBelow(log, cwe, t) && PlaceOf(e) in SomeNotBelow(log, cwe, t);
      SubsetSize(AllBelow(log, cwe, t), SomeBelow(log, cwe, t));
    }
  }

  lemma AgreeingRanks(log: seq<Entry>, p: seq<Entry>, cwe: string)
    requires multiset(p) == multiset(log)
    requires forall t: nat :: |SomeBelow(log, cwe, t)| == |AllBelow(log, cwe, t)|
    ensures Ranks(p, cwe) == Ranks(log, cwe)
  {
    PermutationMembers(p, log);
    forall t: nat
      ensures Below(Ranks(p, cwe), t) == Below(Ranks(log, cwe), t)
    {
      SameSets(log, p, cwe, t);
      BetweenBounds(log, cwe, t);
      BetweenBounds(p, cwe, t);
    }
    BelowDetermines(Ranks(p, cwe), Ranks(log, cwe));
  }

  /** All the ranks of a CWE come out the same in every order exactly when the findings at each of its
  places rank alike. */
  lemma RanksOrderExact(log: seq<Entry>, cwe: string)
    ensures (forall p :: multiset(p) == multiset(log) ==> Ranks(p, cwe) == Ranks(log, cwe)) <==> PlacesAgree(log, cwe)
  {
    AgreeingPlaces(log, cwe);
    if PlacesAgree(log, cwe) {
      forall p | multiset(p) == multiset(log)
        ensures Ranks(p, cwe) == Ranks(log, cwe)
      {
        AgreeingRanks(log, p, cwe);
      }
    } else {
      var t: nat :| |SomeBelow(log, cwe, t)| != |AllBelow(log, cwe, t)|;
      var p := GraverFirstOrder(log, cwe, t);
      var q := GraverLastOrder(log, cwe, t);
      assert multiset(p) == multiset(log) && multiset(q) == multiset(log);
    }
  }

  // ---------- a place whose first finding decides ----------

  const CRITICAL_FIRST := Entry("repo", Listed(false, true, ["CWE-78"], "cmd/run.go", "critical"))
  const LOW_FIRST := Entry("repo", Listed(false, true, ["CWE-78"], "cmd/run.go", "low"))

  /** A critical and a low finding at one place: whichever comes first is the one ranked. */
  lemma FirstFindingDecides()
    ensures multiset([CRITICAL_FIRST, LOW_FIRST]) == multiset([LOW_FIRST, CRITICAL_FIRST])
    ensures Ranks([CRITICAL_FIRST, LOW_FIRST], "CWE-78") == multiset{0}
    ensures Ranks([LOW_FIRST, CRITICAL_FIRST], "CWE-78") == multiset{3}
  {
    WordsRank();
    FirstOfTwo(CRITICAL_FIRST, LOW_FIRST, "CWE-78");
    FirstOfTwo(LOW_FIRST, CRITICAL_FIRST, "CWE-78");
  }

  lemma FirstOfTwo(x: Entry, y: Entry, cwe: string)
    requires CountsFor(x, cwe) && CountsFor(y, cwe) && PlaceOf(x) == PlaceOf(y)
    ensures Ranks([x, y], cwe) == multiset{RankAt(x)}
  {
    assert [x, y][..1] == [x] && [x][..0] == [];
    assert Places([]) == {} && Places([x]) == {PlaceOf(x)};
    assert Ranks([], cwe) == multiset{} && Ranks([x], cwe) == multiset{RankAt(x)};
  }

  lemma WordsRank()
    ensures RankAt(CRITICAL_FIRST) == 0 && RankAt(LOW_FIRST) == 3
  {
    assert Word(CRITICAL_FIRST.finding) == "critical";
    assert Word(LOW_FIRST.finding) == "low";
  }
}
