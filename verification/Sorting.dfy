/** A stable insertion sort standing for Python's `sorted`, and what its callers rely on. */
module Sorting {
  import opened Collections

  lemma LastBack<T>(s: seq<T>)
    requires s != []
    ensures s[..|s| - 1] + [s[|s| - 1]] == s
  {
  }

  lemma Regroup<T>(a: seq<T>, b: seq<T>, c: seq<T>)
    ensures (a + b) + c == a + (b + c)
  {
  }

  ghost predicate TotalPreorder<T(!new)>(le: (T, T) -> bool) {
    && (forall x, y :: le(x, y) || le(y, x))
    && (forall x, y, z :: le(x, y) && le(y, z) ==> le(x, z))
  }

  ghost predicate SortedBy<T>(s: seq<T>, le: (T, T) -> bool) {
    forall i, j :: 0 <= i < j < |s| ==> le(s[i], s[j])
  }

  /** `x` goes behind every element it does not strictly precede. */
  function Insert<T>(s: seq<T>, x: T, le: (T, T) -> bool): (r: seq<T>)
    ensures |r| == |s| + 1
    ensures multiset(r) == multiset(s) + multiset{x}
  {
    if s == [] || le(s[|s| - 1], x) then s + [x]
    else
      var r := Insert(s[..|s| - 1], x, le) + [s[|s| - 1]];
      assert s == s[..|s| - 1] + [s[|s| - 1]];
      r
  }

  function Sort<T>(s: seq<T>, le: (T, T) -> bool): (r: seq<T>)
    ensures |r| == |s|
    ensures multiset(r) == multiset(s)
  {
    if s == [] then []
    else
      assert s == s[..|s| - 1] + [s[|s| - 1]];
      Insert(Sort(s[..|s| - 1], le), s[|s| - 1], le)
  }

  lemma {:induction false} InsertKeepsOrder<T(!new)>(s: seq<T>, x: T, le: (T, T) -> bool)
    requires TotalPreorder(le) && SortedBy(s, le)
    ensures SortedBy(Insert(s, x, le), le)
  {
    if s == [] {
    } else if le(s[|s| - 1], x) {
      forall i | 0 <= i < |s|
        ensures le(s[i], x)
      {
        assert le(s[i], s[|s| - 1]);
      }
    } else {
      var init, last := s[..|s| - 1], s[|s| - 1];
      InsertKeepsOrder(init, x, le);
      var r := Insert(init, x, le);
      forall i | 0 <= i < |r|
        ensures le(r[i], last)
      {
        assert r[i] in multiset(init) + multiset{x};
        if r[i] != x {
          assert r[i] in multiset(init);
          assert r[i] in init;
        }
      }
    }
  }

  lemma {:induction false} SortSorts<T(!new)>(s: seq<T>, le: (T, T) -> bool)
    requires TotalPreorder(le)
    ensures SortedBy(Sort(s, le), le)
  {
    if s == [] {
    } else {
      SortSorts(s[..|s| - 1], le);
      InsertKeepsOrder(Sort(s[..|s| - 1], le), s[|s| - 1], le);
    }
  }

  predicate Peer<T>(a: T, b: T, le: (T, T) -> bool) {
    le(a, b) && le(b, a)
  }

  /** The elements that rank with `x`, in the order they stand in. */
  function Peers<T>(s: seq<T>, x: T, le: (T, T) -> bool): seq<T> {
    if s == [] then []
    else
      var before := Peers(s[..|s| - 1], x, le);
      if Peer(s[|s| - 1], x, le) then before + [s[|s| - 1]] else before
  }

  lemma PeersSnoc<T>(s: seq<T>, y: T, x: T, le: (T, T) -> bool)
    ensures Peers(s + [y], x, le) == if Peer(y, x, le) then Peers(s, x, le) + [y] else Peers(s, x, le)
  {
    assert (s + [y])[..|s|] == s;
  }

  lemma {:induction false} PeersConcat<T>(a: seq<T>, b: seq<T>, x: T, le: (T, T) -> bool)
    ensures Peers(a + b, x, le) == Peers(a, x, le) + Peers(b, x, le)
  {
    if b == [] {
      assert a + b == a;
    } else {
      var init, last := b[..|b| - 1], b[|b| - 1];
      PeersConcat(a, init, x, le);
      assert a + b == (a + init) + [last];
      PeersSnoc(a + init, last, x, le);
    }
  }

  lemma {:induction false} InsertIsStable<T(!new)>(s: seq<T>, y: T, le: (T, T) -> bool, x: T)
    requires TotalPreorder(le)
    ensures Peers(Insert(s, y, le), x, le) == Peers(s + [y], x, le)
  {
    if s != [] && !le(s[|s| - 1], y) {
      var init, last := s[..|s| - 1], s[|s| - 1];
      InsertIsStable(init, y, le, x);
      PeersSnoc(Insert(init, y, le), last, x, le);
      PeersSnoc(init, y, x, le);
      PeersSnoc(s, y, x, le);
    }
  }

  /** Elements that rank alike keep the order they came in. */
  lemma {:induction false} SortIsStable<T(!new)>(s: seq<T>, le: (T, T) -> bool, x: T)
    requires TotalPreorder(le)
    ensures Peers(Sort(s, le), x, le) == Peers(s, x, le)
  {
    if s != [] {
      var init, last := s[..|s| - 1], s[|s| - 1];
      SortIsStable(init, le, x);
      InsertIsStable(Sort(init, le), last, le, x);
      PeersSnoc(Sort(init, le), last, x, le);
    }
  }

  lemma SortsStably<T(!new)>(s: seq<T>, le: (T, T) -> bool)
    requires TotalPreorder(le)
    ensures SortedBy(Sort(s, le), le)
    ensures forall x :: Peers(Sort(s, le), x, le) == Peers(s, x, le)
  {
    SortSorts(s, le);
    forall x
      ensures Peers(Sort(s, le), x, le) == Peers(s, x, le)
    {
      SortIsStable(s, le, x);
    }
  }

  lemma SplitCounts<T>(all: seq<T>, front: seq<T>, rest: seq<T>)
    requires multiset(front + rest) == multiset(all)
    ensures multiset(front) <= multiset(all) && multiset(all) - multiset(front) == multiset(rest)
  {
    assert multiset(all) == multiset(front) + multiset(rest);
  }

  /** The rest of a sequence, so that `x` may come first. */
  lemma Pull<T>(s: seq<T>, x: T) returns (rest: seq<T>)
    requires x in s
    ensures multiset([x] + rest) == multiset(s)
    ensures forall y :: y in s <==> y == x || y in rest
  {
    var i :| 0 <= i < |s| && s[i] == x;
    rest := s[..i] + s[i + 1..];
    assert s == s[..i] + [x] + s[i + 1..];
  }

  lemma PermutationMembers<T>(a: seq<T>, b: seq<T>)
    requires multiset(a) == multiset(b)
    ensures forall x :: x in a <==> x in b
  {
    forall x
      ensures x in a <==> x in b
    {
      assert x in a <==> x in multiset(a);
      assert x in b <==> x in multiset(b);
    }
  }

  lemma SortKeepsUnrepeated<T(!new)>(s: seq<T>, le: (T, T) -> bool)
    requires Unrepeated(s)
    ensures Unrepeated(Sort(s, le)) && Elements(Sort(s, le)) == Elements(s)
  {
    var r := Sort(s, le);
    PermutationMembers(r, s);
    forall i, j | 0 <= i < j < |r|
      ensures r[i] != r[j]
    {
      if r[i] == r[j] {
        TwiceCounted(r, i, j);
        OnceCounted(s, r[i]);
      }
    }
  }
}
