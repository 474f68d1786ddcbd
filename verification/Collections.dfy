/** Sizes of sets, and sequences without repetition. */
module Collections {
  lemma SubsetSize<T>(a: set<T>, b: set<T>)
    requires a <= b
    ensures |a| <= |b|
    ensures a != b ==> |a| < |b|
  {
    assert b == a + (b - a);
    assert |b| == |a| + |b - a|;
  }

  ghost predicate Unrepeated<T>(s: seq<T>) {
    forall i, j :: 0 <= i < j < |s| ==> s[i] != s[j]
  }

  function Elements<T>(s: seq<T>): set<T> {
    set x | x in s
  }

  lemma {:induction false} UnrepeatedSize<T>(s: seq<T>)
    requires Unrepeated(s)
    ensures |Elements(s)| == |s|
  {
    if s == [] {
      assert Elements(s) == {};
    } else {
      var init := s[..|s| - 1];
      UnrepeatedSize(init);
      assert s == init + [s[|s| - 1]];
      assert Elements(s) == Elements(init) + {s[|s| - 1]};
    }
  }

  lemma TwiceCounted<T>(s: seq<T>, i: nat, j: nat)
    requires i < j < |s| && s[i] == s[j]
    ensures multiset(s)[s[i]] >= 2
  {
    assert s == s[..i] + [s[i]] + s[i + 1..j] + [s[j]] + s[j + 1..];
    assert multiset(s) == multiset(s[..i]) + multiset{s[i]} + multiset(s[i + 1..j]) + multiset{s[j]} + multiset(s[j + 1..]);
  }

  lemma {:induction false} OnceCounted<T>(s: seq<T>, x: T)
    requires Unrepeated(s)
    ensures multiset(s)[x] <= 1
  {
    if s != [] {
      var init, last := s[..|s| - 1], s[|s| - 1];
      assert s == init + [last];
      OnceCounted(init, x);
      assert last !in init;
      assert multiset(s) == multiset(init) + multiset{last};
      assert last !in multiset(init);
    }
  }

  /** A Python set turned into a list: some order, which no proof may rely on. */
  method Enumerate<T(==)>(all: set<T>) returns (s: seq<T>)
    ensures Unrepeated(s) && Elements(s) == all
  {
    s := [];
    var todo := all;
    while todo != {}
      invariant todo <= all && Elements(s) == all - todo && Unrepeated(s)
      decreases todo
    {
      var n :| n in todo;
      assert n !in Elements(s);
      todo := todo - {n};
      ghost var s0 := s;
      s := s + [n];
      assert Elements(s) == Elements(s0) + {n};
    }
  }
}
