/** Shell-style patterns over `*`, `?` and literal characters. */
module Globs {

  predicate Glob(s: string, p: string)
    decreases |s| + |p|
  {
    if p == [] then s == []
    else if p[0] == '*' then Glob(s, p[1..]) || (s != [] && Glob(s[1..], p))
    else s != [] && (p[0] == '?' || p[0] == s[0]) && Glob(s[1..], p[1..])
  }

  predicate GlobAny(s: string, patterns: seq<string>) {
    exists p :: p in patterns && Glob(s, p)
  }

  lemma {:induction false} StarMatchesAll(s: string)
    ensures Glob(s, "*")
  {
    if s == [] {
      assert "*"[1..] == [];
    } else {
      StarMatchesAll(s[1..]);
    }
  }

  /** A star takes any number of characters, a question mark exactly one, anything else itself. */
  lemma {:induction false} PatternExact(s: string, p: string)
    requires p != []
    ensures Glob(s, p) <==>
      if p[0] == '*' then exists k :: 0 <= k <= |s| && Glob(s[k..], p[1..])
      else s != [] && (p[0] == s[0] || p[0] == '?') && Glob(s[1..], p[1..])
    decreases |s|
  {
    if p[0] == '*' {
      assert s[0..] == s;
      if s != [] {
        PatternExact(s[1..], p);
        forall k | 0 <= k < |s|
          ensures s[1..][k..] == s[k + 1..]
        {
        }
        if k :| 0 <= k <= |s| && Glob(s[k..], p[1..]) {
          assert k > 0 ==> s[1..][k - 1..] == s[k..];
        }
      }
    }
  }

  predicate Literal(p: string) {
    forall i :: 0 <= i < |p| ==> p[i] != '*' && p[i] != '?'
  }

  lemma {:induction false} LiteralMatchesItself(s: string, p: string)
    requires Literal(p)
    ensures Glob(s, p) <==> s == p
  {
    if p != [] && s != [] {
      LiteralMatchesItself(s[1..], p[1..]);
      assert s == [s[0]] + s[1..] && p == [p[0]] + p[1..];
    }
  }

  /** A trailing star matches exactly the extensions of what stands before it. */
  lemma {:induction false} PrefixPattern(s: string, p: string)
    requires Literal(p)
    ensures Glob(s, p + "*") <==> p <= s
  {
    if p == [] {
      assert p + "*" == "*";
      StarMatchesAll(s);
    } else {
      assert (p + "*")[0] == p[0] && (p + "*")[1..] == p[1..] + "*";
      if s != [] {
        PrefixPattern(s[1..], p[1..]);
        assert p <= s <==> p[0] == s[0] && p[1..] <= s[1..];
      }
    }
  }
}
