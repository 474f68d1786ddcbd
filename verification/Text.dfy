/** Strings as the code uses them: compared by code point, and numbers printed with zero padding. */
module Text {

  /** Python's `<=` on strings. */
  predicate LexLe(a: string, b: string) {
    a == [] || (b != [] && (a[0] < b[0] || (a[0] == b[0] && LexLe(a[1..], b[1..]))))
  }

  lemma {:induction false} LexReflexive(a: string)
    ensures LexLe(a, a)
  {
    if a != [] {
      LexReflexive(a[1..]);
    }
  }

  lemma {:induction false} LexTotal(a: string, b: string)
    ensures LexLe(a, b) || LexLe(b, a)
  {
    if a != [] && b != [] && a[0] == b[0] {
      LexTotal(a[1..], b[1..]);
    }
  }

  lemma {:induction false} LexTransitive(a: string, b: string, c: string)
    requires LexLe(a, b) && LexLe(b, c)
    ensures LexLe(a, c)
  {
    if a != [] && a[0] == b[0] && b[0] == c[0] {
      LexTransitive(a[1..], b[1..], c[1..]);
    }
  }

  lemma {:induction false} LexAntisymmetric(a: string, b: string)
    requires LexLe(a, b) && LexLe(b, a)
    ensures a == b
  {
    if a != [] {
      LexAntisymmetric(a[1..], b[1..]);
      assert a == [a[0]] + a[1..] && b == [b[0]] + b[1..];
    }
  }

  /** Order of equally long heads decides; only equal heads leave it to the tails. */
  lemma {:induction false} LexConcat(a: string, b: string, x: string, y: string)
    requires |a| == |b|
    ensures LexLe(a + x, b + y) <==> if a == b then LexLe(x, y) else LexLe(a, b)
  {
    if a == [] {
      assert a + x == x && b + y == y;
    } else {
      assert (a + x)[1..] == a[1..] + x && (b + y)[1..] == b[1..] + y;
      LexConcat(a[1..], b[1..], x, y);
      assert a == [a[0]] + a[1..] && b == [b[0]] + b[1..];
    }
  }

  predicate Contains(hay: string, needle: string) {
    needle <= hay || (hay != [] && Contains(hay[1..], needle))
  }

  lemma {:induction false} ContainsExact(hay: string, needle: string)
    ensures Contains(hay, needle) <==> exists i :: 0 <= i <= |hay| && needle <= hay[i..]
  {
    assert hay[0..] == hay;
    if hay != [] {
      ContainsExact(hay[1..], needle);
      forall i | 0 <= i < |hay|
        ensures hay[1..][i..] == hay[i + 1..]
      {
      }
      if i :| 0 <= i <= |hay| && needle <= hay[i..] {
        assert i > 0 ==> hay[1..][i - 1..] == hay[i..];
      }
    }
  }

  /** Python's `lower` on ASCII letters. */
  function Lower(s: string): (r: string)
    ensures |r| == |s|
  {
    seq(|s|, i requires 0 <= i < |s| => if 'A' <= s[i] <= 'Z' then s[i] - 'A' + 'a' else s[i])
  }

  function Digit(d: nat): char
    requires d < 10
  {
    '0' + d as char
  }

  lemma DigitOrder(c: nat, d: nat)
    requires c < 10 && d < 10
    ensures Digit(c) < Digit(d) <==> c < d
    ensures Digit(c) == Digit(d) <==> c == d
  {
  }

  function Pow10(w: nat): (p: nat)
    ensures p >= 1
  {
    if w == 0 then 1 else 10 * Pow10(w - 1)
  }

  /** Exactly `w` digits: the last `w` of `n`. */
  function Fixed(n: nat, w: nat): (s: string)
    ensures |s| == w
  {
    if w == 0 then "" else Fixed(n / 10, w - 1) + [Digit(n % 10)]
  }

  /** Python's `str(n)`. */
  function Decimal(n: nat): (s: string)
    ensures |s| >= 1
  {
    if n < 10 then [Digit(n)] else Decimal(n / 10) + [Digit(n % 10)]
  }

  /** Python's `f"{n:0{w}d}"`: at least `w` digits, more when the number needs them. */
  function Padded(n: nat, w: nat): string {
    if n < Pow10(w) then Fixed(n, w) else Decimal(n)
  }

  /** Among numbers of one width, string order is numeric order. */
  lemma {:induction false} FixedOrder(m: nat, n: nat, w: nat)
    requires m < Pow10(w) && n < Pow10(w)
    ensures LexLe(Fixed(m, w), Fixed(n, w)) <==> m <= n
    ensures Fixed(m, w) == Fixed(n, w) ==> m == n
  {
    if w > 0 {
      var a, b := Fixed(m / 10, w - 1), Fixed(n / 10, w - 1);
      FixedOrder(m / 10, n / 10, w - 1);
      LexConcat(a, b, [Digit(m % 10)], [Digit(n % 10)]);
      DigitOrder(m % 10, n % 10);
      LexDigits(m % 10, n % 10);
      if Fixed(m, w) == Fixed(n, w) {
        assert a == Fixed(m, w)[..w - 1] && b == Fixed(n, w)[..w - 1];
        assert Fixed(m, w)[w - 1] == Digit(m % 10) && Fixed(n, w)[w - 1] == Digit(n % 10);
      }
      if a == b {
        assert m / 10 == n / 10;
      }
    }
  }

  lemma LexDigits(c: nat, d: nat)
    requires c < 10 && d < 10
    ensures LexLe([Digit(c)], [Digit(d)]) <==> c <= d
  {
    DigitOrder(c, d);
    assert [Digit(c)][1..] == [] && [Digit(d)][1..] == [];
  }

  lemma {:induction false} DecimalInjective(m: nat, n: nat)
    requires Decimal(m) == Decimal(n)
    ensures m == n
  {
    var s := Decimal(m);
    if m < 10 && n < 10 {
      DigitOrder(m, n);
      assert s[0] == Digit(m) && s[0] == Digit(n);
    } else if m >= 10 && n >= 10 {
      assert s[..|s| - 1] == Decimal(m / 10) && s[..|s| - 1] == Decimal(n / 10);
      assert s[|s| - 1] == Digit(m % 10) && s[|s| - 1] == Digit(n % 10);
      DecimalInjective(m / 10, n / 10);
      DigitOrder(m % 10, n % 10);
    }
  }

  lemma {:induction false} DecimalLength(n: nat, w: nat)
    ensures w >= 1 ==> (n < Pow10(w) <==> |Decimal(n)| <= w)
    decreases n
  {
    if n < 10 {
      if w >= 1 {
        assert Pow10(w) == 10 * Pow10(w - 1);
      }
    } else if w >= 2 {
      DecimalLength(n / 10, w - 1);
      assert Pow10(w) == 10 * Pow10(w - 1);
    } else if w == 1 {
      assert Pow10(1) == 10 * Pow10(0) == 10;
    }
  }

  /** Zero padding never merges two numbers. */
  lemma PaddedInjective(m: nat, n: nat, w: nat)
    requires w >= 1 && Padded(m, w) == Padded(n, w)
    ensures m == n
  {
    DecimalLength(m, w);
    DecimalLength(n, w);
    if m < Pow10(w) && n < Pow10(w) {
      FixedOrder(m, n, w);
    } else if m >= Pow10(w) && n >= Pow10(w) {
      DecimalInjective(m, n);
    }
  }

  predicate DigitsOnly(s: string) {
    forall i :: 0 <= i < |s| ==> '0' <= s[i] <= '9'
  }

  lemma {:induction false} FixedIsDigits(n: nat, w: nat)
    ensures DigitsOnly(Fixed(n, w))
  {
    if w > 0 {
      FixedIsDigits(n / 10, w - 1);
    }
  }

  lemma {:induction false} DecimalIsDigits(n: nat)
    ensures DigitsOnly(Decimal(n))
  {
    if n >= 10 {
      DecimalIsDigits(n / 10);
    }
  }

  lemma PaddedIsDigits(n: nat, w: nat)
    ensures DigitsOnly(Padded(n, w))
  {
    FixedIsDigits(n, w);
    DecimalIsDigits(n);
  }

  /** The first dash separates a number from what follows it. */
  lemma DashSplits(a: string, b: string, x: string, y: string)
    requires DigitsOnly(a) && DigitsOnly(b) && a + "-" + x == b + "-" + y
    ensures a == b && x == y
  {
    var s, t := a + "-" + x, b + "-" + y;
    assert s[|a|] == '-' && t[|b|] == '-';
    assert forall i :: 0 <= i < |a| ==> s[i] == a[i];
    assert forall i :: 0 <= i < |b| ==> t[i] == b[i];
    if |a| == |b| {
      assert s[..|a|] == a && t[..|a|] == b;
      assert s[|a| + 1..] == x && t[|b| + 1..] == y;
    }
  }

  /** Unpadded numbers of full width already are padded. */
  lemma {:induction false} DecimalOfWidth(n: nat, w: nat)
    requires w >= 1 && n < Pow10(w) && (w == 1 || n >= Pow10(w - 1))
    ensures Decimal(n) == Fixed(n, w)
  {
    if w == 1 {
      assert Pow10(1) == 10 * Pow10(0);
      assert Fixed(n, 1) == Fixed(n / 10, 0) + [Digit(n % 10)];
    } else {
      assert Pow10(w) == 10 * Pow10(w - 1) && Pow10(w - 1) == 10 * Pow10(w - 2);
      if w == 2 {
        assert Pow10(0) == 1 && n >= 10;
      }
      DecimalOfWidth(n / 10, w - 1);
    }
  }

  /** An unpadded number at its own width. */
  lemma DecimalAtWidth(n: nat)
    ensures var w := |Decimal(n)|; Decimal(n) == Fixed(n, w) && n < Pow10(w) && (w == 1 || n >= Pow10(w - 1))
  {
    var w := |Decimal(n)|;
    DecimalLength(n, w);
    if w > 1 {
      DecimalLength(n, w - 1);
    }
    DecimalOfWidth(n, w);
  }

  lemma WidthMonotone(m: nat, n: nat)
    requires m <= n
    ensures |Decimal(m)| <= |Decimal(n)|
  {
    DecimalLength(n, |Decimal(n)|);
    DecimalLength(m, |Decimal(n)|);
  }

  /** On either side of a power of ten. */
  lemma {:induction false} LeadingDigits(w: nat)
    requires w >= 1
    ensures Decimal(Pow10(w) - 1)[0] == '9' && Decimal(Pow10(w))[0] == '1'
  {
    assert Pow10(w) == 10 * Pow10(w - 1);
    if w == 1 {
      assert Decimal(10) == Decimal(1) + [Digit(0)];
    } else {
      LeadingDigits(w - 1);
      assert (Pow10(w) - 1) / 10 == Pow10(w - 1) - 1;
      assert Pow10(w - 1) == 10 * Pow10(w - 2);
    }
  }
}
