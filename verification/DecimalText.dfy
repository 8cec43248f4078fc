/** Decimal spellings of naturals and the text order of strings. */
module DecimalText {

  /** The character of one decimal digit. */
  function Digit(d: nat): char
    requires d < 10
  {
    (48 + d) as char
  }

  predicate IsDigit(c: char) {
    '0' <= c <= '9'
  }

  /** The shortest decimal spelling, as `str(n)` writes it. */
  function Decimal(n: nat): (s: string)
    ensures |s| >= 1
    ensures forall k :: 0 <= k < |s| ==> IsDigit(s[k])
    ensures |s| > 1 ==> s[0] != '0'
  {
    if n < 10 then [Digit(n)] else Decimal(n / 10) + [Digit(n % 10)]
  }

  /** The number a digit string spells, most significant digit first. */
  function Number(s: string): nat
    requires forall k :: 0 <= k < |s| ==> IsDigit(s[k])
  {
    if s == [] then 0 else assert IsDigit(s[|s| - 1]); 10 * Number(s[..|s| - 1]) + (s[|s| - 1] as int - 48)
  }

  lemma {:induction false} NumberOfDecimal(n: nat)
    ensures Number(Decimal(n)) == n
  {
    if n >= 10 {
      NumberOfDecimal(n / 10);
      assert Decimal(n)[..|Decimal(n)| - 1] == Decimal(n / 10);
    }
  }

  lemma OneDigitMore(n: nat, k: nat)
    requires n > 0 && k < 10
    ensures Decimal(10 * n + k) == Decimal(n) + [Digit(k)]
  {
    assert (10 * n + k) / 10 == n && (10 * n + k) % 10 == k;
  }

  lemma DecimalIsInjective(n: nat, m: nat)
    requires Decimal(n) == Decimal(m)
    ensures n == m
  {
    NumberOfDecimal(n);
    NumberOfDecimal(m);
  }

  /** `n` in exactly `width` digits, zero padded; callers keep `n` below `10^width`. */
  function Padded(n: nat, width: nat): (s: string)
    ensures |s| == width
  {
    if width == 0 then [] else Padded(n / 10, width - 1) + [Digit(n % 10)]
  }

  function Pow10(w: nat): (p: nat)
    ensures p >= 1
  {
    if w == 0 then 1 else 10 * Pow10(w - 1)
  }

  /** Character-by-character order, the order SQLite's default collation compares text in. */
  predicate LexLe(a: string, b: string) {
    a == [] || (b != [] && (a[0] < b[0] || (a[0] == b[0] && LexLe(a[1..], b[1..]))))
  }

  /** Strings of one length: strictly less, equal, or greater is decided at the first difference. */
  predicate LexLt(a: string, b: string)
    requires |a| == |b|
  {
    a != [] && (a[0] < b[0] || (a[0] == b[0] && LexLt(a[1..], b[1..])))
  }

  lemma {:induction false} LexAppend(p: string, q: string, a: string, b: string)
    requires |p| == |q|
    ensures LexLe(p + a, q + b) <==> LexLt(p, q) || (p == q && LexLe(a, b))
  {
    if p == [] {
      assert p + a == a && q + b == b;
    } else {
      LexAppend(p[1..], q[1..], a, b);
      assert (p + a)[1..] == p[1..] + a && (q + b)[1..] == q[1..] + b;
      assert p == q <==> p[0] == q[0] && p[1..] == q[1..] by {
        assert p == [p[0]] + p[1..] && q == [q[0]] + q[1..];
      }
    }
  }

  lemma {:induction false} LexLtAppend(p: string, q: string, c: char, d: char)
    requires |p| == |q|
    ensures LexLt(p + [c], q + [d]) <==> LexLt(p, q) || (p == q && c < d)
  {
    if p == [] {
      assert p + [c] == [c] && q + [d] == [d];
    } else {
      LexLtAppend(p[1..], q[1..], c, d);
      assert (p + [c])[1..] == p[1..] + [c] && (q + [d])[1..] == q[1..] + [d];
      assert p == q <==> p[0] == q[0] && p[1..] == q[1..] by {
        assert p == [p[0]] + p[1..] && q == [q[0]] + q[1..];
      }
    }
  }

  /** Zero padding makes text order numeric order. */
  lemma {:induction false} PaddedOrder(n: nat, m: nat, width: nat)
    requires n < Pow10(width) && m < Pow10(width)
    ensures LexLt(Padded(n, width), Padded(m, width)) <==> n < m
    ensures Padded(n, width) == Padded(m, width) <==> n == m
  {
    if width > 0 {
      PaddedOrder(n / 10, m / 10, width - 1);
      LexLtAppend(Padded(n / 10, width - 1), Padded(m / 10, width - 1), Digit(n % 10), Digit(m % 10));
      assert Padded(n, width)[..width - 1] == Padded(n / 10, width - 1);
      assert Padded(m, width)[..width - 1] == Padded(m / 10, width - 1);
      assert Padded(n, width)[width - 1] == Digit(n % 10);
      assert Padded(m, width)[width - 1] == Digit(m % 10);
    }
  }

  /** Two texts that open with a fixed-width field compare by that field first. */
  lemma FieldOrder(n: nat, m: nat, width: nat, a: string, b: string)
    requires n < Pow10(width) && m < Pow10(width)
    ensures LexLe(Padded(n, width) + a, Padded(m, width) + b) <==> n < m || (n == m && LexLe(a, b))
  {
    PaddedOrder(n, m, width);
    LexAppend(Padded(n, width), Padded(m, width), a, b);
  }
}
