/** Row identities: colon-separated fields, and lists built by nested loops that repeat none. */
module RowIdentity {
  import opened DecimalText
  import opened Repetition

  /** The f-string `"a:b:c"`, grown one field at a time. */
  function Join(fields: seq<string>): string
    requires fields != []
  {
    var n := |fields| - 1;
    if n == 0 then fields[0] else Join(fields[..n]) + ":" + fields[n]
  }

  predicate Plain(fields: seq<string>) {
    forall k :: 0 <= k < |fields| ==> ':' !in fields[k]
  }

  lemma JoinAppend(fields: seq<string>, field: string)
    requires fields != []
    ensures Join(fields + [field]) == Join(fields) + ":" + field
  {
    assert (fields + [field])[..|fields|] == fields;
  }

  /** The last separator is where the last field starts. */
  lemma {:induction false} LastSeparator(a: string, b: string, c: string, d: string)
    requires ':' !in b && ':' !in d && a + ":" + b == c + ":" + d
    ensures a == c && b == d
    decreases |b|
  {
    var s := a + ":" + b;
    assert s[|a|] == ':' && s[|c|] == ':';
    assert forall k :: |a| < k < |s| ==> s[k] == b[k - |a| - 1];
    assert forall k :: |c| < k < |s| ==> s[k] == d[k - |c| - 1];
    assert |a| == |c|;
    assert a == s[..|a|] && c == s[..|c|];
    assert b == s[|a| + 1..] && d == s[|c| + 1..];
  }

  lemma {:induction false} JoinIsInjective(a: seq<string>, b: seq<string>)
    requires a != [] && b != [] && Plain(a) && Plain(b) && Join(a) == Join(b)
    ensures a == b
  {
    var n, m := |a| - 1, |b| - 1;
    if n == 0 {
      assert a == [a[0]] && b == [b[0]];
    } else {
      LastSeparator(Join(a[..n]), a[n], Join(b[..m]), b[m]);
      JoinIsInjective(a[..n], b[..m]);
      assert a == a[..n] + [a[n]] && b == b[..m] + [b[m]];
    }
  }

  /** A letter and a number: `m3`, `p0`. */
  function Tag(c: char, n: nat): string {
    [c] + Decimal(n)
  }

  lemma TagIsInjective(c: char, n: nat, d: char, m: nat)
    requires Tag(c, n) == Tag(d, m)
    ensures c == d && n == m
  {
    assert Tag(c, n)[0] == c && Tag(d, m)[0] == d;
    assert Tag(c, n)[1..] == Decimal(n) && Tag(d, m)[1..] == Decimal(m);
    DecimalIsInjective(n, m);
  }

  // -- Lists built by a counting loop ---------------------------------------

  /** `f(0) + ... + f(n - 1)`. */
  function Flat<T>(n: nat, f: nat -> seq<T>): seq<T> {
    if n == 0 then [] else Flat(n - 1, f) + f(n - 1)
  }

  /** The loop's counter can be read off whatever it produced. */
  ghost predicate Keyed<T(!new)>(n: nat, f: nat -> seq<T>, key: T -> nat) {
    forall k: nat, x :: k < n && x in f(k) ==> key(x) == k
  }

  lemma {:induction false} FlatAt<T(!new)>(n: nat, f: nat -> seq<T>, key: T -> nat, x: T)
    requires Keyed(n, f, key)
    ensures x in Flat(n, f) <==> key(x) < n && x in f(key(x))
  {
    if n > 0 {
      FlatAt(n - 1, f, key, x);
    }
  }

  lemma {:induction false} FlatNoRepeat<T(!new)>(n: nat, f: nat -> seq<T>, key: T -> nat)
    requires Keyed(n, f, key)
    requires forall k: nat :: k < n ==> NoRepeat(f(k))
    ensures NoRepeat(Flat(n, f))
  {
    if n > 0 {
      FlatNoRepeat(n - 1, f, key);
      var s, t := Flat(n - 1, f), f(n - 1);
      forall x | x in s ensures x !in t {
        FlatAt(n - 1, f, key, x);
      }
      NoRepeatConcat(s, t);
    }
  }

  /** The same without reading the counter back: what the turns produce never overlaps. */
  lemma {:induction false} FlatApart<T(!new)>(n: nat, f: nat -> seq<T>)
    requires forall k: nat :: k < n ==> NoRepeat(f(k))
    requires forall k: nat, l: nat, x :: k < l < n && x in f(k) ==> x !in f(l)
    ensures NoRepeat(Flat(n, f))
  {
    if n > 0 {
      var s, t := Flat(n - 1, f), f(n - 1);
      FlatApart(n - 1, f);
      forall x | x in s ensures x !in t {
        var k := InFlat(n - 1, f, x);
      }
      NoRepeatConcat(s, t);
    }
  }

  lemma {:induction false} InFlat<T>(n: nat, f: nat -> seq<T>, x: T) returns (k: nat)
    requires x in Flat(n, f)
    ensures k < n && x in f(k)
  {
    k := n - 1;
    if x !in f(n - 1) {
      k := InFlat(n - 1, f, x);
    }
  }

  function Total(n: nat, f: nat -> nat): nat {
    if n == 0 then 0 else Total(n - 1, f) + f(n - 1)
  }

  lemma {:induction false} FlatLength<T>(n: nat, f: nat -> seq<T>, g: nat -> nat)
    requires forall k: nat :: k < n ==> |f(k)| == g(k)
    ensures |Flat(n, f)| == Total(n, g)
  {
    if n > 0 {
      FlatLength(n - 1, f, g);
    }
  }
}
