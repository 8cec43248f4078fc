/** Python's `str.replace` for the patterns this service uses, and per-character maps. */
module TextReplace {

  function ReplaceChar(s: string, c: char, sub: string): string {
    if s == [] then [] else (if s[0] == c then sub else [s[0]]) + ReplaceChar(s[1..], c, sub)
  }

  /** A two-character pattern, replaced left to right without overlap. */
  function ReplacePair(s: string, a: char, b: char, sub: string): string {
    if |s| < 2 then s
    else if s[0] == a && s[1] == b then sub + ReplacePair(s[2..], a, b, sub)
    else [s[0]] + ReplacePair(s[1..], a, b, sub)
  }

  /** Every character mapped on its own, the pieces concatenated. */
  function MapChars(s: string, f: char -> string): string {
    if s == [] then [] else f(s[0]) + MapChars(s[1..], f)
  }

  lemma ConcatIsAssociative(a: string, b: string, c: string)
    ensures a + (b + c) == (a + b) + c
  {
  }

  lemma {:induction false} ReplaceCharAppends(s: string, t: string, c: char, sub: string)
    ensures ReplaceChar(s + t, c, sub) == ReplaceChar(s, c, sub) + ReplaceChar(t, c, sub)
  {
    if s == [] {
      assert s + t == t;
    } else {
      assert (s + t)[1..] == s[1..] + t;
      ReplaceCharAppends(s[1..], t, c, sub);
    }
  }

  lemma {:induction false} ReplaceIsAMap(s: string, c: char, sub: string)
    ensures ReplaceChar(s, c, sub) == MapChars(s, (x: char) => if x == c then sub else [x])
  {
    if s != [] {
      ReplaceIsAMap(s[1..], c, sub);
    }
  }

  /** Replacing in a mapped text is mapping through the replacement. */
  lemma {:induction false} ReplaceAfterMap(s: string, f: char -> string, c: char, sub: string, g: char -> string)
    requires forall x :: x in s ==> ReplaceChar(f(x), c, sub) == g(x)
    ensures ReplaceChar(MapChars(s, f), c, sub) == MapChars(s, g)
  {
    if s != [] {
      ReplaceCharAppends(f(s[0]), MapChars(s[1..], f), c, sub);
      ReplaceAfterMap(s[1..], f, c, sub, g);
    }
  }
}
