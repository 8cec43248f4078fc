/** UTF-8 (section 3 of RFC 3629) as `str.encode("utf-8")` writes it. */
module Utf8 {

  type Byte = b: int | 0 <= b < 256

  function EncodeChar(c: char): seq<Byte> {
    var n := c as int;
    if n < 0x80 then [n]
    else if n < 0x800 then [0xC0 + n / 64, 0x80 + n % 64]
    else if n < 0x10000 then [0xE0 + n / 4096, 0x80 + n / 64 % 64, 0x80 + n % 64]
    else [0xF0 + n / 262144, 0x80 + n / 4096 % 64, 0x80 + n / 64 % 64, 0x80 + n % 64]
  }

  function Encode(s: string): seq<Byte> {
    if s == [] then [] else EncodeChar(s[0]) + Encode(s[1..])
  }

  /** The first byte announces the length. */
  function Announced(b: Byte): nat {
    if b < 0x80 then 1 else if b < 0xE0 then 2 else if b < 0xF0 then 3 else 4
  }

  lemma LengthIsAnnounced(c: char)
    ensures |EncodeChar(c)| == Announced(EncodeChar(c)[0])
  {
    assert c as int < 0x110000;
  }

  function CodePoint(x: seq<int>): int
    requires 1 <= |x| <= 4
  {
    if |x| == 1 then x[0]
    else if |x| == 2 then (x[0] - 0xC0) * 64 + (x[1] - 0x80)
    else if |x| == 3 then ((x[0] - 0xE0) * 64 + (x[1] - 0x80)) * 64 + (x[2] - 0x80)
    else (((x[0] - 0xF0) * 64 + (x[1] - 0x80)) * 64 + (x[2] - 0x80)) * 64 + (x[3] - 0x80)
  }

  lemma SixBits(n: nat)
    ensures n / 64 * 64 + n % 64 == n
    ensures n / 64 / 64 == n / 4096 && n / 4096 / 64 == n / 262144
  {
  }

  lemma CharRoundTrip(c: char)
    ensures CodePoint(EncodeChar(c)) == c as int
  {
    var n := c as int;
    SixBits(n);
    SixBits(n / 64);
    SixBits(n / 4096);
  }

  /** No character's encoding is another's. */
  lemma CharIsInjective(c: char, d: char)
    requires EncodeChar(c) == EncodeChar(d)
    ensures c == d
  {
    CharRoundTrip(c);
    CharRoundTrip(d);
    assert c as int == d as int;
    assert (c as int) as char == c && (d as int) as char == d;
  }

  lemma {:induction false} EncodeIsInjective(s: string, t: string)
    requires Encode(s) == Encode(t)
    ensures s == t
  {
    assert Encode(s) == [] <==> s == [];
    assert Encode(t) == [] <==> t == [];
    if s != [] {
      var x, y := EncodeChar(s[0]), EncodeChar(t[0]);
      assert x[0] == Encode(s)[0] && y[0] == Encode(t)[0];
      LengthIsAnnounced(s[0]);
      LengthIsAnnounced(t[0]);
      assert x == Encode(s)[..|x|] && y == Encode(t)[..|y|];
      CharIsInjective(s[0], t[0]);
      assert Encode(s[1..]) == Encode(s)[|x|..] && Encode(t[1..]) == Encode(t)[|y|..];
      EncodeIsInjective(s[1..], t[1..]);
      assert s == [s[0]] + s[1..] && t == [t[0]] + t[1..];
    }
  }
}
