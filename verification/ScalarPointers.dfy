/**
 JSON Pointers (RFC 6901) and the two listings of the scalar leaves of a document: the sorted one
 of `historical_rows.py` and the insertion-ordered one of `amendment_tables.py`.
 */
module ScalarPointers {
  import opened Wrappers
  import opened Json
  import opened TextReplace
  import opened DecimalText
  import opened Repetition
  import TextSort

  // -- Reference tokens -----------------------------------------------------

  /** `~` to `~0`, then `/` to `~1`. */
  function EscapeToken(key: string): string {
    ReplaceChar(ReplaceChar(key, '~', "~0"), '/', "~1")
  }

  /** The reader undoes them in the opposite order. */
  function UnescapeToken(token: string): string {
    ReplacePair(ReplacePair(token, '~', '1', "/"), '~', '0', "~")
  }

  predicate GoodEscapes(token: string) {
    forall k :: 0 <= k < |token| && token[k] == '~' ==> k + 1 < |token| && token[k + 1] in "01"
  }

  function EscapedChar(c: char): string {
    if c == '~' then "~0" else if c == '/' then "~1" else [c]
  }

  lemma EscapeIsPerCharacter(key: string)
    ensures EscapeToken(key) == MapChars(key, EscapedChar)
  {
    var tilde := (c: char) => if c == '~' then "~0" else [c];
    ReplaceIsAMap(key, '~', "~0");
    forall c: char ensures ReplaceChar(tilde(c), '/', "~1") == EscapedChar(c) {
      assert ['~', '0'][1..] == ['0'] && ['0'][1..] == [] && [c][1..] == [];
      assert ReplaceChar(['0'], '/', "~1") == ['0'];
    }
    ReplaceAfterMap(key, tilde, '/', "~1", EscapedChar);
  }

  lemma {:induction false} EscapeHasNoSlash(key: string)
    ensures '/' !in MapChars(key, EscapedChar) && GoodEscapes(MapChars(key, EscapedChar))
  {
    if key != [] {
      EscapeHasNoSlash(key[1..]);
      var head, rest := EscapedChar(key[0]), MapChars(key[1..], EscapedChar);
      forall k | 0 <= k < |head + rest| && (head + rest)[k] == '~'
        ensures k + 1 < |head + rest| && (head + rest)[k + 1] in "01"
      {
        if k >= |head| {
          assert rest[k - |head|] == '~';
        }
      }
    }
  }

  function HalfEscaped(c: char): string {
    if c == '~' then "~0" else [c]
  }

  lemma PairSkips(c: char, rest: string, a: char, b: char, sub: string)
    requires c != a
    ensures ReplacePair([c] + rest, a, b, sub) == [c] + ReplacePair(rest, a, b, sub)
  {
    assert ([c] + rest)[1..] == rest;
  }

  lemma PairHits(a: char, b: char, rest: string, sub: string)
    ensures ReplacePair([a, b] + rest, a, b, sub) == sub + ReplacePair(rest, a, b, sub)
  {
    assert ([a, b] + rest)[2..] == rest;
  }

  lemma PairMisses(a: char, c: char, rest: string, b: char, sub: string)
    requires c != a && c != b
    ensures ReplacePair([a, c] + rest, a, b, sub) == [a, c] + ReplacePair(rest, a, b, sub)
  {
    assert ([a, c] + rest)[1..] == [c] + rest;
    PairSkips(c, rest, a, b, sub);
  }

  lemma {:induction false} SlashesComeBack(key: string)
    ensures ReplacePair(MapChars(key, EscapedChar), '~', '1', "/") == MapChars(key, HalfEscaped)
  {
    if key != [] {
      SlashesComeBack(key[1..]);
      var c, rest := key[0], MapChars(key[1..], EscapedChar);
      if c == '/' {
        PairHits('~', '1', rest, "/");
      } else if c == '~' {
        PairMisses('~', '0', rest, '1', "/");
      } else {
        PairSkips(c, rest, '~', '1', "/");
      }
    }
  }

  lemma {:induction false} TildesComeBack(key: string)
    ensures ReplacePair(MapChars(key, HalfEscaped), '~', '0', "~") == key
  {
    if key != [] {
      TildesComeBack(key[1..]);
      var c, rest := key[0], MapChars(key[1..], HalfEscaped);
      if c == '~' {
        PairHits('~', '0', rest, "~");
      } else {
        PairSkips(c, rest, '~', '0', "~");
      }
      assert key == [c] + key[1..];
    }
  }

  /** An escaped key is one clean token and reads back as the key. */
  lemma EscapeRoundTrip(key: string)
    ensures UnescapeToken(EscapeToken(key)) == key
    ensures '/' !in EscapeToken(key) && GoodEscapes(EscapeToken(key))
  {
    EscapeIsPerCharacter(key);
    EscapeHasNoSlash(key);
    SlashesComeBack(key);
    TildesComeBack(key);
  }

  /** The two replacements do not commute: undone in the order they were made, `~1` is lost. */
  lemma UnescapeOrderMatters()
    ensures ReplacePair(ReplacePair(EscapeToken("~1"), '~', '0', "~"), '~', '1', "/") == "/"
    ensures UnescapeToken(EscapeToken("~1")) == "~1"
  {
    EscapeRoundTrip("~1");
    EscapeIsPerCharacter("~1");
    assert "~1"[1..] == "1" && "1"[1..] == "";
    assert MapChars("1", EscapedChar) == "1";
    assert EscapeToken("~1") == "~01";
    assert "~01"[2..] == "1" && ReplacePair("1", '~', '0', "~") == "1";
    assert ReplacePair("~01", '~', '0', "~") == "~1";
    assert "~1"[2..] == "" && ReplacePair("", '~', '1', "/") == "";
  }

  // -- Pointers and their evaluation ----------------------------------------

  datatype Step = Key(key: string) | Index(index: nat)

  function Token(step: Step): string {
    match step
    case Key(key) => EscapeToken(key)
    case Index(index) => Decimal(index)
  }

  function Spell(path: seq<Step>): string {
    if path == [] then [] else "/" + Token(path[0]) + Spell(path[1..])
  }

  predicate Has(j: Json, step: Step) {
    match step
    case Key(key) => j.Object? && key in j.keys
    case Index(index) => j.Array? && index < |j.items|
  }

  function Child(j: Json, step: Step): (c: Json)
    requires WellFormed(j) && Has(j, step)
    ensures WellFormed(c) && c < j
  {
    match step
    case Key(key) => assert WellFormed(Children(j)[IndexOf(j.keys, key)]); j.values[IndexOf(j.keys, key)]
    case Index(index) => assert WellFormed(Children(j)[index]); j.items[index]
  }

  /** The value at a path, when the document has one. */
  function Walk(j: Json, path: seq<Step>): Option<Json>
    requires WellFormed(j)
    decreases |path|
  {
    if path == [] then Some(j)
    else if Has(j, path[0]) then Walk(Child(j, path[0]), path[1..]) else None
  }

  lemma {:induction false} WalkStaysWellFormed(j: Json, path: seq<Step>)
    requires WellFormed(j) && Walk(j, path).Some?
    ensures WellFormed(Walk(j, path).value)
    decreases |path|
  {
    if path != [] {
      WalkStaysWellFormed(Child(j, path[0]), path[1..]);
    }
  }

  ghost predicate IsLeaf(j: Json, path: seq<Step>)
    requires WellFormed(j)
  {
    Walk(j, path).Some? && Scalar(Walk(j, path).value)
  }

  /** `str.split("/")`. */
  function Split(s: string): (parts: seq<string>)
    ensures |parts| >= 1
  {
    if s == [] then [[]]
    else
      var rest := Split(s[1..]);
      if s[0] == '/' then [[]] + rest else [[s[0]] + rest[0]] + rest[1..]
  }

  /** What a character is worth as a digit: Python's `\d` and `int` know more of them than ASCII's ten. */
  type Digits = char -> Option<nat>

  ghost predicate Proper(digits: Digits) {
    && (forall c: char :: digits(c).Some? ==> digits(c).value < 10)
    && (forall c: char :: IsDigit(c) ==> digits(c) == Some(c as int - 48))
    && (forall c: char :: c < '\U{0080}' && digits(c).Some? ==> IsDigit(c))
  }

  predicate AllDigits(key: string, digits: Digits) {
    forall k :: 0 <= k < |key| ==> digits(key[k]).Some?
  }

  /** `re.fullmatch(r"0|[1-9]\d*", key)` */
  predicate IsIndexText(key: string, digits: Digits) {
    key == "0" || (key != [] && '1' <= key[0] <= '9' && AllDigits(key, digits))
  }

  /** `int(key)` */
  function IndexNumber(key: string, digits: Digits): nat
    requires AllDigits(key, digits)
  {
    if key == [] then 0
    else 10 * IndexNumber(key[..|key| - 1], digits) + digits(key[|key| - 1]).value
  }

  function StepOf(digits: Digits, j: Json, token: string): Option<Step> {
    var key := UnescapeToken(token);
    if !GoodEscapes(token) then None
    else if j.Array? then
      if key == "0" then Some(Index(0))
      else if IsIndexText(key, digits) then Some(Index(IndexNumber(key, digits))) else None
    else if j.Object? then Some(Key(key))
    else None
  }

  function ResolveTokens(digits: Digits, j: Json, tokens: seq<string>): Option<Json>
    requires WellFormed(j)
    decreases |tokens|
  {
    if tokens == [] then Some(j)
    else
      match StepOf(digits, j, tokens[0])
      case Some(step) => if Has(j, step) then ResolveTokens(digits, Child(j, step), tokens[1..]) else None
      case None => None
  }

  /** `resolve_pointer`; None is its one refusal. */
  function Resolve(digits: Digits, document: Json, pointer: string): Option<Json>
    requires WellFormed(document)
  {
    ResolveTokens(digits, document, Split(pointer)[1..])
  }

  lemma {:induction false} SplitToken(token: string, rest: string)
    requires '/' !in token && (rest == [] || rest[0] == '/')
    ensures Split(token + rest) == [token] + Split(rest)[1..]
  {
    if token == [] {
      assert token + rest == rest;
    } else {
      SplitToken(token[1..], rest);
      assert (token + rest)[1..] == token[1..] + rest;
      assert token == [token[0]] + token[1..];
    }
  }

  lemma TokenIsOnePart(step: Step)
    ensures '/' !in Token(step)
  {
    if step.Key? {
      EscapeRoundTrip(step.key);
    }
  }

  lemma SplitStep(step: Step, rest: string)
    requires rest == [] || rest[0] == '/'
    ensures Split("/" + Token(step) + rest)[1..] == [Token(step)] + Split(rest)[1..]
  {
    TokenIsOnePart(step);
    SplitPart(Token(step), rest);
  }

  lemma SplitPart(token: string, rest: string)
    requires '/' !in token && (rest == [] || rest[0] == '/')
    ensures Split("/" + token + rest)[1..] == [token] + Split(rest)[1..]
  {
    SplitToken(token, rest);
    SplitSlash(token + rest);
    ConcatIsAssociative("/", token, rest);
  }

  lemma SplitSlash(s: string)
    ensures Split("/" + s)[1..] == Split(s)
  {
    assert ("/" + s)[1..] == s;
  }

  lemma {:induction false} PlainTokensAreThemselves(s: string, a: char, b: char, sub: string)
    requires a !in s
    ensures ReplacePair(s, a, b, sub) == s
  {
    if |s| >= 2 {
      PlainTokensAreThemselves(s[1..], a, b, sub);
      assert s == [s[0]] + s[1..];
    }
  }

  /** A number respelled in ASCII digits. */
  function Ascii(key: string, digits: Digits): string
    requires AllDigits(key, digits) && forall k :: 0 <= k < |key| ==> digits(key[k]).value < 10
  {
    seq(|key|, k requires 0 <= k < |key| => Digit(digits(key[k]).value))
  }

  /** A token names a step: as it is spelled, an index possibly in other digits. */
  ghost predicate Names(digits: Digits, token: string, step: Step)
    requires Proper(digits)
  {
    match step
    case Key(_) => token == Token(step)
    case Index(index) =>
      IsIndexText(token, digits) && AllDigits(token, digits) && Ascii(token, digits) == Decimal(index)
  }

  lemma {:induction false} AsciiNumber(key: string, digits: Digits)
    requires Proper(digits) && AllDigits(key, digits)
    ensures IndexNumber(key, digits) == DecimalText.Number(Ascii(key, digits))
  {
    if key != [] {
      var init := key[..|key| - 1];
      AsciiNumber(init, digits);
      assert Ascii(key, digits)[..|key| - 1] == Ascii(init, digits);
    }
  }

  /** Digits are nothing a token has to escape. */
  lemma DigitsArePlain(key: string, digits: Digits)
    requires Proper(digits) && AllDigits(key, digits)
    ensures '~' !in key && '/' !in key
    ensures UnescapeToken(key) == key && GoodEscapes(key)
  {
    assert digits('~').None? && digits('/').None?;
    PlainTokensAreThemselves(key, '~', '1', "/");
    PlainTokensAreThemselves(key, '~', '0', "~");
  }

  lemma NamedStepReadsBack(digits: Digits, j: Json, token: string, step: Step)
    requires Proper(digits) && Has(j, step) && Names(digits, token, step)
    ensures StepOf(digits, j, token) == Some(step) && '/' !in token
  {
    match step {
      case Key(key) => EscapeRoundTrip(key);
      case Index(index) =>
        DigitsArePlain(token, digits);
        AsciiNumber(token, digits);
        NumberOfDecimal(index);
        ZeroIsZero(digits);
    }
  }

  lemma ZeroIsZero(digits: Digits)
    requires Proper(digits)
    ensures AllDigits("0", digits) && IndexNumber("0", digits) == 0
  {
    assert "0"[..0] == [];
  }

  /** The spelling of a step names it, whatever other digits there are. */
  lemma SpelledStepIsNamed(digits: Digits, step: Step)
    requires Proper(digits)
    ensures Names(digits, Token(step), step)
  {
    if step.Index? {
      var t := Decimal(step.index);
      assert Ascii(t, digits) == t;
      assert |t| == 1 ==> t == [t[0]];
    }
  }

  lemma StepReadsBack(digits: Digits, j: Json, step: Step)
    requires Proper(digits) && Has(j, step)
    ensures StepOf(digits, j, Token(step)) == Some(step)
  {
    SpelledStepIsNamed(digits, step);
    NamedStepReadsBack(digits, j, Token(step), step);
  }

  /** Every path the document has is found by the pointer that spells it. */
  lemma {:induction false} SpelledPathResolves(digits: Digits, j: Json, path: seq<Step>)
    requires Proper(digits) && WellFormed(j) && Walk(j, path).Some?
    ensures Resolve(digits, j, Spell(path)) == Walk(j, path)
    decreases |path|
  {
    if path != [] {
      SpelledPathResolves(digits, Child(j, path[0]), path[1..]);
      SplitStep(path[0], Spell(path[1..]));
      StepReadsBack(digits, j, path[0]);
    }
  }

  /** Within one document, no two paths share a spelling. */
  lemma {:induction false} SpellingIsUnique(j: Json, p: seq<Step>, q: seq<Step>)
    requires WellFormed(j) && Walk(j, p).Some? && Walk(j, q).Some? && Spell(p) == Spell(q)
    ensures p == q
    decreases |p|
  {
    if p != [] && q != [] {
      SameFirstStep(j, p, q);
      SpellingIsUnique(Child(j, p[0]), p[1..], q[1..]);
      assert p == [p[0]] + p[1..] && q == [q[0]] + q[1..];
    }
  }

  /** A pointer's first token, and the pointer that is left after it. */
  lemma FirstToken(path: seq<Step>)
    requires path != []
    ensures |Split(Spell(path))| > 1 && Split(Spell(path))[1] == Token(path[0])
    ensures |Spell(path)| > |Token(path[0])| && Spell(path[1..]) == Spell(path)[1 + |Token(path[0])|..]
  {
    SplitStep(path[0], Spell(path[1..]));
    assert Split(Spell(path))[1] == Split(Spell(path))[1..][0];
  }

  lemma SameFirstStep(j: Json, p: seq<Step>, q: seq<Step>)
    requires p != [] && q != [] && Has(j, p[0]) && Has(j, q[0]) && Spell(p) == Spell(q)
    ensures p[0] == q[0] && Spell(p[1..]) == Spell(q[1..])
  {
    FirstToken(p);
    FirstToken(q);
    if p[0].Key? {
      EscapeRoundTrip(p[0].key);
      EscapeRoundTrip(q[0].key);
    } else {
      DecimalIsInjective(p[0].index, q[0].index);
    }
  }

  // -- And only spelled paths -----------------------------------------------

  lemma UnescapePlain(c: char, rest: string)
    requires c != '~'
    ensures UnescapeToken([c] + rest) == [c] + UnescapeToken(rest)
  {
    PairSkips(c, rest, '~', '1', "/");
    PairSkips(c, ReplacePair(rest, '~', '1', "/"), '~', '0', "~");
  }

  lemma UnescapeEscape(d: char, rest: string)
    requires d == '0' || d == '1'
    ensures UnescapeToken(['~', d] + rest) == (if d == '0' then "~" else "/") + UnescapeToken(rest)
  {
    var once := ReplacePair(rest, '~', '1', "/");
    assert (['~', d] + rest)[2..] == rest && (['~', d] + rest)[1..] == [d] + rest;
    if d == '1' {
      PairSkips('/', once, '~', '0', "~");
    } else {
      PairSkips('0', rest, '~', '1', "/");
      assert (['~'] + (['0'] + once))[2..] == once;
    }
  }

  /** A well-escaped token is the escape of what it reads as. */
  lemma {:induction false} ReEscape(token: string)
    requires '/' !in token && GoodEscapes(token)
    ensures MapChars(UnescapeToken(token), EscapedChar) == token
    decreases |token|
  {
    if token != [] {
      var n := if token[0] == '~' then 2 else 1;
      var rest := token[n..];
      assert GoodEscapes(rest) by {
        forall k | 0 <= k < |rest| && rest[k] == '~' ensures k + 1 < |rest| && rest[k + 1] in "01" {
          assert token[k + n] == '~';
        }
      }
      ReEscape(rest);
      assert token == token[..n] + rest;
      if n == 2 {
        assert token[..2] == ['~', token[1]];
        UnescapeEscape(token[1], rest);
      } else {
        assert token[..1] == [token[0]];
        UnescapePlain(token[0], rest);
      }
      MapCons(UnescapeToken(token)[0], UnescapeToken(rest), EscapedChar);
    }
  }

  lemma MapCons(c: char, rest: string, f: char -> string)
    ensures MapChars([c] + rest, f) == f(c) + MapChars(rest, f)
  {
    assert ([c] + rest)[1..] == rest;
  }

  /** A digit string without a leading zero is the decimal spelling of its number. */
  lemma {:induction false} NumeralIsDecimal(s: string)
    requires s != [] && s[0] != '0' && forall k :: 0 <= k < |s| ==> IsDigit(s[k])
    ensures Decimal(DecimalText.Number(s)) == s
  {
    var n := |s| - 1;
    if n == 0 {
      assert s[..0] == [] && s == [s[0]];
      assert IsDigit(s[0]);
    } else {
      var init := s[..n];
      assert IsDigit(s[n]) && init[0] == s[0];
      NumeralIsDecimal(init);
      assert Decimal(0) == "0" && init != "0";
      assert DecimalText.Number(init) > 0;
      var k: nat := s[n] as int - 48;
      assert DecimalText.Number(s) == 10 * DecimalText.Number(init) + k && Digit(k) == s[n];
      OneDigitMore(DecimalText.Number(init), k);
      assert s == init + [s[n]];
    }
  }

  lemma IndexIsNamed(digits: Digits, key: string)
    requires Proper(digits) && key != "0" && IsIndexText(key, digits)
    ensures Names(digits, key, Index(IndexNumber(key, digits)))
  {
    var ascii := Ascii(key, digits);
    AsciiNumber(key, digits);
    assert IsDigit(key[0]) && ascii[0] == key[0];
    NumeralIsDecimal(ascii);
  }

  lemma StepIsNamed(digits: Digits, j: Json, token: string)
    requires Proper(digits) && '/' !in token && StepOf(digits, j, token).Some?
    ensures Names(digits, token, StepOf(digits, j, token).value)
  {
    var key := UnescapeToken(token);
    ReEscape(token);
    EscapeIsPerCharacter(key);
    if j.Array? {
      if key == "0" {
        SpelledStepIsNamed(digits, Index(0));
        PlainMap(key);
      } else {
        IndexIsNamed(digits, key);
        DigitsArePlain(key, digits);
        PlainMap(key);
      }
    }
  }

  lemma {:induction false} PlainMap(s: string)
    requires forall k :: 0 <= k < |s| ==> s[k] != '~' && s[k] != '/'
    ensures MapChars(s, EscapedChar) == s
  {
    if s != [] {
      PlainMap(s[1..]);
    }
  }

  function JoinSlashes(tokens: seq<string>): string {
    if tokens == [] then [] else "/" + tokens[0] + JoinSlashes(tokens[1..])
  }

  lemma {:induction false} SplitJoins(s: string)
    ensures s == Split(s)[0] + JoinSlashes(Split(s)[1..])
    ensures forall k :: 0 <= k < |Split(s)| ==> '/' !in Split(s)[k]
  {
    if s != [] {
      SplitJoins(s[1..]);
      var rest := Split(s[1..]);
      assert s == [s[0]] + s[1..];
      if s[0] == '/' {
        assert Split(s)[1..] == rest;
      } else {
        assert Split(s)[1..] == rest[1..];
      }
    }
  }

  lemma {:induction false} SplitJoined(prefix: string, tokens: seq<string>)
    requires '/' !in prefix && forall k :: 0 <= k < |tokens| ==> '/' !in tokens[k]
    ensures Split(prefix + JoinSlashes(tokens)) == [prefix] + tokens
    decreases |tokens|
  {
    SplitToken(prefix, JoinSlashes(tokens));
    if tokens != [] {
      var rest := JoinSlashes(tokens[1..]);
      SplitPart(tokens[0], rest);
      SplitJoined([], tokens[1..]);
      assert [] + rest == rest;
      assert tokens == [tokens[0]] + tokens[1..];
    }
  }

  /** Token by token, the names of a path's steps. */
  ghost predicate NamesPath(digits: Digits, tokens: seq<string>, path: seq<Step>)
    requires Proper(digits)
  {
    |tokens| == |path| && forall k :: 0 <= k < |tokens| ==> Names(digits, tokens[k], path[k])
  }

  lemma {:induction false} ResolvedTokensNameAPath(digits: Digits, j: Json, tokens: seq<string>)
    returns (path: seq<Step>)
    requires Proper(digits) && WellFormed(j) && ResolveTokens(digits, j, tokens).Some?
    requires forall k :: 0 <= k < |tokens| ==> '/' !in tokens[k]
    ensures Walk(j, path) == ResolveTokens(digits, j, tokens) && NamesPath(digits, tokens, path)
    decreases |tokens|
  {
    if tokens == [] {
      path := [];
    } else {
      var step := StepOf(digits, j, tokens[0]).value;
      StepIsNamed(digits, j, tokens[0]);
      var rest := ResolvedTokensNameAPath(digits, Child(j, step), tokens[1..]);
      path := [step] + rest;
      assert path[1..] == rest;
      assert forall k :: 1 <= k < |tokens| ==> tokens[k] == tokens[1..][k - 1];
    }
  }

  lemma {:induction false} NamedPathResolves(digits: Digits, j: Json, tokens: seq<string>, path: seq<Step>)
    requires Proper(digits) && WellFormed(j) && Walk(j, path).Some? && NamesPath(digits, tokens, path)
    ensures ResolveTokens(digits, j, tokens) == Walk(j, path)
    ensures forall k :: 0 <= k < |tokens| ==> '/' !in tokens[k]
    decreases |path|
  {
    if path != [] {
      assert Names(digits, tokens[0], path[0]);
      NamedStepReadsBack(digits, j, tokens[0], path[0]);
      forall k | 0 <= k < |tokens[1..]| ensures Names(digits, tokens[1..][k], path[1..][k]) {
        assert Names(digits, tokens[k + 1], path[k + 1]);
      }
      NamedPathResolves(digits, Child(j, path[0]), tokens[1..], path[1..]);
      assert forall k :: 1 <= k < |tokens| ==> tokens[k] == tokens[1..][k - 1];
    }
  }

  /** The pointer reads, past whatever stands before its first slash, as names of the steps of a path. */
  ghost predicate PointsAlong(digits: Digits, pointer: string, path: seq<Step>)
    requires Proper(digits)
  {
    exists prefix: string, tokens: seq<string> ::
      '/' !in prefix && pointer == prefix + JoinSlashes(tokens) && NamesPath(digits, tokens, path)
  }

  /**
   A pointer evaluates to a value exactly when it points along a path to it: it spells that path, once
   whatever stands before its first slash is dropped and its index tokens are respelled in ASCII
   digits. A bad escape, a padded or missing index and an absent key all fail.
   */
  lemma ResolvesIffSpelled(digits: Digits, j: Json, pointer: string, value: Json)
    requires Proper(digits) && WellFormed(j)
    ensures Resolve(digits, j, pointer) == Some(value) <==>
            exists path :: Walk(j, path) == Some(value) && PointsAlong(digits, pointer, path)
  {
    if Resolve(digits, j, pointer) == Some(value) {
      SplitJoins(pointer);
      var tokens := Split(pointer)[1..];
      var path := ResolvedTokensNameAPath(digits, j, tokens);
      assert '/' !in Split(pointer)[0] && pointer == Split(pointer)[0] + JoinSlashes(tokens);
      assert PointsAlong(digits, pointer, path);
    }
    forall path | Walk(j, path) == Some(value) && PointsAlong(digits, pointer, path)
      ensures Resolve(digits, j, pointer) == Some(value)
    {
      var prefix: string, tokens: seq<string> :|
        '/' !in prefix && pointer == prefix + JoinSlashes(tokens) && NamesPath(digits, tokens, path);
      NamedPathResolves(digits, j, tokens, path);
      SplitJoined(prefix, tokens);
    }
  }

  /** So text before the first slash is lost on it: `x/a` evaluates wherever `/a` does. */
  lemma TextBeforeTheSlashIsIgnored(digits: Digits, j: Json, prefix: string, path: seq<Step>)
    requires Proper(digits) && WellFormed(j) && '/' !in prefix && Walk(j, path).Some?
    ensures Resolve(digits, j, prefix + Spell(path)) == Resolve(digits, j, Spell(path)) == Walk(j, path)
  {
    SplitToken(prefix, Spell(path));
    SpelledPathResolves(digits, j, path);
  }

  const ARABIC_ZERO: char := '\U{0660}'

  lemma IndexSpellsInAscii(items: seq<Json>, path: seq<Step>)
    requires WellFormed(Array(items)) && path != [] && Walk(Array(items), path).Some?
    ensures var parts := Split(Spell(path)); |parts| > 1 && forall k :: 0 <= k < |parts[1]| ==> IsDigit(parts[1][k])
  {
    FirstToken(path);
  }

  /** And an index is read in any digits: a 1 and an Arabic-Indic 0 find the eleventh item, and spell no path. */
  lemma OtherDigitsAreRead(digits: Digits, items: seq<Json>)
    requires Proper(digits) && digits(ARABIC_ZERO) == Some(0)
    requires |items| == 11 && WellFormed(Array(items))
    ensures Resolve(digits, Array(items), "/1" + [ARABIC_ZERO]) == Some(items[10])
    ensures forall path :: Walk(Array(items), path).Some? ==> Spell(path) != "/1" + [ARABIC_ZERO]
  {
    var j, token := Array(items), ['1', ARABIC_ZERO];
    var pointer := "/1" + [ARABIC_ZERO];
    assert Ascii(token, digits) == "10" == Decimal(10);
    assert Walk(j, [Index(10)]) == Some(items[10]);
    assert NamesPath(digits, [token], [Index(10)]);
    NamedPathResolves(digits, j, [token], [Index(10)]);
    SplitJoined([], [token]);
    var tokens: seq<string> := [token];
    assert tokens[1..] == [] && pointer == "" + JoinSlashes(tokens);
    assert Split(pointer)[1] == token && !IsDigit(token[1]);
    forall path | Walk(j, path).Some? ensures Spell(path) != pointer {
      if path != [] {
        IndexSpellsInAscii(items, path);
      }
    }
  }

  // -- Pointers that part ways ----------------------------------------------

  function Tokens(path: seq<Step>): seq<string> {
    if path == [] then [] else [Token(path[0])] + Tokens(path[1..])
  }

  lemma {:induction false} TokensOfSpelling(path: seq<Step>)
    ensures Split(Spell(path))[1..] == Tokens(path)
  {
    if path != [] {
      TokensOfSpelling(path[1..]);
      SplitStep(path[0], Spell(path[1..]));
    }
  }

  lemma {:induction false} TokenAt(path: seq<Step>, k: nat)
    requires k < |path|
    ensures |Tokens(path)| == |path| && Tokens(path)[k] == Token(path[k])
  {
    if k > 0 {
      TokenAt(path[1..], k - 1);
    } else if |path| > 1 {
      TokenAt(path[1..], 0);
    }
  }

  /** Two pointers that agree agree on every step of one kind. */
  lemma SpellingsAgree(p: seq<Step>, q: seq<Step>, k: nat)
    requires k < |p| && k < |q| && Spell(p) == Spell(q) && (p[k].Key? <==> q[k].Key?)
    ensures p[k] == q[k]
  {
    TokensOfSpelling(p);
    TokensOfSpelling(q);
    TokenAt(p, k);
    TokenAt(q, k);
    if p[k].Key? {
      EscapeRoundTrip(p[k].key);
      EscapeRoundTrip(q[k].key);
    } else {
      DecimalIsInjective(p[k].index, q[k].index);
    }
  }

  // -- The two listings -----------------------------------------------------

  /** The members of a container in the order a listing visits them. */
  function Steps(j: Json, inOrder: bool): seq<Step> {
    match j
    case Array(items) => seq(|items|, i requires 0 <= i => Index(i))
    case Object(keys, _) =>
      var order := if inOrder then TextSort.Sort(keys) else keys;
      seq(|order|, i requires 0 <= i < |order| => Key(order[i]))
    case _ => []
  }

  lemma StepsAreTheMembers(j: Json, inOrder: bool)
    requires WellFormed(j)
    ensures forall s :: s in Steps(j, inOrder) <==> Has(j, s)
    ensures forall a, b :: 0 <= a < b < |Steps(j, inOrder)| ==> Steps(j, inOrder)[a] != Steps(j, inOrder)[b]
  {
    var steps := Steps(j, inOrder);
    if j.Object? {
      TextSort.SortKeepsDistinct(j.keys);
      var order := if inOrder then TextSort.Sort(j.keys) else j.keys;
      forall s ensures s in steps <==> Has(j, s) {
        if Has(j, s) {
          var i :| 0 <= i < |order| && order[i] == s.key;
          assert steps[i] == s;
        }
      }
    } else if j.Array? {
      forall s | Has(j, s) ensures s in steps {
        assert steps[s.index] == s;
      }
    }
  }

  /** `scalar_pointers` when `inOrder`, `_leaves` otherwise. */
  function Pointers(j: Json, pointer: string, inOrder: bool): seq<string>
    requires WellFormed(j)
    decreases j, 1, 0
  {
    StepsAreTheMembers(j, inOrder);
    if Scalar(j) then [pointer] else Under(j, Steps(j, inOrder), pointer, inOrder)
  }

  function Under(j: Json, steps: seq<Step>, pointer: string, inOrder: bool): seq<string>
    requires WellFormed(j) && forall s :: s in steps ==> Has(j, s)
    decreases j, 0, |steps|
  {
    if steps == [] then []
    else
      Pointers(Child(j, steps[0]), pointer + "/" + Token(steps[0]), inOrder)
      + Under(j, steps[1..], pointer, inOrder)
  }

  // -- Every leaf, and nothing else -----------------------------------------

  lemma SpellOneMore(pointer: string, step: Step, path: seq<Step>)
    ensures (pointer + "/" + Token(step)) + Spell(path) == pointer + Spell([step] + path)
  {
    assert ([step] + path)[1..] == path;
    assert pointer + ("/" + Token(step) + Spell(path)) == (pointer + "/" + Token(step)) + Spell(path);
  }

  lemma {:induction false} ListedIsALeaf(j: Json, pointer: string, inOrder: bool, x: string)
    returns (path: seq<Step>)
    requires WellFormed(j) && x in Pointers(j, pointer, inOrder)
    ensures IsLeaf(j, path) && x == pointer + Spell(path)
    decreases j, 1, 0
  {
    StepsAreTheMembers(j, inOrder);
    if Scalar(j) {
      path := [];
      assert pointer + [] == pointer;
    } else {
      path := ListedUnder(j, Steps(j, inOrder), pointer, inOrder, x);
    }
  }

  lemma {:induction false} ListedUnder(j: Json, steps: seq<Step>, pointer: string, inOrder: bool, x: string)
    returns (path: seq<Step>)
    requires WellFormed(j) && !Scalar(j)
    requires forall s :: s in steps ==> Has(j, s)
    requires x in Under(j, steps, pointer, inOrder)
    ensures path != [] && path[0] in steps && IsLeaf(j, path) && x == pointer + Spell(path)
    decreases j, 0, |steps|
  {
    var at := pointer + "/" + Token(steps[0]);
    if x in Pointers(Child(j, steps[0]), at, inOrder) {
      var rest := ListedIsALeaf(Child(j, steps[0]), at, inOrder, x);
      path := [steps[0]] + rest;
      SpellOneMore(pointer, steps[0], rest);
      assert path[1..] == rest;
    } else {
      path := ListedUnder(j, steps[1..], pointer, inOrder, x);
    }
  }

  lemma {:induction false} LeafIsListed(j: Json, pointer: string, inOrder: bool, path: seq<Step>)
    requires WellFormed(j) && IsLeaf(j, path)
    ensures pointer + Spell(path) in Pointers(j, pointer, inOrder)
    decreases |path|
  {
    StepsAreTheMembers(j, inOrder);
    if path == [] {
      assert pointer + [] == pointer;
    } else {
      var at := pointer + "/" + Token(path[0]);
      LeafIsListed(Child(j, path[0]), at, inOrder, path[1..]);
      assert path == [path[0]] + path[1..];
      SpellOneMore(pointer, path[0], path[1..]);
      UnderHolds(j, Steps(j, inOrder), pointer, inOrder, path[0], pointer + Spell(path));
    }
  }

  lemma {:induction false} UnderHolds(
    j: Json, steps: seq<Step>, pointer: string, inOrder: bool, step: Step, x: string)
    requires WellFormed(j) && (forall s :: s in steps ==> Has(j, s)) && step in steps
    requires x in Pointers(Child(j, step), pointer + "/" + Token(step), inOrder)
    ensures x in Under(j, steps, pointer, inOrder)
  {
    if step != steps[0] {
      UnderHolds(j, steps[1..], pointer, inOrder, step, x);
    }
  }

  /** A listing holds exactly the spellings of the scalar leaves. */
  lemma ListsExactlyTheLeaves(j: Json, pointer: string, inOrder: bool, x: string)
    requires WellFormed(j)
    ensures x in Pointers(j, pointer, inOrder) <==> exists path :: IsLeaf(j, path) && x == pointer + Spell(path)
  {
    if x in Pointers(j, pointer, inOrder) {
      var path := ListedIsALeaf(j, pointer, inOrder, x);
    }
    forall path | IsLeaf(j, path) && x == pointer + Spell(path)
      ensures x in Pointers(j, pointer, inOrder)
    {
      LeafIsListed(j, pointer, inOrder, path);
    }
  }

  lemma PointerSpellingIsUnique(j: Json, pointer: string, p: seq<Step>, q: seq<Step>)
    requires WellFormed(j) && Walk(j, p).Some? && Walk(j, q).Some? && pointer + Spell(p) == pointer + Spell(q)
    ensures p == q
  {
    assert Spell(p) == (pointer + Spell(p))[|pointer|..];
    assert Spell(q) == (pointer + Spell(q))[|pointer|..];
    SpellingIsUnique(j, p, q);
  }

  /** And holds each of them once. */
  lemma {:induction false} ListsEachLeafOnce(j: Json, pointer: string, inOrder: bool)
    requires WellFormed(j)
    ensures NoRepeat(Pointers(j, pointer, inOrder))
    decreases j, 1, 0
  {
    StepsAreTheMembers(j, inOrder);
    if !Scalar(j) {
      UnderListsOnce(j, Steps(j, inOrder), pointer, inOrder);
    }
  }

  lemma {:induction false} UnderListsOnce(j: Json, steps: seq<Step>, pointer: string, inOrder: bool)
    requires WellFormed(j) && !Scalar(j)
    requires forall s :: s in steps ==> Has(j, s)
    requires forall a, b :: 0 <= a < b < |steps| ==> steps[a] != steps[b]
    ensures NoRepeat(Under(j, steps, pointer, inOrder))
    decreases j, 0, |steps|
  {
    if steps != [] {
      var at := pointer + "/" + Token(steps[0]);
      var first := Pointers(Child(j, steps[0]), at, inOrder);
      var rest := Under(j, steps[1..], pointer, inOrder);
      ListsEachLeafOnce(Child(j, steps[0]), at, inOrder);
      UnderListsOnce(j, steps[1..], pointer, inOrder);
      forall x | x in first ensures x !in rest {
        if x in rest {
          var p := ListedIsALeaf(Child(j, steps[0]), at, inOrder, x);
          SpellOneMore(pointer, steps[0], p);
          var q := ListedUnder(j, steps[1..], pointer, inOrder, x);
          assert ([steps[0]] + p)[1..] == p;
          PointerSpellingIsUnique(j, pointer, [steps[0]] + p, q);
        }
      }
      NoRepeatConcat(first, rest);
    }
  }

  /** A row's pointer, evaluated on the whole document, gives back its own leaf. */
  lemma ListedPointersResolve(digits: Digits, document: Json, base: seq<Step>, inOrder: bool, x: string)
    returns (path: seq<Step>)
    requires Proper(digits) && WellFormed(document)
    requires Walk(document, base).Some? && WellFormed(Walk(document, base).value)
    requires x in Pointers(Walk(document, base).value, Spell(base), inOrder)
    ensures IsLeaf(Walk(document, base).value, path)
    ensures Resolve(digits, document, x) == Walk(Walk(document, base).value, path)
  {
    path := ListedIsALeaf(Walk(document, base).value, Spell(base), inOrder, x);
    WalkOn(document, base, path);
    SpellOn(base, path);
    SpelledPathResolves(digits, document, base + path);
  }

  lemma {:induction false} WalkOn(j: Json, p: seq<Step>, q: seq<Step>)
    requires WellFormed(j) && Walk(j, p).Some? && WellFormed(Walk(j, p).value)
    ensures Walk(j, p + q) == Walk(Walk(j, p).value, q)
    decreases |p|
  {
    if p == [] {
      assert p + q == q;
    } else {
      WalkOn(Child(j, p[0]), p[1..], q);
      assert (p + q)[1..] == p[1..] + q && (p + q)[0] == p[0];
    }
  }

  lemma {:induction false} SpellOn(p: seq<Step>, q: seq<Step>)
    ensures Spell(p + q) == Spell(p) + Spell(q)
  {
    if p == [] {
      assert p + q == q;
    } else {
      SpellOn(p[1..], q);
      SpellStep(p, []);
      SpellStep(p, q);
      ConcatIsAssociative("/" + Token(p[0]), Spell(p[1..]), Spell(q));
    }
  }

  lemma SpellStep(p: seq<Step>, q: seq<Step>)
    requires p != []
    ensures Spell(p + q) == "/" + Token(p[0]) + Spell(p[1..] + q)
    ensures p + [] == p && p[1..] + [] == p[1..]
  {
    assert (p + q)[1..] == p[1..] + q;
  }

  // -- Order ----------------------------------------------------------------

  /** The same document up to the order of object members. */
  ghost predicate Same(a: Json, b: Json)
    requires WellFormed(a) && WellFormed(b)
    decreases a
  {
    match a
    case Array(items) =>
      b.Array? && |b.items| == |items| && forall s :: Has(a, s) && Has(b, s) ==> Same(Child(a, s), Child(b, s))
    case Object(keys, _) =>
      && b.Object? && multiset(b.keys) == multiset(keys)
      && forall s :: Has(a, s) && Has(b, s) ==> Same(Child(a, s), Child(b, s))
    case _ => a == b
  }

  /** Documents that are the same have the same paths, to the same values. */
  lemma {:induction false} SameWalk(a: Json, b: Json, path: seq<Step>)
    requires WellFormed(a) && WellFormed(b) && Same(a, b)
    ensures Walk(a, path).Some? <==> Walk(b, path).Some?
    ensures Walk(a, path).Some? ==>
              && WellFormed(Walk(a, path).value) && WellFormed(Walk(b, path).value)
              && Same(Walk(a, path).value, Walk(b, path).value)
    decreases |path|
  {
    if path != [] {
      assert Has(a, path[0]) <==> Has(b, path[0]) by {
        if a.Object? && b.Object? && path[0].Key? {
          assert path[0].key in multiset(a.keys) <==> path[0].key in multiset(b.keys);
        }
      }
      if Has(a, path[0]) {
        SameWalk(Child(a, path[0]), Child(b, path[0]), path[1..]);
      }
    }
  }

  /** The sorted listing does not see member order, so row ordinals survive a sorted replay. */
  lemma {:induction false} SortedListingIgnoresMemberOrder(a: Json, b: Json, pointer: string)
    requires WellFormed(a) && WellFormed(b) && Same(a, b)
    ensures Pointers(a, pointer, true) == Pointers(b, pointer, true)
    decreases a, 1, 0
  {
    StepsAreTheMembers(a, true);
    StepsAreTheMembers(b, true);
    if !Scalar(a) {
      if a.Object? {
        TextSort.SortForgetsOrder(a.keys, b.keys);
      }
      assert Steps(a, true) == Steps(b, true);
      UnderIgnoresMemberOrder(a, b, Steps(a, true), pointer);
    }
  }

  lemma {:induction false} UnderIgnoresMemberOrder(a: Json, b: Json, steps: seq<Step>, pointer: string)
    requires WellFormed(a) && WellFormed(b) && !Scalar(a) && Same(a, b)
    requires forall s :: s in steps ==> Has(a, s) && Has(b, s)
    ensures Under(a, steps, pointer, true) == Under(b, steps, pointer, true)
    decreases a, 0, |steps|
  {
    if steps != [] {
      SortedListingIgnoresMemberOrder(
        Child(a, steps[0]), Child(b, steps[0]), pointer + "/" + Token(steps[0]));
      UnderIgnoresMemberOrder(a, b, steps[1..], pointer);
    }
  }

  /** The insertion-ordered listing holds the same pointers, possibly in another order. */
  lemma ListingsArePermutations(j: Json, pointer: string)
    requires WellFormed(j)
    ensures multiset(Pointers(j, pointer, true)) == multiset(Pointers(j, pointer, false))
  {
    ListsEachLeafOnce(j, pointer, true);
    ListsEachLeafOnce(j, pointer, false);
    forall x ensures x in Pointers(j, pointer, true) <==> x in Pointers(j, pointer, false) {
      ListsExactlyTheLeaves(j, pointer, true, x);
      ListsExactlyTheLeaves(j, pointer, false, x);
    }
    NoRepeatPermutation(Pointers(j, pointer, true), Pointers(j, pointer, false));
  }

  /** And it does see member order: a sorted replay of `{"b": null, "a": null}` renumbers its rows. */
  lemma InsertionOrderIsVisible()
    ensures var a, b := TwoNulls("b", "a"), TwoNulls("a", "b");
            && WellFormed(a) && WellFormed(b) && Same(a, b)
            && Pointers(a, "", false) == ["/b", "/a"] && Pointers(b, "", false) == ["/a", "/b"]
  {
    assert "/" + EscapeToken("a") == "/a" by { LetterToken("a"); }
    assert "/" + EscapeToken("b") == "/b" by { LetterToken("b"); }
    TwoNullsListed("b", "a");
    TwoNullsListed("a", "b");
    TwoNullsAreTheSame("b", "a");
  }

  function TwoNulls(first: string, second: string): Json {
    Object([first, second], [Null, Null])
  }

  lemma LetterToken(letter: string)
    requires |letter| == 1 && letter[0] !in "~/"
    ensures EscapeToken(letter) == letter
  {
    EscapeIsPerCharacter(letter);
    assert letter[1..] == "" && letter == [letter[0]];
  }

  lemma TwoNullsAreTheSame(first: string, second: string)
    requires first != second
    requires WellFormed(TwoNulls(first, second)) && WellFormed(TwoNulls(second, first))
    ensures Same(TwoNulls(first, second), TwoNulls(second, first))
  {
    var a, b := TwoNulls(first, second), TwoNulls(second, first);
    assert multiset(a.keys) == multiset{first, second} && multiset(b.keys) == multiset{first, second};
    forall s | Has(a, s) && Has(b, s) ensures Same(Child(a, s), Child(b, s)) {
      assert Child(a, s) == Null && Child(b, s) == Null;
    }
  }

  lemma TwoNullsListed(first: string, second: string)
    requires first != second
    ensures var j := TwoNulls(first, second);
            WellFormed(j) && Pointers(j, "", false) == ["/" + EscapeToken(first), "/" + EscapeToken(second)]
  {
    var j := TwoNulls(first, second);
    assert forall k :: 0 <= k < 2 ==> WellFormed(Children(j)[k]);
    StepsAreTheMembers(j, false);
    var steps := Steps(j, false);
    assert steps == [Key(first), Key(second)];
    assert Pointers(j, "", false) == Under(j, steps, "", false);
    NullUnder(j, steps);
    NullUnder(j, steps[1..]);
    assert steps[1..][1..] == [];
    assert Under(j, [], "", false) == [];
  }

  lemma NullUnder(j: Json, steps: seq<Step>)
    requires WellFormed(j) && steps != [] && forall s :: s in steps ==> Has(j, s)
    requires Child(j, steps[0]) == Null
    ensures Under(j, steps, "", false) == ["/" + Token(steps[0])] + Under(j, steps[1..], "", false)
  {
    assert "" + "/" + Token(steps[0]) == "/" + Token(steps[0]);
  }
}
