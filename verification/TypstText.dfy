/**
 Values on their way into Typst source: the two escapers against the readers of the contexts they
 are for, and the one-pass placeholder substitution that carries the escaped value there.
 */
module TypstText {
  import opened Wrappers
  import opened TextReplace

  const MARKUP_TOKENS: string := "#{}[]$@*_`<>=-+/~"

  // -- Markup context -------------------------------------------------------

  /** A backslash before each character of `special`, nothing else changed. */
  function Guard(special: string): char -> string {
    x => if x in special then ['\\', x] else [x]
  }

  const MARKUP_SPECIAL: string := "\\" + MARKUP_TOKENS

  /** What the escaped text should be, in one pass. */
  function MarkupText(value: string): string {
    MapChars(value, Guard(MARKUP_SPECIAL))
  }

  lemma GuardOneMore(special: string, token: char)
    requires '\\' in special && token !in special
    ensures forall x :: ReplaceChar(Guard(special)(x), token, ['\\', token]) == Guard(special + [token])(x)
  {
    forall x: char
      ensures ReplaceChar(Guard(special)(x), token, ['\\', token]) == Guard(special + [token])(x)
    {
      if x in special {
        assert ['\\', x][1..] == [x] && [x][1..] == [];
        assert ReplaceChar([x], token, ['\\', token]) == [x];
      } else {
        assert [x][1..] == [];
      }
    }
  }

  lemma TokensAreDistinct(i: nat)
    requires i < |MARKUP_TOKENS|
    ensures MARKUP_TOKENS[i] !in "\\" + MARKUP_TOKENS[..i]
  {
    var t := MARKUP_TOKENS;
    assert t == ['#', '{', '}', '[', ']', '$', '@', '*', '_', '`', '<', '>', '=', '-', '+', '/', '~'];
    assert forall j :: 0 <= j < i ==> t[j] != t[i];
    assert t[i] != '\\';
    assert forall c :: c in t[..i] ==> exists j :: 0 <= j < i && t[j] == c;
  }

  /** `escape_typst_text`: one whole-text replacement per token, backslash first. */
  method EscapeTypstText(value: string) returns (escaped: string)
    ensures escaped == MarkupText(value)
    ensures ReadMarkup(escaped, Start).Some?
    ensures var marks := ReadMarkup(escaped, Start).value.marks;
            && |marks| == |value|
            && forall k :: 0 <= k < |value| ==> marks[k] == Mark(value[k], OwnLive(value, k))
  {
    escaped := ReplaceChar(value, '\\', "\\\\");
    BackslashFirst(value);
    assert MARKUP_TOKENS[..0] == [] && "\\" + MARKUP_TOKENS[..0] == "\\";
    for k := 0 to |MARKUP_TOKENS|
      invariant escaped == MapChars(value, Guard("\\" + MARKUP_TOKENS[..k]))
    {
      var token := MARKUP_TOKENS[k];
      TokensAreDistinct(k);
      assert ("\\" + MARKUP_TOKENS[..k])[0] == '\\';
      GuardOneMore("\\" + MARKUP_TOKENS[..k], token);
      assert "\\" + MARKUP_TOKENS[..k] + [token] == "\\" + MARKUP_TOKENS[..k + 1];
      ReplaceAfterMap(value, Guard("\\" + MARKUP_TOKENS[..k]), token, ['\\', token],
                      Guard("\\" + MARKUP_TOKENS[..k + 1]));
      escaped := ReplaceChar(escaped, token, ['\\', token]);
    }
    assert MARKUP_TOKENS[..|MARKUP_TOKENS|] == MARKUP_TOKENS;
    MarkupReadsBack(value, Start);
    MarksAreTheValues(value);
  }

  lemma {:induction false} BackslashFirst(value: string)
    ensures ReplaceChar(value, '\\', "\\\\") == MapChars(value, Guard("\\"))
  {
    if value != [] {
      BackslashFirst(value[1..]);
    }
  }

  /** Where on its line a reader of markup stands: before any text, in a number opening it, or past that. */
  datatype Place = Start | Numeral | Within

  /** One character read, and whether it is live: drawn as something other than itself. */
  datatype Mark = Mark(c: char, live: bool)

  datatype Reading = Reading(marks: seq<Mark>, place: Place)

  predicate Break(c: char) {
    c == '\n' || c == '\r'
  }

  predicate Blank(c: char) {
    c == ' ' || c == '\t'
  }

  predicate Figure(c: char) {
    '0' <= c <= '9'
  }

  predicate Quote(c: char) {
    c == '\'' || c == '"'
  }

  function After(place: Place, c: char): Place {
    if Break(c) then Start
    else if place == Start && Blank(c) then Start
    else if place != Within && Figure(c) then Numeral
    else Within
  }

  /** Quotes turn typographic anywhere; a full stop behind a line's opening number makes an enumeration item. */
  predicate Live(place: Place, c: char) {
    Quote(c) || (c == '.' && place == Numeral)
  }

  /**
   What a reader of markup sees from a place on: an escaped special character is itself; a bare one
   introduces code, groups, math or other structure, which is no reading of a value at all; quotes
   and enumerating full stops are read, and are live.
   */
  function ReadMarkup(s: string, place: Place): Option<Reading> {
    if s == [] then Some(Reading([], place))
    else if s[0] == '\\' then
      if |s| >= 2 && s[1] in MARKUP_SPECIAL
      then Prepend([Mark(s[1], false)], ReadMarkup(s[2..], Within))
      else None
    else if s[0] in MARKUP_TOKENS then None
    else Prepend([Mark(s[0], Live(place, s[0]))], ReadMarkup(s[1..], After(place, s[0])))
  }

  function Prepend(marks: seq<Mark>, r: Option<Reading>): Option<Reading> {
    if r.Some? then Some(Reading(marks + r.value.marks, r.value.place)) else None
  }

  /** The characters read. */
  function Shown(marks: seq<Mark>): string {
    seq(|marks|, k requires 0 <= k < |marks| => marks[k].c)
  }

  // What the value itself says is live, looking back from each of its characters.

  /** Only blanks since the last line break. */
  predicate OpensALine(value: string, k: nat)
    requires k <= |value|
  {
    k == 0 || Break(value[k - 1]) || (Blank(value[k - 1]) && OpensALine(value, k - 1))
  }

  /** Behind a number that opens its line. */
  predicate BehindANumber(value: string, k: nat)
    requires k <= |value|
  {
    k > 0 && Figure(value[k - 1]) && (OpensALine(value, k - 1) || BehindANumber(value, k - 1))
  }

  predicate Enumerates(value: string, k: nat)
    requires k < |value|
  {
    value[k] == '.' && BehindANumber(value, k)
  }

  /** The value's own quotes and enumerating full stops. */
  predicate OwnLive(value: string, k: nat)
    requires k < |value|
  {
    Quote(value[k]) || Enumerates(value, k)
  }

  function Marks(value: string, place: Place): seq<Mark> {
    if value == [] then [] else [Mark(value[0], Live(place, value[0]))] + Marks(value[1..], After(place, value[0]))
  }

  function PlaceAfter(place: Place, value: string): Place
    decreases |value|
  {
    if value == [] then place else PlaceAfter(After(place, value[0]), value[1..])
  }

  /** The place reached by a prefix, looked back at. */
  lemma {:induction false} PlaceLooksBack(value: string, k: nat)
    requires k <= |value|
    ensures PlaceAfter(Start, value[..k]) == Start <==> OpensALine(value, k)
    ensures PlaceAfter(Start, value[..k]) == Numeral <==> BehindANumber(value, k)
  {
    if k > 0 {
      PlaceLooksBack(value, k - 1);
      assert value[..k] == value[..k - 1] + [value[k - 1]];
      PlaceOneMore(Start, value[..k - 1], value[k - 1]);
    }
  }

  lemma {:induction false} PlaceOneMore(place: Place, value: string, c: char)
    ensures PlaceAfter(place, value + [c]) == After(PlaceAfter(place, value), c)
    decreases |value|
  {
    if value == [] {
      assert value + [c] == [c] && [c][1..] == [];
    } else {
      assert (value + [c])[1..] == value[1..] + [c];
      PlaceOneMore(After(place, value[0]), value[1..], c);
    }
  }

  lemma {:induction false} MarkAt(value: string, place: Place, k: nat)
    requires k < |value|
    ensures |Marks(value, place)| == |value|
    ensures Marks(value, place)[k] == Mark(value[k], Live(PlaceAfter(place, value[..k]), value[k]))
  {
    if k > 0 {
      MarkAt(value[1..], After(place, value[0]), k - 1);
      assert value[..k][1..] == value[1..][..k - 1];
    } else if |value| > 1 {
      MarkAt(value[1..], After(place, value[0]), 0);
    }
  }

  /** From the start of a line, exactly the value's own quotes and enumerating full stops are live. */
  lemma MarksAreTheValues(value: string)
    ensures |Marks(value, Start)| == |value|
    ensures forall k :: 0 <= k < |value| ==> Marks(value, Start)[k] == Mark(value[k], OwnLive(value, k))
  {
    forall k: nat | k < |value|
      ensures |Marks(value, Start)| == |value| && Marks(value, Start)[k] == Mark(value[k], OwnLive(value, k))
    {
      MarkAt(value, Start, k);
      PlaceLooksBack(value, k);
    }
  }

  /** One escaped character is read as itself. */
  lemma GuardedReads(c: char, rest: string, place: Place)
    ensures ReadMarkup(Guard(MARKUP_SPECIAL)(c) + rest, place)
            == Prepend([Mark(c, Live(place, c))], ReadMarkup(rest, After(place, c)))
  {
    var s := Guard(MARKUP_SPECIAL)(c) + rest;
    SpecialsAreInert(c, place);
    if c in MARKUP_SPECIAL {
      assert s == ['\\', c] + rest && s[2..] == rest;
    } else {
      assert MARKUP_SPECIAL[0] == '\\';
      assert c in MARKUP_TOKENS ==> c in MARKUP_SPECIAL;
      assert s == [c] + rest && s[1..] == rest;
    }
  }

  lemma SpecialsAreInert(c: char, place: Place)
    ensures c in MARKUP_SPECIAL ==> !Live(place, c) && After(place, c) == Within
  {
    if c in MARKUP_SPECIAL {
      assert MARKUP_SPECIAL
             == ['\\', '#', '{', '}', '[', ']', '$', '@', '*', '_', '`', '<', '>', '=', '-', '+', '/', '~'];
      assert !Break(c) && !Blank(c) && !Figure(c) && !Quote(c) && c != '.';
    }
  }

  lemma {:induction false} MarkupReadsBack(value: string, place: Place)
    ensures ReadMarkup(MarkupText(value), place) == Some(Reading(Marks(value, place), PlaceAfter(place, value)))
  {
    if value != [] {
      GuardedReads(value[0], MarkupText(value[1..]), place);
      MarkupReadsBack(value[1..], After(place, value[0]));
    }
  }

  /** And only the escaped text reads as the value: no token is left bare, none is escaped for no reason. */
  lemma {:induction false} MarkupIsTheOnlySpelling(s: string, place: Place, value: string)
    requires ReadMarkup(s, place).Some? && Shown(ReadMarkup(s, place).value.marks) == value
    ensures s == MarkupText(value)
  {
    if s != [] {
      var n, next := if s[0] == '\\' then 2 else 1, if s[0] == '\\' then Within else After(place, s[0]);
      var rest := ReadMarkup(s[n..], next).value.marks;
      var first := ReadMarkup(s, place).value.marks[0];
      assert value == [first.c] + Shown(rest);
      MarkupIsTheOnlySpelling(s[n..], next, Shown(rest));
      assert value[1..] == Shown(rest);
      if s[0] == '\\' {
        assert s == ['\\', s[1]] + s[2..];
      } else {
        assert s[0] !in MARKUP_SPECIAL;
        assert s == [s[0]] + s[1..];
      }
    } else {
      assert value == [];
    }
  }

  /** Nothing of an escaped value is live if and only if it holds no quote and opens no line with `3.` */
  lemma NothingLiveIff(value: string)
    ensures (forall k :: 0 <= k < |Marks(value, Start)| ==> !Marks(value, Start)[k].live)
            <==> forall k :: 0 <= k < |value| ==> !Quote(value[k]) && !Enumerates(value, k)
  {
    MarksAreTheValues(value);
    assert forall k :: 0 <= k < |value| ==> (Marks(value, Start)[k].live <==> OwnLive(value, k));
  }

  /** Two values the escaper leaves something live in, as it says it does. */
  lemma SomethingStaysLive()
    ensures MarkupText("it's") == "it's" && OwnLive("it's", 2)
    ensures MarkupText("3. x") == "3. x" && OwnLive("3. x", 1)
  {
    LettersAreInert("it's");
    PlainIsItself("it's");
    LettersAreInert("3. x");
    PlainIsItself("3. x");
    assert OpensALine("3. x", 0);
  }

  lemma LettersAreInert(value: string)
    requires forall k :: 0 <= k < |value| ==>
               'a' <= value[k] <= 'z' || Figure(value[k]) || Quote(value[k]) || value[k] == '.' || value[k] == ' '
    ensures forall c :: c in value ==> c !in MARKUP_SPECIAL
  {
  }

  lemma {:induction false} PlainIsItself(value: string)
    requires forall c :: c in value ==> c !in MARKUP_SPECIAL
    ensures MarkupText(value) == value
  {
    if value != [] {
      assert value == [value[0]] + value[1..];
      PlainIsItself(value[1..]);
    }
  }

  // -- String-literal context -----------------------------------------------

  function LiteralChar(c: char): string {
    if c == '\\' then "\\\\"
    else if c == '"' then "\\\""
    else if c == '\n' then "\\n"
    else if c == '\r' then "\\r"
    else if c == '\t' then "\\t"
    else [c]
  }

  function LiteralText(value: string): string {
    MapChars(value, LiteralChar)
  }

  /** `escape_typst_string`: five whole-text replacements in this order. */
  function EscapeTypstString(value: string): string {
    var escaped := ReplaceChar(ReplaceChar(value, '\\', "\\\\"), '"', "\\\"");
    ReplaceChar(ReplaceChar(ReplaceChar(escaped, '\n', "\\n"), '\r', "\\r"), '\t', "\\t")
  }

  /** Because no replacement writes a character a later one looks for, the order is harmless. */
  lemma {:induction false} SequentialIsPerCharacter(value: string)
    ensures EscapeTypstString(value) == LiteralText(value)
  {
    if value != [] {
      var c, rest := value[0], value[1..];
      assert value == [c] + rest;
      EscapeAppends([c], rest);
      SequentialIsPerCharacter(rest);
      OneCharacter(c);
    }
  }

  lemma EscapeAppends(s: string, t: string)
    ensures EscapeTypstString(s + t) == EscapeTypstString(s) + EscapeTypstString(t)
  {
    ReplaceCharAppends(s, t, '\\', "\\\\");
    var s1, t1 := ReplaceChar(s, '\\', "\\\\"), ReplaceChar(t, '\\', "\\\\");
    ReplaceCharAppends(s1, t1, '"', "\\\"");
    var s2, t2 := ReplaceChar(s1, '"', "\\\""), ReplaceChar(t1, '"', "\\\"");
    ReplaceCharAppends(s2, t2, '\n', "\\n");
    var s3, t3 := ReplaceChar(s2, '\n', "\\n"), ReplaceChar(t2, '\n', "\\n");
    ReplaceCharAppends(s3, t3, '\r', "\\r");
    ReplaceCharAppends(ReplaceChar(s3, '\r', "\\r"), ReplaceChar(t3, '\r', "\\r"), '\t', "\\t");
  }

  lemma ReplaceInOne(c: char, x: char, sub: string)
    ensures ReplaceChar([c], x, sub) == if c == x then sub else [c]
  {
    assert [c][1..] == [];
  }

  lemma ReplaceInTwo(a: char, b: char, x: char, sub: string)
    requires a != x && b != x
    ensures ReplaceChar([a, b], x, sub) == [a, b]
  {
    assert [a, b][1..] == [b];
    ReplaceInOne(b, x, sub);
  }

  lemma OneCharacter(c: char)
    ensures EscapeTypstString([c]) == LiteralChar(c)
  {
    ReplaceInOne(c, '\\', "\\\\");
    ReplaceInOne(c, '"', "\\\"");
    ReplaceInOne(c, '\n', "\\n");
    ReplaceInOne(c, '\r', "\\r");
    ReplaceInOne(c, '\t', "\\t");
    ReplaceInTwo('\\', '\\', '"', "\\\"");
    forall b | b == '\\' || b == '"' || b == 'n' || b == 'r'
      ensures ReplaceChar(['\\', b], '\n', "\\n") == ['\\', b]
      ensures ReplaceChar(['\\', b], '\r', "\\r") == ['\\', b]
      ensures ReplaceChar(['\\', b], '\t', "\\t") == ['\\', b]
    {
      ReplaceInTwo('\\', b, '\n', "\\n");
      ReplaceInTwo('\\', b, '\r', "\\r");
      ReplaceInTwo('\\', b, '\t', "\\t");
    }
  }

  /** What the escape letter after a backslash stands for. */
  function Unescaped(c: char): Option<char> {
    if c == '\\' || c == '"' then Some(c)
    else if c == 'n' then Some('\n')
    else if c == 'r' then Some('\r')
    else if c == 't' then Some('\t')
    else None
  }

  /** Reading a literal after its opening quote: its value, and the source after its closing quote. */
  function ReadLiteral(s: string): Option<(string, string)> {
    if s == [] then None
    else if s[0] == '"' then Some(([], s[1..]))
    else if s[0] == '\\' then
      if |s| < 2 || Unescaped(s[1]).None? then None
      else
        match ReadLiteral(s[2..])
        case Some((v, rest)) => Some(([Unescaped(s[1]).value] + v, rest))
        case None => None
    else
      match ReadLiteral(s[1..])
      case Some((v, rest)) => Some(([s[0]] + v, rest))
      case None => None
  }

  /** The literal ends where it was meant to and holds what it was meant to, whatever the value. */
  lemma {:induction false} LiteralReadsBack(value: string, after: string)
    ensures ReadLiteral(EscapeTypstString(value) + "\"" + after) == Some((value, after))
  {
    SequentialIsPerCharacter(value);
    if value == [] {
      assert EscapeTypstString(value) + "\"" + after == "\"" + after;
      assert ("\"" + after)[1..] == after;
    } else {
      var c, rest := value[0], EscapeTypstString(value[1..]) + "\"" + after;
      LiteralReadsBack(value[1..], after);
      SequentialIsPerCharacter(value[1..]);
      var s := EscapeTypstString(value) + "\"" + after;
      assert value == [c] + value[1..];
      assert s == LiteralChar(c) + rest;
      if |LiteralChar(c)| == 2 {
        assert s[2..] == rest && s[0] == LiteralChar(c)[0] && s[1] == LiteralChar(c)[1];
      } else {
        assert s[1..] == rest && s[0] == c;
      }
    }
  }

  /** The emitted argument stays on one line. */
  lemma {:induction false} LiteralIsOneLine(value: string, k: nat)
    requires k < |EscapeTypstString(value)|
    ensures EscapeTypstString(value)[k] !in "\n\r\t"
  {
    SequentialIsPerCharacter(value);
    if value != [] {
      SequentialIsPerCharacter(value[1..]);
      if k >= |LiteralChar(value[0])| {
        LiteralIsOneLine(value[1..], k - |LiteralChar(value[0])|);
      }
    }
  }

  // -- Substitution ---------------------------------------------------------

  predicate IsName(s: string) {
    && s != [] && 'A' <= s[0] <= 'Z'
    && forall k :: 0 <= k < |s| ==> NameChar(s[k])
  }

  predicate NameChar(c: char) {
    'A' <= c <= 'Z' || '0' <= c <= '9' || c == '_'
  }

  function NameLength(s: string): (n: nat)
    ensures n <= |s|
    ensures forall k :: 0 <= k < n ==> NameChar(s[k])
    ensures n < |s| ==> !NameChar(s[n])
  {
    if s == [] || !NameChar(s[0]) then 0 else 1 + NameLength(s[1..])
  }

  function Hole(name: string): string {
    "${" + name + "}"
  }

  /** The placeholder the pattern matches at the start of `s`, if any. */
  function HoleAt(s: string): Option<string> {
    if |s| < 4 || s[0] != '$' || s[1] != '{' || !('A' <= s[2] <= 'Z') then None
    else
      var n := NameLength(s[2..]);
      if n + 2 < |s| && s[n + 2] == '}' then Some(s[2..n + 2]) else None
  }

  lemma {:induction false} NameEndsAt(s: string, n: nat)
    requires n < |s| && !NameChar(s[n])
    requires forall k :: 0 <= k < n ==> NameChar(s[k])
    ensures NameLength(s) == n
  {
    if n > 0 {
      NameEndsAt(s[1..], n - 1);
    }
  }

  lemma PrefixIsTheHole(name: string, after: string)
    requires IsName(name)
    ensures HoleAt(Hole(name) + after) == Some(name)
  {
    var s := Hole(name) + after;
    assert s[2..] == name + (['}'] + after);
    NameEndsAt(s[2..], |name|);
    assert s[2..|name| + 2] == name;
  }

  function Value(replacements: map<string, string>, name: string): string {
    if name in replacements then replacements[name] else Hole(name)
  }

  /** `_substitute`: left to right, each match replaced once, its replacement never looked at again. */
  function Substitute(text: string, replacements: map<string, string>): string
    decreases |text|
  {
    if text == [] then []
    else
      match HoleAt(text)
      case Some(name) => Value(replacements, name) + Substitute(text[|name| + 3..], replacements)
      case None => [text[0]] + Substitute(text[1..], replacements)
  }

  lemma SubstituteHole(name: string, after: string, replacements: map<string, string>)
    requires IsName(name)
    ensures Substitute(Hole(name) + after, replacements) == Value(replacements, name) + Substitute(after, replacements)
  {
    PrefixIsTheHole(name, after);
    assert (Hole(name) + after)[|name| + 3..] == after;
  }

  lemma SubstituteCharacter(s: string, replacements: map<string, string>)
    requires s != [] && HoleAt(s).None?
    ensures Substitute(s, replacements) == [s[0]] + Substitute(s[1..], replacements)
  {
  }

  /** No placeholder straddles the start of another. */
  lemma HolesDoNotStraddle(before: string, tail: string)
    requires before != [] && HoleAt(tail).Some?
    ensures HoleAt(before + tail) == HoleAt(before)
  {
    var s := before + tail;
    assert s[|before|] == '$';
    if HoleAt(s).Some? {
      var n := HoleAt(s).value;
      // A placeholder has its only dollar in front.
      assert forall k :: 0 < k < |n| + 3 ==> s[k] != '$';
      assert |Hole(n)| == |n| + 3 <= |before|;
      assert before == Hole(n) + before[|n| + 3..];
      PrefixIsTheHole(n, before[|n| + 3..]);
    } else if HoleAt(before).Some? {
      var n := HoleAt(before).value;
      assert before == Hole(n) + before[|n| + 3..];
      assert s == Hole(n) + (before[|n| + 3..] + tail);
      PrefixIsTheHole(n, before[|n| + 3..] + tail);
    }
  }

  /** So what stands before a placeholder is substituted as if it ended there. */
  lemma {:induction false} SubstituteSplits(before: string, tail: string, replacements: map<string, string>)
    requires HoleAt(tail).Some?
    ensures Substitute(before + tail, replacements) == Substitute(before, replacements) + Substitute(tail, replacements)
    decreases |before|
  {
    if before == [] {
      assert before + tail == tail;
    } else {
      HolesDoNotStraddle(before, tail);
      var n := Taken(before);
      SubstituteSplits(before[n..], tail, replacements);
      SplitsOnce(before, tail, n, replacements);
    }
  }

  /** How much of the text the first step of the substitution consumes. */
  function Taken(text: string): (n: nat)
    requires text != []
    ensures 0 < n <= |text|
  {
    match HoleAt(text)
    case Some(name) => |name| + 3
    case None => 1
  }

  /** And what it writes. */
  function Written(hole: Option<string>, first: char, replacements: map<string, string>): string {
    if hole.Some? then Value(replacements, hole.value) else [first]
  }

  lemma SplitsOnce(before: string, tail: string, n: nat, replacements: map<string, string>)
    requires before != [] && HoleAt(before + tail) == HoleAt(before) && n == Taken(before)
    requires Substitute(before[n..] + tail, replacements)
             == Substitute(before[n..], replacements) + Substitute(tail, replacements)
    ensures Substitute(before + tail, replacements) == Substitute(before, replacements) + Substitute(tail, replacements)
  {
    DropFromFirst(before, tail, n);
    ConcatIsAssociative(Written(HoleAt(before), before[0], replacements),
                        Substitute(before[n..], replacements), Substitute(tail, replacements));
  }

  lemma DropFromFirst(s: string, t: string, n: nat)
    requires 0 < n <= |s|
    ensures (s + t)[n..] == s[n..] + t && (s + t)[0] == s[0]
  {
  }

  /**
   Substitution is local: whatever surrounds a placeholder, its replacement appears verbatim
   between the substituted surroundings. A value that itself spells a placeholder is not expanded,
   and a name without a value stays as it stands.
   */
  lemma ValuesAreNeverRescanned(before: string, name: string, after: string, replacements: map<string, string>)
    requires IsName(name)
    ensures Substitute(before + (Hole(name) + after), replacements)
            == Substitute(before, replacements) + (Value(replacements, name) + Substitute(after, replacements))
  {
    PrefixIsTheHole(name, after);
    SubstituteSplits(before, Hole(name) + after, replacements);
    SubstituteHole(name, after, replacements);
  }

  /** With nothing to supply, the template comes out as it went in. */
  lemma {:induction false} NothingSuppliedNothingChanged(text: string)
    ensures Substitute(text, map[]) == text
    decreases |text|
  {
    if text != [] {
      match HoleAt(text) {
        case Some(n) =>
          assert text == Hole(n) + text[|n| + 3..];
          NothingSuppliedNothingChanged(text[|n| + 3..]);
        case None =>
          NothingSuppliedNothingChanged(text[1..]);
      }
    }
  }

  /**
   End to end: a value escaped for a literal and carried into a quoted placeholder is read back by
   Typst as exactly that value, ending at the template's own closing quote.
   */
  lemma QuotedValueSurvives(
    before: string, name: string, after: string, replacements: map<string, string>, value: string)
    requires IsName(name) && name in replacements && replacements[name] == EscapeTypstString(value)
    ensures var page := Substitute(before + (Hole(name) + ("\"" + after)), replacements);
            var lead := Substitute(before, replacements);
            && lead <= page
            && ReadLiteral(page[|lead|..]) == Some((value, Substitute(after, replacements)))
  {
    var lead, tail := Substitute(before, replacements), Substitute(after, replacements);
    var page := Substitute(before + (Hole(name) + ("\"" + after)), replacements);
    ValuesAreNeverRescanned(before, name, "\"" + after, replacements);
    assert Substitute("\"" + after, replacements) == "\"" + tail by {
      assert ("\"" + after)[1..] == after;
      SubstituteCharacter("\"" + after, replacements);
    }
    var spelled := EscapeTypstString(value) + ("\"" + tail);
    assert page == lead + spelled;
    assert spelled == EscapeTypstString(value) + "\"" + tail;
    LiteralReadsBack(value, tail);
    assert page[|lead|..] == spelled;
  }

  // -- Markup carried to the page -------------------------------------------

  lemma PrependTwice(a: seq<Mark>, b: seq<Mark>, r: Option<Reading>)
    ensures Prepend(a, Prepend(b, r)) == Prepend(a + b, r)
  {
    if r.Some? {
      assert a + (b + r.value.marks) == a + b + r.value.marks;
    }
  }

  /** A text with a reading is read first, and what follows it from where it ended. */
  lemma {:induction false} ReadingSplits(s: string, tail: string, place: Place)
    requires ReadMarkup(s, place).Some?
    ensures var first := ReadMarkup(s, place).value;
            ReadMarkup(s + tail, place) == Prepend(first.marks, ReadMarkup(tail, first.place))
  {
    if s == [] {
      assert s + tail == tail;
      NothingBefore(ReadMarkup(tail, place));
    } else if s[0] == '\\' {
      assert (s + tail)[2..] == s[2..] + tail;
      ReadingSplits(s[2..], tail, Within);
      var rest := ReadMarkup(s[2..], Within).value;
      PrependTwice([Mark(s[1], false)], rest.marks, ReadMarkup(tail, rest.place));
    } else {
      assert (s + tail)[1..] == s[1..] + tail;
      ReadingSplits(s[1..], tail, After(place, s[0]));
      var rest := ReadMarkup(s[1..], After(place, s[0])).value;
      PrependTwice([Mark(s[0], Live(place, s[0]))], rest.marks, ReadMarkup(tail, rest.place));
    }
  }

  lemma NothingBefore(r: Option<Reading>)
    ensures Prepend([], r) == r
  {
    if r.Some? {
      assert [] + r.value.marks == r.value.marks;
    }
  }

  /**
   End to end in markup: a value escaped for markup and carried into a placeholder is read, wherever
   the reader stands, as exactly its own characters, and what follows it from where it ended. When the
   page before it has a reading, the whole page reads as that, the value and the rest.
   */
  lemma MarkupValueSurvives(
    before: string, name: string, after: string, replacements: map<string, string>, value: string, place: Place)
    requires IsName(name) && name in replacements && replacements[name] == MarkupText(value)
    ensures var page := Substitute(before + (Hole(name) + after), replacements);
            var lead, tail := Substitute(before, replacements), Substitute(after, replacements);
            && lead <= page
            && ReadMarkup(page[|lead|..], place)
               == Prepend(Marks(value, place), ReadMarkup(tail, PlaceAfter(place, value)))
            && (ReadMarkup(lead, Start).Some? ==>
                  var first := ReadMarkup(lead, Start).value;
                  ReadMarkup(page, Start)
                  == Prepend(first.marks + Marks(value, first.place),
                             ReadMarkup(tail, PlaceAfter(first.place, value))))
  {
    var lead, tail := Substitute(before, replacements), Substitute(after, replacements);
    var page := Substitute(before + (Hole(name) + after), replacements);
    ValuesAreNeverRescanned(before, name, after, replacements);
    assert page == lead + (MarkupText(value) + tail);
    assert page[|lead|..] == MarkupText(value) + tail;
    ValueThenTail(value, tail, place);
    if ReadMarkup(lead, Start).Some? {
      var first := ReadMarkup(lead, Start).value;
      ReadingSplits(lead, MarkupText(value) + tail, Start);
      ValueThenTail(value, tail, first.place);
      PrependTwice(first.marks, Marks(value, first.place), ReadMarkup(tail, PlaceAfter(first.place, value)));
    }
  }

  lemma ValueThenTail(value: string, tail: string, place: Place)
    ensures ReadMarkup(MarkupText(value) + tail, place)
            == Prepend(Marks(value, place), ReadMarkup(tail, PlaceAfter(place, value)))
  {
    MarkupReadsBack(value, place);
    ReadingSplits(MarkupText(value), tail, place);
  }
}
