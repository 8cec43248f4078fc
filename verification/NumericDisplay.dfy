/**
 `display_number`: a decimal shifted and rounded for display through the decimal context's own
 digit-string operations, against exact arithmetic on the value.
 */
module NumericDisplay {
  import opened Wrappers
  import opened DecimalText

  const EMAX: int := 999_999
  const EMIN: int := -999_999
  const MAX_CELL: int := 32_767

  /** A finite decimal: sign, coefficient digits, exponent. */
  datatype Dec = Dec(neg: bool, digits: string, exp: int)

  datatype Failure = ResourceLimit | NumberInvalid | Overflow

  predicate AllDigits(s: string) {
    forall k :: 0 <= k < |s| ==> IsDigit(s[k])
  }

  predicate Canonical(d: Dec) {
    AllDigits(d.digits) && d.digits != [] && (|d.digits| > 1 ==> d.digits[0] != '0')
  }

  predicate Zero(d: Dec) {
    d.digits == "0"
  }

  function Adjusted(d: Dec): int {
    d.exp + |d.digits| - 1
  }

  function Max(a: int, b: int): int {
    if a < b then b else a
  }

  function Min(a: int, b: int): int {
    if a < b then a else b
  }

  function Etiny(prec: int): int { EMIN - prec + 1 }

  function Etop(prec: int): int { EMAX - prec + 1 }

  // -- The decimal module's operations --------------------------------------

  predicate AllZeros(s: string) {
    forall k :: 0 <= k < |s| ==> s[k] == '0'
  }

  /** ROUND_HALF_UP looks at one digit, the first one dropped. */
  predicate HalfUp(digits: string, kept: nat)
    requires kept < |digits|
  {
    digits[kept] >= '5'
  }

  /** ROUND_HALF_EVEN drops an exact half when what is kept is even. */
  predicate HalfEven(digits: string, kept: nat)
    requires kept < |digits|
  {
    if digits[kept] == '5' && AllZeros(digits[kept + 1..]) && (kept == 0 || digits[kept - 1] in "02468") then false
    else HalfUp(digits, kept)
  }

  /** The coefficient of `d` cut at exponent `exp`, above its own. */
  function Cut(d: Dec, exp: int, even: bool): nat
    requires Canonical(d) && d.exp < exp
  {
    var kept := |d.digits| + d.exp - exp;
    if kept < 0 then if even then CutAt("1", 0, true) else CutAt("1", 0, false)
    else CutAt(d.digits, kept, even)
  }

  function CutAt(digits: string, kept: nat, even: bool): nat
    requires AllDigits(digits) && kept < |digits|
  {
    Number(digits[..kept]) + if (if even then HalfEven(digits, kept) else HalfUp(digits, kept)) then 1 else 0
  }

  /** `Decimal._fix`: into the context's precision and exponent range. */
  function Fix(d: Dec, prec: int): (r: Result<Dec, Failure>)
    requires Canonical(d) && prec > 0
    ensures r.Ok? ==> Canonical(r.value)
  {
    if Zero(d) then Ok(Dec(d.neg, "0", Min(Max(d.exp, Etiny(prec)), EMAX)))
    else
      var low := |d.digits| + d.exp - prec;
      if low > Etop(prec) then Err(Overflow)
      else
        var floor := Max(low, Etiny(prec));
        if d.exp >= floor then Ok(d)
        else
          var digits := Decimal(Cut(d, floor, true));
          if |digits| <= prec then Ok(Dec(d.neg, digits, floor))
          else if floor + 1 > Etop(prec) then Err(Overflow)
          else Ok(Dec(d.neg, digits[..|digits| - 1], floor + 1))
  }

  /** `Decimal.scaleb` for an integer shift. */
  function Scaleb(d: Dec, shift: int, prec: int): (r: Result<Dec, Failure>)
    requires Canonical(d) && prec > 0
    ensures r.Ok? ==> Canonical(r.value)
  {
    if !(-2 * (EMAX + prec) <= shift <= 2 * (EMAX + prec)) then Err(NumberInvalid)
    else Fix(Dec(d.neg, d.digits, d.exp + shift), prec)
  }

  function Zeros(n: nat): (s: string)
    ensures |s| == n && AllZeros(s)
  {
    if n == 0 then [] else Zeros(n - 1) + "0"
  }

  /** `Decimal._rescale`: the same value at another exponent, rounded half up when digits go. */
  function Rescale(d: Dec, exp: int): Dec
    requires Canonical(d)
  {
    if d.exp >= exp then Dec(d.neg, d.digits + Zeros(d.exp - exp), exp)
    else Dec(d.neg, Decimal(Cut(d, exp, false)), exp)
  }

  /** `Decimal.quantize` */
  function Quantize(d: Dec, exp: int, prec: int): Result<Dec, Failure>
    requires Canonical(d) && prec > 0
  {
    if !(Etiny(prec) <= exp <= EMAX) then Err(NumberInvalid)
    else if Zero(d) then Fix(Dec(d.neg, "0", exp), prec)
    else if Adjusted(d) > EMAX || Adjusted(d) - exp + 1 > prec then Err(NumberInvalid)
    else
      var ans := Rescale(d, exp);
      if Adjusted(ans) > EMAX || |ans.digits| > prec then Err(NumberInvalid)
      else Fix(ans, prec)
  }

  function Precision(d: Dec, shift: int, places: nat): int {
    Max(Max(|d.digits|, Adjusted(d) + shift + places + 2), 32)
  }

  /** `format(x, "f")` of a number whose exponent is `-places`. */
  function Fixed(neg: bool, units: nat, places: nat): string {
    (if neg then "-" else "") + Decimal(Whole(units, places))
    + if places == 0 then "" else "." + Padded(Part(units, places), places)
  }

  function Whole(units: nat, places: nat): nat { Divided(units, Pow10(places)).0 }

  function Part(units: nat, places: nat): (part: nat)
    ensures part < Pow10(places) && Whole(units, places) * Pow10(places) + part == units
  {
    Divided(units, Pow10(places)).1
  }

  function Divided(n: nat, p: nat): (qr: (nat, nat))
    requires p > 0
    ensures qr.1 < p && qr.0 * p + qr.1 == n
  {
    (n / p, n % p)
  }

  /** `display_number` on what `Decimal(value)` gave; None stands for anything but a finite number. */
  function DisplayNumber(parsed: Option<Dec>, places: nat, percent: bool): Result<string, Failure>
    requires parsed.Some? ==> Canonical(parsed.value)
  {
    if parsed.None? then Err(NumberInvalid)
    else
      var d, shift := parsed.value, if percent then 2 else 0;
      if Adjusted(d) + shift >= MAX_CELL then Err(ResourceLimit)
      else
        match Rounded(d, shift, places, Precision(d, shift, places))
        case Err(failure) => Err(failure)
        case Ok(ans) =>
          var display := Fixed(ans.neg, NumberOf(ans), places);
          if |display| > MAX_CELL then Err(ResourceLimit) else Ok(display)
  }

  /** The arithmetic under the local context. */
  function Rounded(d: Dec, shift: int, places: nat, prec: int): Result<Dec, Failure>
    requires Canonical(d) && prec > 0
  {
    match Scaleb(d, shift, prec)
    case Err(failure) => Err(failure)
    case Ok(scaled) =>
      match Scaleb(Dec(false, "1", 0), -(places as int), prec)
      case Err(failure) => Err(failure)
      case Ok(quantum) => Quantize(scaled, quantum.exp, prec)
  }

  function NumberOf(d: Dec): nat {
    if AllDigits(d.digits) then Number(d.digits) else 0
  }

  // -- Exact rounding -------------------------------------------------------

  /** `units` is `num / den` rounded to the nearest whole number, ties away from zero. */
  predicate NearestAway(units: nat, num: nat, den: nat) {
    -(den as int) < 2 * (units * den - num) <= den
  }

  /** A value times ten to the `e`, as a fraction. */
  function Num(c: nat, e: int): nat { c * Pow10(if e > 0 then e else 0) }

  function Den(e: int): nat { Pow10(if e < 0 then -e else 0) }

  lemma MulLe(a: int, b: int, e: int)
    requires e > 0 && a <= b
    ensures a * e <= b * e
  {
  }

  /** Rounding never reverses an order. */
  lemma RoundingIsMonotone(u: nat, n: nat, d: nat, v: nat, m: nat, e: nat)
    requires d > 0 && e > 0 && NearestAway(u, n, d) && NearestAway(v, m, e)
    requires n * e <= m * d
    ensures u <= v
  {
    var whole := d * e;
    assert e * d == whole > 0;
    var a, b := u * whole, v * whole;
    assert a - b < whole;
    assert (u - v) * whole == a - b;
    if u > v { MulLe(1, u - v, whole); }
  }

  lemma RoundingIsUnique(u: nat, v: nat, num: nat, den: nat)
    requires den > 0 && NearestAway(u, num, den) && NearestAway(v, num, den)
    ensures u == v
  {
    RoundingIsMonotone(u, num, den, v, num, den);
    RoundingIsMonotone(v, num, den, u, num, den);
  }

  /** The exact rounding, in integer arithmetic. */
  function TiesAway(num: nat, den: nat): (units: nat)
    requires den > 0
    ensures NearestAway(units, num, den)
  {
    var q, r := (2 * num + den) / (2 * den), (2 * num + den) % (2 * den);
    assert 2 * num + den == q * (2 * den) + r;
    q
  }

  // -- Digits ---------------------------------------------------------------

  lemma {:induction false} PowerGrows(a: nat, b: nat)
    requires a <= b
    ensures Pow10(a) <= Pow10(b)
    ensures a < b ==> 10 * Pow10(a) <= Pow10(b)
  {
    if a < b {
      PowerGrows(a, b - 1);
    }
  }

  lemma {:induction false} DigitsBound(s: string)
    requires AllDigits(s)
    ensures Number(s) < Pow10(|s|)
  {
    if s != [] {
      DigitsBound(s[..|s| - 1]);
      assert IsDigit(s[|s| - 1]);
    }
  }

  lemma TenTimes(x: int, p: int)
    ensures 10 * (x * p) == x * (10 * p)
  {
  }

  lemma {:induction false} SplitDigits(s: string, i: nat)
    requires AllDigits(s) && i <= |s|
    ensures Number(s) == Number(s[..i]) * Pow10(|s| - i) + Number(s[i..])
    decreases |s|
  {
    if i == |s| {
      assert s[..i] == s && s[i..] == [];
    } else {
      var n := |s| - 1;
      SplitDigits(s[..n], i);
      LastDigitOfTail(s, i);
      TenTimes(Number(s[..i]), Pow10(n - i));
    }
  }

  lemma LastDigitOfTail(s: string, i: nat)
    requires AllDigits(s) && i < |s|
    ensures Number(s[i..]) == 10 * Number(s[..|s| - 1][i..]) + (s[|s| - 1] as int - 48)
    ensures s[..|s| - 1][..i] == s[..i]
  {
    var t := s[i..];
    assert t[..|t| - 1] == s[..|s| - 1][i..] && t[|t| - 1] == s[|s| - 1];
  }

  /** The first digit decides the half. */
  lemma FirstDigitDecides(s: string)
    requires AllDigits(s) && s != []
    ensures s[0] >= '5' <==> 2 * Number(s) >= Pow10(|s|)
  {
    SplitDigits(s, 1);
    DigitsBound(s[1..]);
    assert s[..1] == [s[0]] && s[..1][..0] == [];
    assert Number(s[..1]) == s[0] as int - 48 by { assert IsDigit(s[0]); }
    var p := Pow10(|s| - 1);
    var d := s[0] as int - 48;
    if d >= 5 { MulLe(5, d, p); } else { MulLe(d, 4, p); }
  }

  lemma {:induction false} AppendedZeros(s: string, n: nat)
    requires AllDigits(s)
    ensures AllDigits(s + Zeros(n)) && Number(s + Zeros(n)) == Number(s) * Pow10(n)
  {
    if n == 0 {
      assert s + [] == s;
    } else {
      AppendedZeros(s, n - 1);
      assert s + Zeros(n) == (s + Zeros(n - 1)) + "0";
      TenTimes(Number(s), Pow10(n - 1));
    }
  }

  lemma {:induction false} DecimalLength(n: nat, w: nat)
    requires n < Pow10(w)
    ensures |Decimal(n)| <= Max(w, 1)
  {
    if n >= 10 {
      DecimalLength(n / 10, w - 1);
    }
  }

  /** Cutting half up is exact rounding of the coefficient. */
  lemma CutIsNearest(d: Dec, exp: int)
    requires Canonical(d) && d.exp < exp
    ensures NearestAway(Cut(d, exp, false), Number(d.digits), Pow10(exp - d.exp))
  {
    var kept, s := |d.digits| + d.exp - exp, d.digits;
    if kept < 0 {
      AllCutAway(d, exp);
    } else {
      SplitDigits(s, kept);
      DigitsBound(s[kept..]);
      FirstDigitDecides(s[kept..]);
      assert s[kept..][0] == s[kept];
      NearestOfSplit(Number(s[..kept]), Number(s[kept..]), Pow10(exp - d.exp), HalfUp(s, kept));
    }
  }

  lemma AllCutAway(d: Dec, exp: int)
    requires Canonical(d) && |d.digits| + d.exp < exp
    ensures Cut(d, exp, false) == 0 && 2 * Number(d.digits) < Pow10(exp - d.exp)
  {
    DigitsBound(d.digits);
    PowerGrows(|d.digits|, exp - d.exp);
    assert "1"[..0] == [];
  }

  lemma NearestOfSplit(q: nat, tail: nat, p: nat, up: bool)
    requires tail < p && (up <==> 2 * tail >= p)
    ensures NearestAway(q + if up then 1 else 0, q * p + tail, p)
  {
    assert (q + 1) * p == q * p + p;
  }

  lemma CutBound(d: Dec, exp: int, even: bool)
    requires Canonical(d) && d.exp < exp
    ensures |Decimal(Cut(d, exp, even))| <= Max(|d.digits| + d.exp - exp + 1, 1)
    ensures |d.digits| + d.exp < exp ==> Cut(d, exp, even) == 0
  {
    var kept := |d.digits| + d.exp - exp;
    if kept < 0 {
      assert "1"[..0] == [];
    } else {
      DigitsBound(d.digits[..kept]);
      assert Cut(d, exp, even) < Pow10(kept + 1);
      DecimalLength(Cut(d, exp, even), kept + 1);
    }
  }

  // -- The context suffices -------------------------------------------------

  /** The contract admits twelve places; what follows holds for all the context can express. */
  const MAX_PLACES: int := 999_997

  ghost predicate Suffices(d: Dec, shift: int, places: nat, prec: int) {
    && 0 <= shift <= 2 && places <= MAX_PLACES
    && Adjusted(d) + shift < MAX_CELL
    && prec == Precision(d, shift, places)
  }

  /** The unit of the last displayed place stands as it is. */
  lemma QuantumIsExact(d: Dec, shift: int, places: nat, prec: int)
    requires Suffices(d, shift, places, prec)
    ensures Scaleb(Dec(false, "1", 0), -(places as int), prec) == Ok(Dec(false, "1", -(places as int)))
  {
  }

  /** The shift is exact unless the number lies below the context's smallest exponent. */
  lemma ShiftIsExact(d: Dec, shift: int, places: nat, prec: int)
    requires Canonical(d) && !Zero(d) && Suffices(d, shift, places, prec) && d.exp + shift >= Etiny(prec)
    ensures Scaleb(d, shift, prec) == Ok(Dec(d.neg, d.digits, d.exp + shift))
  {
  }

  /** And below it, what is left is far too small to show. */
  lemma TinyStaysTiny(d: Dec, shift: int, places: nat, prec: int)
    requires Canonical(d) && !Zero(d) && Suffices(d, shift, places, prec) && d.exp + shift < Etiny(prec)
    ensures Scaleb(d, shift, prec).Ok?
    ensures var r := Scaleb(d, shift, prec).value; r.neg == d.neg && Adjusted(r) <= EMIN
  {
    CutBound(Dec(d.neg, d.digits, d.exp + shift), Etiny(prec), true);
  }

  /** The magnitude of the value at the displayed scale, as a fraction. */
  function ShownNum(d: Dec, shift: int, places: nat): nat
    requires Canonical(d)
  {
    Num(Number(d.digits), d.exp + shift + places)
  }

  function ShownDen(d: Dec, shift: int, places: nat): nat {
    Den(d.exp + shift + places)
  }

  lemma PadIsExact(d: Dec, places: nat)
    requires Canonical(d) && !Zero(d) && d.exp >= -(places as int)
    ensures var ans := Rescale(d, -(places as int));
            && AllDigits(ans.digits) && Number(ans.digits) == ShownNum(d, 0, places)
            && NearestAway(Number(ans.digits), ShownNum(d, 0, places), ShownDen(d, 0, places))
  {
    AppendedZeros(d.digits, d.exp + places);
  }

  lemma CutShown(d: Dec, places: nat)
    requires Canonical(d) && d.exp < -(places as int)
    ensures var ans := Rescale(d, -(places as int));
            && AllDigits(ans.digits)
            && NearestAway(Number(ans.digits), ShownNum(d, 0, places), ShownDen(d, 0, places))
  {
    CutIsNearest(d, -(places as int));
    NumberOfDecimal(Cut(d, -(places as int), false));
    assert Pow10(0) == 1;
  }

  /** Rescaling to the displayed places, whatever digits it adds or drops, is exact rounding. */
  lemma RescaleIsNearest(d: Dec, places: nat)
    requires Canonical(d) && !Zero(d)
    ensures var ans := Rescale(d, -(places as int));
            && AllDigits(ans.digits) && ans.neg == d.neg && ans.exp == -(places as int)
            && NearestAway(Number(ans.digits), ShownNum(d, 0, places), ShownDen(d, 0, places))
            && |ans.digits| <= Max(Adjusted(d) + places + 2, 1)
  {
    if d.exp >= -(places as int) {
      PadIsExact(d, places);
    } else {
      CutShown(d, places);
      CutBound(d, -(places as int), false);
    }
  }

  /** The precision leaves room for every digit and for a carry, so `quantize` cannot refuse. */
  lemma QuantizeIsNearest(d: Dec, places: nat, prec: int)
    requires Canonical(d) && !Zero(d) && places <= MAX_PLACES
    requires prec >= 32 && Adjusted(d) + places + 2 <= prec && Adjusted(d) < MAX_CELL
    ensures var r := Quantize(d, -(places as int), prec);
            && r.Ok? && Canonical(r.value) && r.value.neg == d.neg && r.value.exp == -(places as int)
            && NearestAway(Number(r.value.digits), ShownNum(d, 0, places), ShownDen(d, 0, places))
  {
    RescaleIsNearest(d, places);
  }

  /** The whole computation under the local context never refuses and rounds the value exactly. */
  lemma RoundedIsNearest(d: Dec, shift: int, places: nat, prec: int)
    requires Canonical(d) && Suffices(d, shift, places, prec)
    ensures var r := Rounded(d, shift, places, prec);
            && r.Ok? && Canonical(r.value) && r.value.neg == d.neg
            && NearestAway(Number(r.value.digits), ShownNum(d, shift, places), ShownDen(d, shift, places))
  {
    if Zero(d) {
      ZeroIsNearest(d, shift, places, prec);
    } else if d.exp + shift >= Etiny(prec) {
      OrdinaryIsNearest(d, shift, places, prec);
    } else {
      TinyIsNearest(d, shift, places, prec);
    }
  }

  lemma OrdinaryIsNearest(d: Dec, shift: int, places: nat, prec: int)
    requires Canonical(d) && !Zero(d) && Suffices(d, shift, places, prec) && d.exp + shift >= Etiny(prec)
    ensures var r := Rounded(d, shift, places, prec);
            && r.Ok? && Canonical(r.value) && r.value.neg == d.neg
            && NearestAway(Number(r.value.digits), ShownNum(d, shift, places), ShownDen(d, shift, places))
  {
    var shifted := Dec(d.neg, d.digits, d.exp + shift);
    QuantumIsExact(d, shift, places, prec);
    ShiftIsExact(d, shift, places, prec);
    QuantizeIsNearest(shifted, places, prec);
    assert Rounded(d, shift, places, prec) == Quantize(shifted, -(places as int), prec);
  }

  lemma ZeroIsNearest(d: Dec, shift: int, places: nat, prec: int)
    requires Canonical(d) && Zero(d) && Suffices(d, shift, places, prec)
    ensures var r := Rounded(d, shift, places, prec);
            && r.Ok? && Canonical(r.value) && r.value.neg == d.neg
            && NearestAway(Number(r.value.digits), ShownNum(d, shift, places), ShownDen(d, shift, places))
  {
    QuantumIsExact(d, shift, places, prec);
    assert Number("0") == 0 by { assert "0"[..0] == []; }
  }

  lemma TinyIsNearest(d: Dec, shift: int, places: nat, prec: int)
    requires Canonical(d) && !Zero(d) && Suffices(d, shift, places, prec) && d.exp + shift < Etiny(prec)
    ensures var r := Rounded(d, shift, places, prec);
            && r.Ok? && Canonical(r.value) && r.value.neg == d.neg
            && NearestAway(Number(r.value.digits), ShownNum(d, shift, places), ShownDen(d, shift, places))
  {
    QuantumIsExact(d, shift, places, prec);
    TinyStaysTiny(d, shift, places, prec);
    TinyShowsAsZero(Scaleb(d, shift, prec).value, places, prec);
    AllCutAway(Dec(d.neg, d.digits, d.exp + shift), -(places as int));
    assert Pow10(0) == 1;
  }

  lemma TinyShowsAsZero(tiny: Dec, places: nat, prec: int)
    requires Canonical(tiny) && Adjusted(tiny) <= EMIN && places <= MAX_PLACES && prec >= 32
    ensures Quantize(tiny, -(places as int), prec) == Ok(Dec(tiny.neg, "0", -(places as int)))
    ensures Number("0") == 0
  {
    assert "0"[..0] == [];
    if !Zero(tiny) {
      CutBound(tiny, -(places as int), false);
      assert Decimal(0) == "0";
    }
  }

  /** The number `display_number` should show: the value's magnitude rounded, ties away. */
  function Units(d: Dec, shift: int, places: nat): nat
    requires Canonical(d)
  {
    TiesAway(ShownNum(d, shift, places), ShownDen(d, shift, places))
  }

  /**
   For every finite decimal, `display_number` either refuses for size or shows exactly its value
   rounded to the places, half away from zero. It never reports a number it accepts as invalid.
   */
  lemma DisplayIsExactRounding(d: Dec, places: nat, percent: bool)
    requires Canonical(d) && places <= MAX_PLACES
    ensures var shift := if percent then 2 else 0;
            var display := Fixed(d.neg, Units(d, shift, places), places);
            DisplayNumber(Some(d), places, percent)
            == if Adjusted(d) + shift >= MAX_CELL || |display| > MAX_CELL then Err(ResourceLimit) else Ok(display)
  {
    var shift := if percent then 2 else 0;
    if Adjusted(d) + shift < MAX_CELL {
      var prec := Precision(d, shift, places);
      RoundedIsNearest(d, shift, places, prec);
      var ans := Rounded(d, shift, places, prec).value;
      RoundingIsUnique(Number(ans.digits), Units(d, shift, places),
                       ShownNum(d, shift, places), ShownDen(d, shift, places));
    }
  }

  /** A size refusal is not about the value: a zero written with a large exponent is refused. */
  lemma ZeroCanBeTooLarge()
    ensures DisplayNumber(Some(Dec(false, "0", 40_000)), 2, false) == Err(ResourceLimit)
    ensures Units(Dec(false, "0", 0), 0, 2) == 0
    ensures DisplayNumber(Some(Dec(false, "0", 0)), 2, false).Ok?
  {
    assert Number("0") == 0 by { assert "0"[..0] == []; }
    var d := Dec(false, "0", 0);
    RoundingIsUnique(Units(d, 0, 2), 0, ShownNum(d, 0, 2), ShownDen(d, 0, 2));
    DisplayIsExactRounding(d, 2, false);
    assert Decimal(0) == "0";
  }

  // -- What a reader sees ---------------------------------------------------

  function Signed(neg: bool, n: nat): int {
    if neg then -(n as int) else n
  }

  /** `a <= b`, as exact values. */
  predicate AtMost(a: Dec, b: Dec, shift: int, places: nat)
    requires Canonical(a) && Canonical(b)
  {
    Signed(a.neg, ShownNum(a, shift, places)) * ShownDen(b, shift, places)
    <= Signed(b.neg, ShownNum(b, shift, places)) * ShownDen(a, shift, places)
  }

  /** A larger value never shows as a smaller number. */
  lemma DisplayIsMonotone(a: Dec, b: Dec, shift: int, places: nat)
    requires Canonical(a) && Canonical(b) && AtMost(a, b, shift, places)
    ensures Signed(a.neg, Units(a, shift, places)) <= Signed(b.neg, Units(b, shift, places))
  {
    SignedRoundingIsMonotone(
      a.neg, Units(a, shift, places), ShownNum(a, shift, places), ShownDen(a, shift, places),
      b.neg, Units(b, shift, places), ShownNum(b, shift, places), ShownDen(b, shift, places));
  }

  lemma Negated(n: nat, e: nat)
    requires e > 0
    ensures -(n as int) * e == -(n * e) && n * e >= 0 && (n * e == 0 ==> n == 0)
  {
  }

  lemma SignedRoundingIsMonotone(aNeg: bool, u: nat, n: nat, d: nat, bNeg: bool, v: nat, m: nat, e: nat)
    requires d > 0 && e > 0 && NearestAway(u, n, d) && NearestAway(v, m, e)
    requires Signed(aNeg, n) * e <= Signed(bNeg, m) * d
    ensures Signed(aNeg, u) <= Signed(bNeg, v)
  {
    Negated(n, e);
    Negated(m, d);
    if !aNeg && !bNeg {
      RoundingIsMonotone(u, n, d, v, m, e);
    } else if aNeg && bNeg {
      RoundingIsMonotone(v, m, e, u, n, d);
    } else if !aNeg {
      RoundingIsUnique(u, 0, n, d);
      RoundingIsUnique(v, 0, m, e);
    }
  }

  lemma {:induction false} PaddedNumber(n: nat, width: nat)
    requires n < Pow10(width)
    ensures AllDigits(Padded(n, width)) && Number(Padded(n, width)) == n
  {
    if width > 0 {
      PaddedNumber(n / 10, width - 1);
    }
  }

  lemma ConcatNumber(s: string, t: string)
    requires AllDigits(s) && AllDigits(t)
    ensures AllDigits(s + t) && Number(s + t) == Number(s) * Pow10(|t|) + Number(t)
  {
    SplitDigits(s + t, |s|);
    assert (s + t)[..|s|] == s && (s + t)[|s|..] == t;
  }

  lemma JoinedDigits(whole: nat, part: nat, places: nat)
    requires part < Pow10(places)
    ensures AllDigits(Decimal(whole) + Padded(part, places))
    ensures Number(Decimal(whole) + Padded(part, places)) == whole * Pow10(places) + part
  {
    PaddedNumber(part, places);
    NumberOfDecimal(whole);
    ConcatNumber(Decimal(whole), Padded(part, places));
  }

  /** The digits shown, point removed, spell the rounded units. */
  lemma ShownDigitsSpellTheUnits(units: nat, places: nat)
    ensures var whole, part := Decimal(Whole(units, places)), Padded(Part(units, places), places);
            AllDigits(whole + part) && Number(whole + part) == units
  {
    JoinedDigits(Whole(units, places), Part(units, places), places);
  }
}
