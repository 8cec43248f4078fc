/**
 The spelling of instants in the job table, and the two staleness tests that read it: the
 takeover guard compares texts inside SQL, the diagnostics view compares whole seconds.
 */
module Timestamps {
  import opened DecimalText

  /** Microseconds on the UTC time line. */
  type Instant = int

  const SECOND: int := 1_000_000

  /** The fields of an aware datetime already converted to UTC. */
  datatype DateTime = DateTime(
    year: nat, month: nat, day: nat, hour: nat, minute: nat, second: nat, micro: nat)

  predicate Leap(y: int) {
    y % 4 == 0 && (y % 100 != 0 || y % 400 == 0)
  }

  function DaysInMonth(y: int, m: nat): nat {
    if m == 2 then (if Leap(y) then 29 else 28)
    else if m == 4 || m == 6 || m == 9 || m == 11 then 30
    else 31
  }

  predicate Valid(d: DateTime) {
    && 1 <= d.year <= 9999
    && 1 <= d.month <= 12
    && 1 <= d.day <= DaysInMonth(d.year, d.month)
    && d.hour < 24 && d.minute < 60 && d.second < 60 && d.micro < 1_000_000
  }

  /** Days before 1 January of `y`, in the proleptic Gregorian calendar. */
  function DaysBeforeYear(y: int): int {
    var p := y - 1;
    p * 365 + p / 4 - p / 100 + p / 400
  }

  function DaysBeforeMonth(y: int, m: nat): nat {
    if m <= 1 then 0 else DaysBeforeMonth(y, m - 1) + DaysInMonth(y, m - 1)
  }

  function Day(d: DateTime): int {
    DaysBeforeYear(d.year) + DaysBeforeMonth(d.year, d.month) + d.day
  }

  function Seconds(d: DateTime): int {
    ((Day(d) * 24 + d.hour) * 60 + d.minute) * 60 + d.second
  }

  function At(d: DateTime): Instant {
    Seconds(d) * SECOND + d.micro
  }

  /** `dt_to_text`: ISO 8601 with a trailing Z; the fraction is omitted when it is zero. */
  function DateText(d: DateTime): string {
    Padded(d.year, 4) + ("-" + (Padded(d.month, 2) + ("-" + (Padded(d.day, 2) + ("T" + ClockText(d))))))
  }

  function ClockText(d: DateTime): string {
    Padded(d.hour, 2) + (":" + (Padded(d.minute, 2) + (":" + (Padded(d.second, 2) + Fraction(d.micro)))))
  }

  function Fraction(micro: nat): string {
    (if micro == 0 then [] else "." + Padded(micro, 6)) + "Z"
  }

  // -- Calendar order -------------------------------------------------------

  lemma QuotientIsUnique(n: int, k: int, q: int, r: int)
    requires k > 0 && n == q * k + r && 0 <= r < k
    ensures n / k == q
  {
    var d := q - n / k;
    assert d * k == n % k - r by {
      assert (n / k) * k + n % k == n;
      assert d * k == q * k - (n / k) * k;
    }
  }

  lemma QuotientStep(y: int, k: int)
    requires k > 0
    ensures y / k == (y - 1) / k + (if y % k == 0 then 1 else 0)
  {
    var q, r := y / k, y % k;
    assert y == q * k + r;
    if r == 0 {
      assert y - 1 == (q - 1) * k + (k - 1);
      QuotientIsUnique(y - 1, k, q - 1, k - 1);
    } else {
      QuotientIsUnique(y - 1, k, q, r - 1);
    }
  }

  lemma YearLength(y: int)
    ensures DaysBeforeYear(y + 1) == DaysBeforeYear(y) + (if Leap(y) then 366 else 365)
  {
    QuotientStep(y, 4);
    QuotientStep(y, 100);
    QuotientStep(y, 400);
    CenturiesAreFourths(y);
  }

  lemma MultipleLeavesNothing(n: int, k: int, q: int)
    requires k > 0 && n == q * k
    ensures n % k == 0
  {
    QuotientIsUnique(n, k, q, 0);
    assert n == (n / k) * k + n % k;
  }

  lemma CenturiesAreFourths(y: int)
    ensures y % 400 == 0 ==> y % 100 == 0
    ensures y % 100 == 0 ==> y % 4 == 0
  {
    var q, c := y / 400, y / 100;
    if y % 400 == 0 { MultipleLeavesNothing(y, 100, 4 * q); }
    if y % 100 == 0 { MultipleLeavesNothing(y, 4, 25 * c); }
  }

  lemma {:induction false} MonthsGrow(y: int, m: nat, n: nat)
    requires 1 <= m < n
    ensures DaysBeforeMonth(y, m) + DaysInMonth(y, m) <= DaysBeforeMonth(y, n)
  {
    if m + 1 < n {
      MonthsGrow(y, m, n - 1);
    }
  }

  lemma YearHoldsItsDays(d: DateTime)
    requires Valid(d)
    ensures 1 <= DaysBeforeMonth(d.year, d.month) + d.day <= (if Leap(d.year) then 366 else 365)
  {
    var y := d.year;
    assert DaysBeforeMonth(y, 2) == 31;
    assert DaysBeforeMonth(y, 3) == 31 + DaysInMonth(y, 2);
    assert DaysBeforeMonth(y, 5) == 31 + DaysInMonth(y, 2) + 31 + 30;
    assert DaysBeforeMonth(y, 7) == DaysBeforeMonth(y, 5) + 31 + 30;
    assert DaysBeforeMonth(y, 9) == DaysBeforeMonth(y, 7) + 31 + 31;
    assert DaysBeforeMonth(y, 11) == DaysBeforeMonth(y, 9) + 30 + 31;
    assert DaysBeforeMonth(y, 12) + DaysInMonth(y, 12) == DaysBeforeMonth(y, 11) + 30 + 31;
    if d.month < 12 {
      MonthsGrow(y, d.month, 12);
    }
  }

  /** Field-by-field order on dates is the order of day numbers. */
  lemma DayOrder(a: DateTime, b: DateTime)
    requires Valid(a) && Valid(b)
    ensures Day(a) < Day(b) <==>
            a.year < b.year || (a.year == b.year && (a.month < b.month || (a.month == b.month && a.day < b.day)))
    ensures Day(a) == Day(b) <==> a.year == b.year && a.month == b.month && a.day == b.day
  {
    YearHoldsItsDays(a);
    YearHoldsItsDays(b);
    if a.year < b.year {
      YearLength(a.year);
    } else if b.year < a.year {
      YearLength(b.year);
    } else if a.month < b.month {
      MonthsGrow(a.year, a.month, b.month);
    } else if b.month < a.month {
      MonthsGrow(a.year, b.month, a.month);
    }
  }

  // -- Text order -----------------------------------------------------------

  lemma SeparatorOrder(c: char, a: string, b: string)
    ensures LexLe([c] + a, [c] + b) <==> LexLe(a, b)
  {
    LexAppend([c], [c], a, b);
  }

  lemma FractionOrder(m: nat, n: nat)
    requires m < 1_000_000 && n < 1_000_000
    ensures LexLe(Fraction(m), Fraction(n)) <==> (if (m == 0) == (n == 0) then m <= n else m != 0)
  {
    if m != 0 && n != 0 {
      assert Fraction(m) == ['.'] + (Padded(m, 6) + "Z") && Fraction(n) == ['.'] + (Padded(n, 6) + "Z");
      SeparatorOrder('.', Padded(m, 6) + "Z", Padded(n, 6) + "Z");
      FieldOrder(m, n, 6, "Z", "Z");
      assert LexLe("Z", "Z");
    }
  }

  lemma ClockTextOrder(a: DateTime, b: DateTime)
    requires Valid(a) && Valid(b)
    ensures LexLe(ClockText(a), ClockText(b)) <==>
            a.hour < b.hour || (a.hour == b.hour && (a.minute < b.minute || (a.minute == b.minute && (
              a.second < b.second || (a.second == b.second && LexLe(Fraction(a.micro), Fraction(b.micro)))))))
  {
    var sa, sb := Padded(a.second, 2) + Fraction(a.micro), Padded(b.second, 2) + Fraction(b.micro);
    var ma, mb := Padded(a.minute, 2) + (":" + sa), Padded(b.minute, 2) + (":" + sb);
    FieldOrder(a.second, b.second, 2, Fraction(a.micro), Fraction(b.micro));
    SeparatorOrder(':', sa, sb);
    FieldOrder(a.minute, b.minute, 2, ":" + sa, ":" + sb);
    SeparatorOrder(':', ma, mb);
    FieldOrder(a.hour, b.hour, 2, ":" + ma, ":" + mb);
  }

  lemma DateTextOrder(a: DateTime, b: DateTime)
    requires Valid(a) && Valid(b)
    ensures LexLe(DateText(a), DateText(b)) <==>
            Day(a) < Day(b) || (Day(a) == Day(b) && LexLe(ClockText(a), ClockText(b)))
  {
    DayOrder(a, b);
    var da, db := Padded(a.day, 2) + ("T" + ClockText(a)), Padded(b.day, 2) + ("T" + ClockText(b));
    var ma, mb := Padded(a.month, 2) + ("-" + da), Padded(b.month, 2) + ("-" + db);
    SeparatorOrder('T', ClockText(a), ClockText(b));
    FieldOrder(a.day, b.day, 2, "T" + ClockText(a), "T" + ClockText(b));
    SeparatorOrder('-', da, db);
    FieldOrder(a.month, b.month, 2, "-" + da, "-" + db);
    SeparatorOrder('-', ma, mb);
    FieldOrder(a.year, b.year, 4, "-" + ma, "-" + mb);
  }

  /**
   The text comparison as an order on instants: whole seconds first; inside one second the
   instant without a fraction sorts last, because '.' precedes 'Z'.
   */
  predicate TextLe(a: Instant, b: Instant) {
    if a / SECOND != b / SECOND then a < b
    else if (a % SECOND == 0) == (b % SECOND == 0) then a <= b
    else a % SECOND != 0
  }

  lemma SplitInstant(d: DateTime)
    requires Valid(d)
    ensures At(d) / SECOND == Seconds(d) && At(d) % SECOND == d.micro
  {
  }

  /** `TextLe` is exactly what comparing the two stored texts decides. */
  lemma TextOrderIsTextLe(a: DateTime, b: DateTime)
    requires Valid(a) && Valid(b)
    ensures LexLe(DateText(a), DateText(b)) <==> TextLe(At(a), At(b))
  {
    SplitInstant(a);
    SplitInstant(b);
    DateTextOrder(a, b);
    ClockTextOrder(a, b);
    FractionOrder(a.micro, b.micro);
  }

  /** Two instants on which text order and time order disagree. */
  predicate SpelledUnevenly(a: Instant, b: Instant) {
    a / SECOND == b / SECOND && (a % SECOND == 0) != (b % SECOND == 0)
  }

  /** Text order is time order except on unevenly spelled pairs, where it is reversed. */
  lemma TextOrderIsTimeOrder(a: DateTime, b: DateTime)
    requires Valid(a) && Valid(b)
    ensures (LexLe(DateText(a), DateText(b)) <==> At(a) <= At(b)) <==> !SpelledUnevenly(At(a), At(b))
  {
    TextOrderIsTextLe(a, b);
  }

  /** Such a pair: midnight, and half a second later, which sorts first. */
  lemma UnevenPair()
    ensures var a, b := DateTime(2026, 1, 1, 0, 0, 0, 0), DateTime(2026, 1, 1, 0, 0, 0, 500_000);
            && Valid(a) && Valid(b) && SpelledUnevenly(At(a), At(b))
            && At(a) < At(b) && LexLe(DateText(b), DateText(a)) && !LexLe(DateText(a), DateText(b))
  {
    var a, b := DateTime(2026, 1, 1, 0, 0, 0, 0), DateTime(2026, 1, 1, 0, 0, 0, 500_000);
    SplitInstant(a);
    SplitInstant(b);
    TextOrderIsTextLe(a, b);
    TextOrderIsTextLe(b, a);
  }

  // -- The takeover window and the stale verdict ----------------------------

  /** The cutoff `claim_for_rendering` compares `updated_at` against. */
  function StaleCutoff(now: Instant, staleSeconds: int): Instant {
    now - staleSeconds * SECOND
  }

  /** The `updated_at <= cutoff` conjunct of the takeover update. */
  predicate StaleByText(updated: Instant, now: Instant, staleSeconds: int) {
    TextLe(updated, StaleCutoff(now, staleSeconds))
  }

  /** Whole elapsed seconds, truncated toward zero and floored at nought (`age_seconds`). */
  function AgeSeconds(updated: Instant, now: Instant): (age: nat)
    ensures updated <= now ==> age * SECOND <= now - updated < (age + 1) * SECOND
    ensures now < updated ==> age == 0
  {
    var elapsed := now - updated;
    var truncated := if elapsed >= 0 then elapsed / SECOND else -((-elapsed) / SECOND);
    if truncated < 0 then 0 else truncated
  }

  /** The operator's verdict on a `rendering` job. */
  predicate StaleVerdict(updated: Instant, now: Instant, thresholdSeconds: int) {
    AgeSeconds(updated, now) >= thresholdSeconds
  }

  /**
   Under the positive threshold the settings demand, the verdict is the chronological cutoff test;
   under any other, the age floored at nought makes every job stale.
   */
  lemma VerdictIsTheCutoff(updated: Instant, now: Instant, n: int)
    ensures n >= 1 ==> (StaleVerdict(updated, now, n) <==> updated <= StaleCutoff(now, n))
    ensures n < 1 ==> StaleVerdict(updated, now, n)
  {
    if updated <= now {
      var age := AgeSeconds(updated, now);
      if age >= n {
        assert age * SECOND >= n * SECOND;
      } else {
        assert (age + 1) * SECOND <= n * SECOND;
      }
    }
  }

  /**
   Under such a threshold the takeover guard and the operator's verdict are one
   window, except for a row and cutoff spelled unevenly, where they are opposites; even then
   the row is within a second of the cutoff.
   */
  lemma TakeoverMatchesVerdict(updated: Instant, now: Instant, n: int)
    requires n >= 1
    ensures (StaleByText(updated, now, n) <==> StaleVerdict(updated, now, n))
            <==> !SpelledUnevenly(updated, StaleCutoff(now, n))
    ensures StaleByText(updated, now, n) ==> updated < StaleCutoff(now, n) + SECOND
    ensures updated <= StaleCutoff(now, n) - SECOND ==> StaleByText(updated, now, n)
  {
    VerdictIsTheCutoff(updated, now, n);
  }
}
