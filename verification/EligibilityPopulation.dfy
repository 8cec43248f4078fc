/**
 Reconciliation of a month's declared eligibility population, and of the selected months with the
 period they are for.
 */
module EligibilityPopulation {
  import opened Wrappers
  import opened DecimalText
  import opened Repetition

  // -- Population -----------------------------------------------------------

  datatype Member = Member(portfolioId: string, observationsPresent: bool, rules: seq<string>, status: string)

  datatype Observations = Observations(expected: seq<string>, observed: seq<string>)

  datatype Evaluation = Evaluation(
    members: seq<Member>, expectedCount: int, observedCount: int,
    includedCount: int, excludedCount: int, pendingReviewCount: int)

  const ASSESSMENT_ORDER: seq<string> := ["SIGNIFICANT_FLOW", "CASH", "READINESS"]

  function Ids(members: seq<Member>): seq<string> {
    seq(|members|, k requires 0 <= k < |members| => members[k].portfolioId)
  }

  /** `Counter(...)[status]` */
  function Count(members: seq<Member>, status: string): nat {
    if members == [] then 0 else (if members[0].status == status then 1 else 0) + Count(members[1..], status)
  }

  function MembersError(members: seq<Member>, observed: set<string>): Option<string> {
    if members == [] then None
    else if members[0].observationsPresent != (members[0].portfolioId in observed) then
      Some("composite_eligibility_observation_presence_conflict")
    else if members[0].rules != ASSESSMENT_ORDER then
      Some("composite_eligibility_assessment_population_conflict")
    else MembersError(members[1..], observed)
  }

  predicate CountsMatch(e: Evaluation, expected: nat, observed: nat) {
    && e.expectedCount == expected
    && e.observedCount == observed
    && e.includedCount == Count(e.members, "INCLUDED")
    && e.excludedCount == Count(e.members, "EXCLUDED")
    && e.pendingReviewCount == Count(e.members, "PENDING_REVIEW")
  }

  /** `validate_eligibility_population`; None is acceptance. */
  function PopulationError(o: Observations, e: Evaluation): Option<string> {
    if |SetOf(o.expected)| != |o.expected| || Ids(e.members) != o.expected then
      Some("composite_eligibility_member_population_conflict")
    else if |SetOf(o.observed)| != |o.observed| || !(SetOf(o.observed) <= SetOf(o.expected)) then
      Some("composite_eligibility_observed_population_conflict")
    else if MembersError(e.members, SetOf(o.observed)).Some? then MembersError(e.members, SetOf(o.observed))
    else if !CountsMatch(e, |o.expected|, |o.observed|) then
      Some("composite_eligibility_population_count_conflict")
    else None
  }

  function Flagged(members: seq<Member>): nat {
    if members == [] then 0 else (if members[0].observationsPresent then 1 else 0) + Flagged(members[1..])
  }

  lemma {:induction false} NoMemberError(members: seq<Member>, observed: set<string>)
    requires MembersError(members, observed).None?
    ensures forall m :: m in members ==>
              m.rules == ASSESSMENT_ORDER && (m.observationsPresent <==> m.portfolioId in observed)
  {
    if members != [] {
      NoMemberError(members[1..], observed);
      assert members == [members[0]] + members[1..];
    }
  }

  lemma {:induction false} SoundMembersHaveNoError(members: seq<Member>, observed: set<string>)
    requires forall m :: m in members ==>
               m.rules == ASSESSMENT_ORDER && (m.observationsPresent <==> m.portfolioId in observed)
    ensures MembersError(members, observed).None?
  {
    if members != [] {
      assert members[0] in members;
      SoundMembersHaveNoError(members[1..], observed);
    }
  }

  lemma SubsetByMembers(a: seq<string>, b: seq<string>)
    ensures SetOf(a) <= SetOf(b) <==> forall x :: x in a ==> x in b
  {
    if SetOf(a) <= SetOf(b) {
      forall x | x in a ensures x in b {
        assert x in SetOf(a);
      }
    }
  }

  /**
   What acceptance demands, and all it demands: each expected portfolio evaluated once and in
   order, observations only of expected portfolios and each once, every flag and rule list right,
   every declared count the count.
   */
  lemma AcceptedPopulationIff(o: Observations, e: Evaluation)
    ensures PopulationError(o, e).None? <==>
            && Ids(e.members) == o.expected && NoRepeat(o.expected)
            && NoRepeat(o.observed) && (forall x :: x in o.observed ==> x in o.expected)
            && (forall m :: m in e.members ==>
                  m.rules == ASSESSMENT_ORDER && (m.observationsPresent <==> m.portfolioId in o.observed))
            && CountsMatch(e, |o.expected|, |o.observed|)
  {
    SetSizeIsDistinctness(o.expected);
    SetSizeIsDistinctness(o.observed);
    SubsetByMembers(o.observed, o.expected);
    if MembersError(e.members, SetOf(o.observed)).None? {
      NoMemberError(e.members, SetOf(o.observed));
    } else if forall m :: m in e.members ==>
                m.rules == ASSESSMENT_ORDER && (m.observationsPresent <==> m.portfolioId in o.observed) {
      SoundMembersHaveNoError(e.members, SetOf(o.observed));
    }
  }

  /** Members that name each of a set of identifiers once carry that many flags. */
  lemma {:induction false} FlagsCountTheObserved(members: seq<Member>, observed: set<string>)
    requires NoRepeat(Ids(members)) && observed <= SetOf(Ids(members))
    requires forall m :: m in members ==> (m.observationsPresent <==> m.portfolioId in observed)
    ensures Flagged(members) == |observed|
  {
    if members == [] {
      assert observed == {};
    } else {
      var first, rest := members[0].portfolioId, members[1..];
      var others := observed - {first};
      RestWithoutFirst(members, observed);
      FlagsCountTheObserved(rest, others);
      assert observed == if first in observed then others + {first} else others;
      assert members[0] in members;
    }
  }

  lemma RestWithoutFirst(members: seq<Member>, observed: set<string>)
    requires members != [] && NoRepeat(Ids(members)) && observed <= SetOf(Ids(members))
    ensures NoRepeat(Ids(members[1..]))
    ensures observed - {members[0].portfolioId} <= SetOf(Ids(members[1..]))
    ensures forall m :: m in members[1..] ==> m.portfolioId != members[0].portfolioId
  {
    var ids, first, rest := Ids(members), members[0].portfolioId, members[1..];
    assert Ids(rest) == ids[1..] && ids[0] == first;
    forall x | x in observed && x != first ensures x in SetOf(Ids(rest)) {
      var k :| 0 <= k < |ids| && ids[k] == x;
      assert ids[1..][k - 1] == x;
    }
    forall m | m in rest ensures m.portfolioId != first {
      var k :| 0 <= k < |rest| && rest[k] == m;
      assert ids[k + 1] == m.portfolioId;
    }
  }

  predicate Known(status: string) {
    status == "INCLUDED" || status == "EXCLUDED" || status == "PENDING_REVIEW"
  }

  lemma {:induction false} ThreeCounts(members: seq<Member>)
    ensures var n := Count(members, "INCLUDED") + Count(members, "EXCLUDED") + Count(members, "PENDING_REVIEW");
            n <= |members| && (n == |members| <==> forall m :: m in members ==> Known(m.status))
  {
    if members != [] {
      ThreeCounts(members[1..]);
      assert members == [members[0]] + members[1..];
    }
  }

  /**
   In an accepted population every expected portfolio is evaluated once, the flags number the
   observations, and the three declared counts add up to the expected count exactly when no
   member carries a fourth status.
   */
  lemma AcceptedPopulationAddsUp(o: Observations, e: Evaluation)
    requires PopulationError(o, e).None?
    ensures Ids(e.members) == o.expected && NoRepeat(o.expected)
    ensures e.expectedCount == |e.members|
    ensures Flagged(e.members) == e.observedCount == |o.observed|
    ensures e.includedCount + e.excludedCount + e.pendingReviewCount <= e.expectedCount
    ensures e.includedCount + e.excludedCount + e.pendingReviewCount == e.expectedCount
            <==> forall m :: m in e.members ==> Known(m.status)
  {
    SetSizeIsDistinctness(o.expected);
    SetSizeIsDistinctness(o.observed);
    NoMemberError(e.members, SetOf(o.observed));
    FlagsCountTheObserved(e.members, SetOf(o.observed));
    ThreeCounts(e.members);
    assert |Ids(e.members)| == |e.members|;
  }

  /** With the contract's three statuses the counts always add up. */
  lemma KnownStatusesAddUp(o: Observations, e: Evaluation)
    requires PopulationError(o, e).None? && forall m :: m in e.members ==> Known(m.status)
    ensures e.includedCount + e.excludedCount + e.pendingReviewCount == e.expectedCount == |o.expected|
  {
    AcceptedPopulationAddsUp(o, e);
  }

  /** The checks themselves accept a member of a fourth status, and then the counts fall short. */
  lemma FourthStatusIsAccepted()
    ensures var member := Member("p1", false, ASSESSMENT_ORDER, "WITHDRAWN");
            var e := Evaluation([member], 1, 0, 0, 0, 0);
            && PopulationError(Observations(["p1"], []), e).None?
            && e.includedCount + e.excludedCount + e.pendingReviewCount < e.expectedCount
  {
    var member := Member("p1", false, ASSESSMENT_ORDER, "WITHDRAWN");
    var o, e := Observations(["p1"], []), Evaluation([member], 1, 0, 0, 0, 0);
    assert Ids(e.members) == o.expected;
    assert "WITHDRAWN"[0] == 'W' && "INCLUDED"[0] == 'I' && "EXCLUDED"[0] == 'E' && "PENDING_REVIEW"[0] == 'P';
    assert [member][1..] == [];
    assert Count([], "INCLUDED") == 0 && Count([], "EXCLUDED") == 0 && Count([], "PENDING_REVIEW") == 0;
    assert CountsMatch(e, 1, 0);
    AcceptedPopulationIff(o, e);
    assert Ids(e.members) == o.expected && NoRepeat(o.expected) && NoRepeat(o.observed);
  }

  // -- Horizon --------------------------------------------------------------

  datatype Date = Date(year: nat, month: nat, day: nat)

  predicate ValidDate(d: Date) {
    1 <= d.year <= 9999 && 1 <= d.month <= 12 && 1 <= d.day <= 31
  }

  predicate After(a: Date, b: Date) {
    a.year > b.year || (a.year == b.year && (a.month > b.month || (a.month == b.month && a.day > b.day)))
  }

  /** Months since year zero. */
  function Ordinal(d: Date): int {
    d.year * 12 + d.month - 1
  }

  /** `f"{ordinal // 12:04d}-{ordinal % 12 + 1:02d}"` */
  function MonthText(ordinal: nat): string {
    Padded(ordinal / 12, 4) + "-" + Padded(ordinal % 12 + 1, 2)
  }

  function Horizon(first: nat, last: int): seq<string>
    decreases last - first
  {
    if first > last then [] else [MonthText(first)] + Horizon(first + 1, last)
  }

  /** `validate_eligibility_horizon` */
  function HorizonError(start: Date, end: Date, months: seq<string>): Option<string>
    requires ValidDate(start) && ValidDate(end)
  {
    if After(start, end) then Some("composite_eligibility_horizon_conflict")
    else if months != Horizon(Ordinal(start), Ordinal(end)) then
      Some("composite_eligibility_month_population_conflict")
    else None
  }

  const LIMIT: nat := 120_000

  lemma MonthTextIsInjective(a: nat, b: nat)
    requires a < LIMIT && b < LIMIT && MonthText(a) == MonthText(b)
    ensures a == b
  {
    var p, q := Padded(a / 12, 4), Padded(b / 12, 4);
    assert p == MonthText(a)[..4] && q == MonthText(b)[..4];
    assert Padded(a % 12 + 1, 2) == MonthText(a)[5..] && Padded(b % 12 + 1, 2) == MonthText(b)[5..];
    assert Pow10(4) == 10_000 && Pow10(2) == 100;
    PaddedOrder(a / 12, b / 12, 4);
    PaddedOrder(a % 12 + 1, b % 12 + 1, 2);
  }

  lemma {:induction false} HorizonHolds(first: nat, last: int, k: nat)
    requires first <= last + 1
    ensures |Horizon(first, last)| == last + 1 - first
    ensures k < |Horizon(first, last)| ==> Horizon(first, last)[k] == MonthText(first + k)
    decreases last - first
  {
    if first <= last {
      HorizonHolds(first + 1, last, if k == 0 then 0 else k - 1);
    }
  }

  /** A calendar month and the one after it. */
  ghost predicate Consecutive(a: string, b: string) {
    exists m: nat :: m + 1 < LIMIT && a == MonthText(m) && b == MonthText(m + 1)
  }

  /** Starting with one month, ending with another, each month followed by the next. */
  ghost predicate RunsFromTo(months: seq<string>, first: nat, last: nat) {
    && months != [] && months[0] == MonthText(first) && months[|months| - 1] == MonthText(last)
    && forall k :: 0 <= k < |months| - 1 ==> Consecutive(months[k], months[k + 1])
  }

  lemma {:induction false} RunIsTheHorizon(months: seq<string>, first: nat, last: nat)
    requires first < LIMIT && last < LIMIT && RunsFromTo(months, first, last)
    ensures first <= last && months == Horizon(first, last)
    decreases |months|
  {
    if |months| == 1 {
      MonthTextIsInjective(first, last);
      assert months == [months[0]];
    } else {
      RestRuns(months, first, last);
      RunIsTheHorizon(months[1..], first + 1, last);
      assert months == [months[0]] + months[1..];
    }
  }

  lemma RestRuns(months: seq<string>, first: nat, last: nat)
    requires first < LIMIT && |months| > 1 && RunsFromTo(months, first, last)
    ensures first + 1 < LIMIT && RunsFromTo(months[1..], first + 1, last)
  {
    assert Consecutive(months[0], months[1]);
    var m: nat :| m + 1 < LIMIT && months[0] == MonthText(m) && months[1] == MonthText(m + 1);
    MonthTextIsInjective(m, first);
    var rest := months[1..];
    forall k | 0 <= k < |rest| - 1 ensures Consecutive(rest[k], rest[k + 1]) {
      assert Consecutive(months[k + 1], months[k + 2]);
    }
  }

  /**
   The accepted month lists are exactly the unbroken runs from the period's first month to its
   last; the days decide only a period within one month.
   */
  lemma AcceptedMonthsAreTheRun(start: Date, end: Date, months: seq<string>)
    requires ValidDate(start) && ValidDate(end)
    ensures HorizonError(start, end, months).None?
            <==> !After(start, end) && RunsFromTo(months, Ordinal(start), Ordinal(end))
  {
    var first, last := Ordinal(start), Ordinal(end);
    if HorizonError(start, end, months).None? {
      HorizonRuns(first, last);
    } else if !After(start, end) && RunsFromTo(months, first, last) {
      RunIsTheHorizon(months, first, last);
    }
  }

  lemma HorizonRuns(first: nat, last: nat)
    requires first <= last < LIMIT
    ensures RunsFromTo(Horizon(first, last), first, last)
  {
    var months := Horizon(first, last);
    HorizonHolds(first, last, 0);
    HorizonHolds(first, last, last - first);
    forall k | 0 <= k < |months| - 1 ensures Consecutive(months[k], months[k + 1]) {
      HorizonHolds(first, last, k);
      HorizonHolds(first, last, k + 1);
    }
  }

  /** So no month is selected twice. */
  lemma AcceptedMonthsAreDistinct(start: Date, end: Date, months: seq<string>)
    requires ValidDate(start) && ValidDate(end) && HorizonError(start, end, months).None?
    ensures NoRepeat(months) && |months| == Ordinal(end) - Ordinal(start) + 1
  {
    var first, last := Ordinal(start), Ordinal(end);
    HorizonHolds(first, last, 0);
    forall i, j | 0 <= i < j < |months| ensures months[i] != months[j] {
      HorizonHolds(first, last, i);
      HorizonHolds(first, last, j);
      if months[i] == months[j] {
        MonthTextIsInjective(first + i, first + j);
      }
    }
  }
}
