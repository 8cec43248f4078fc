/**
 Reconstruction of the frozen eligibility tables: nested loops append rows to shared tables, and
 the tables are exactly the occurrences in the dataset, each under an identity of its own.
 */
module EligibilityRows {
  import opened Wrappers
  import opened Json
  import opened DecimalText
  import opened Repetition
  import opened ScalarPointers
  import opened RowIdentity

  // -- Where things are -----------------------------------------------------

  function Months(): seq<Step> { [Key("source_months")] }

  function Root(i: nat): seq<Step> { Months() + [Index(i)] }

  function EvidenceKind(i: nat): seq<Step> { Root(i) + [Key("evidence_kind")] }

  predicate EvaluatedOnly(d: Json, i: nat)
    requires WellFormed(d)
  {
    Walk(d, EvidenceKind(i)) == Some(Text("EVALUATED_ONLY"))
  }

  function Proposal(d: Json, i: nat): seq<Step>
    requires WellFormed(d)
  {
    Root(i) + if EvaluatedOnly(d, i) then [Key("proposal")] else [Key("receipt"), Key("approval"), Key("proposal")]
  }

  function Evaluation(d: Json, i: nat): seq<Step>
    requires WellFormed(d)
  {
    Proposal(d, i) + [Key("evaluation")]
  }

  function Members(d: Json, i: nat): seq<Step>
    requires WellFormed(d)
  {
    Evaluation(d, i) + [Key("portfolios")]
  }

  function Assessments(d: Json, i: nat, p: nat): seq<Step>
    requires WellFormed(d)
  {
    Members(d, i) + [Index(p), Key("assessments")]
  }

  function KindName(unknown: bool): string {
    if unknown then "unknown_reasons" else "failure_reasons"
  }

  function Reasons(d: Json, i: nat, p: nat, a: nat, unknown: bool): seq<Step>
    requires WellFormed(d)
  {
    Assessments(d, i, p) + [Index(a), Key(KindName(unknown))]
  }

  function MembershipName(current: bool): string {
    if current then "membership" else "parent_membership"
  }

  function Decisions(i: nat, current: bool): seq<Step> {
    Root(i) + [Key(MembershipName(current)), Key("decisions")]
  }

  function Disclosures(): seq<Step> { [Key("report_facts"), Key("disclosures")] }

  predicate IsArray(d: Json, path: seq<Step>)
    requires WellFormed(d)
  {
    Walk(d, path).Some? && Walk(d, path).value.Array?
  }

  /** The length of the array at a path the contract guarantees. */
  function Len(d: Json, path: seq<Step>): nat
    requires WellFormed(d)
  {
    if IsArray(d, path) then |Walk(d, path).value.items| else 0
  }

  /** What the content contract has already established when rows are reconstructed. */
  ghost predicate Admitted(d: Json)
    requires WellFormed(d)
  {
    && IsArray(d, Months()) && IsArray(d, Disclosures())
    && forall i: nat :: i < Len(d, Months()) ==>
         && (EvaluatedOnly(d, i) || Walk(d, EvidenceKind(i)) == Some(Text("PUBLISHED")))
         && (!EvaluatedOnly(d, i) ==> IsArray(d, Decisions(i, true)) && IsArray(d, Decisions(i, false)))
         && IsArray(d, Members(d, i))
         && forall p: nat :: p < Len(d, Members(d, i)) ==>
              && IsArray(d, Assessments(d, i, p))
              && forall a: nat :: a < Len(d, Assessments(d, i, p)) ==>
                   IsArray(d, Reasons(d, i, p, a, false)) && IsArray(d, Reasons(d, i, p, a, true))
  }

  // -- Identities -----------------------------------------------------------

  datatype RowId =
    | MonthRow(month: nat)
    | MemberRow(month: nat, member: nat)
    | AssessmentRow(month: nat, member: nat, assessment: nat)
    | ReasonRow(month: nat, member: nat, assessment: nat, unknown: bool, ordinal: nat)
    | NoReasons(month: nat)
    | DecisionRow(month: nat, current: bool, ordinal: nat)
    | NoHistory(month: nat)
    | SourceRow(month: nat, ordinal: nat)
    | DisclosureRow(ordinal: nat)

  function Fields(id: RowId): (fields: seq<string>)
    ensures fields != []
  {
    match id
    case MonthRow(i) => [Tag('m', i)]
    case MemberRow(i, p) => [Tag('m', i), Tag('p', p)]
    case AssessmentRow(i, p, a) => [Tag('m', i), Tag('p', p), Tag('a', a)]
    case ReasonRow(i, p, a, unknown, o) => [Tag('m', i), Tag('p', p), Tag('a', a), KindName(unknown), Decimal(o)]
    case NoReasons(i) => [Tag('m', i), "not_applicable"]
    case DecisionRow(i, current, o) => [Tag('m', i), MembershipName(current), Tag('d', o)]
    case NoHistory(i) => [Tag('m', i), "unavailable"]
    case SourceRow(i, o) => [Tag('m', i), Tag('s', o)]
    case DisclosureRow(o) => [Tag('d', o)]
  }

  function RowText(id: RowId): string {
    Join(Fields(id))
  }

  lemma NamesArePlain()
    ensures forall unknown :: ':' !in KindName(unknown)
    ensures forall current :: ':' !in MembershipName(current)
    ensures ':' !in "not_applicable" && ':' !in "unavailable"
  {
  }

  lemma TagIsPlain(c: char, n: nat)
    requires c != ':'
    ensures ':' !in Tag(c, n) && ':' !in Decimal(n)
  {
  }

  lemma FieldsArePlain(id: RowId)
    ensures Plain(Fields(id))
  {
    NamesArePlain();
    forall c, n: nat | c != ':' ensures ':' !in Tag(c, n) && ':' !in Decimal(n) {
      TagIsPlain(c, n);
    }
  }

  lemma FieldsAreInjective(a: RowId, b: RowId)
    requires Fields(a) == Fields(b)
    ensures a == b
  {
    var f := Fields(a);
    forall c, d, n: nat, m: nat | Tag(c, n) == Tag(d, m) ensures c == d && n == m {
      TagIsInjective(c, n, d, m);
    }
    forall n: nat, m: nat | Decimal(n) == Decimal(m) ensures n == m {
      DecimalIsInjective(n, m);
    }
    assert f[0] == Fields(b)[0];
    assert |f| > 1 ==> f[1] == Fields(b)[1] && f[1][0] == Fields(b)[1][0];
    assert |f| > 2 ==> f[2] == Fields(b)[2] && f[2][0] == Fields(b)[2][0];
    assert |f| > 3 ==> f[3] == Fields(b)[3] && f[3][0] == Fields(b)[3][0];
    assert |f| > 4 ==> f[4] == Fields(b)[4];
  }

  /** Different occurrences never spell the same identity. */
  lemma RowTextIsInjective(a: RowId, b: RowId)
    requires RowText(a) == RowText(b)
    ensures a == b
  {
    FieldsArePlain(a);
    FieldsArePlain(b);
    JoinIsInjective(Fields(a), Fields(b));
    FieldsAreInjective(a, b);
  }

  // -- The tables, as lists of identities -----------------------------------

  // Each closure is one level of the nest of loops; `Flat` runs it.

  function MonthMembers(d: Json): nat -> seq<RowId>
    requires WellFormed(d)
  {
    (i: nat) => Flat(Len(d, Members(d, i)), MemberOf(i))
  }

  function MemberOf(i: nat): nat -> seq<RowId> {
    (p: nat) => [MemberRow(i, p)]
  }

  function MonthAssessments(d: Json): nat -> seq<RowId>
    requires WellFormed(d)
  {
    (i: nat) => Flat(Len(d, Members(d, i)), MemberAssessments(d, i))
  }

  function MemberAssessments(d: Json, i: nat): nat -> seq<RowId>
    requires WellFormed(d)
  {
    (p: nat) => Flat(Len(d, Assessments(d, i, p)), AssessmentOf(i, p))
  }

  function AssessmentOf(i: nat, p: nat): nat -> seq<RowId> {
    (a: nat) => [AssessmentRow(i, p, a)]
  }

  function MonthReasonsOrNone(d: Json): nat -> seq<RowId>
    requires WellFormed(d)
  {
    (i: nat) => if MonthReasons(d, i) == [] then [NoReasons(i)] else MonthReasons(d, i)
  }

  function MonthReasons(d: Json, i: nat): seq<RowId>
    requires WellFormed(d)
  {
    Flat(Len(d, Members(d, i)), MemberReasons(d, i))
  }

  function MemberReasons(d: Json, i: nat): nat -> seq<RowId>
    requires WellFormed(d)
  {
    (p: nat) => Flat(Len(d, Assessments(d, i, p)), AssessmentReasons(d, i, p))
  }

  function AssessmentReasons(d: Json, i: nat, p: nat): nat -> seq<RowId>
    requires WellFormed(d)
  {
    (a: nat) => KindReasons(d, i, p, a, false) + KindReasons(d, i, p, a, true)
  }

  function KindReasons(d: Json, i: nat, p: nat, a: nat, unknown: bool): seq<RowId>
    requires WellFormed(d)
  {
    Flat(Len(d, Reasons(d, i, p, a, unknown)), ReasonOf(i, p, a, unknown))
  }

  function ReasonOf(i: nat, p: nat, a: nat, unknown: bool): nat -> seq<RowId> {
    (o: nat) => [ReasonRow(i, p, a, unknown, o)]
  }

  function MonthHistory(d: Json): nat -> seq<RowId>
    requires WellFormed(d)
  {
    (i: nat) => if EvaluatedOnly(d, i) then [NoHistory(i)] else MonthDecisions(d, i, false) + MonthDecisions(d, i, true)
  }

  function MonthDecisions(d: Json, i: nat, current: bool): seq<RowId>
    requires WellFormed(d)
  {
    Flat(Len(d, Decisions(i, current)), DecisionOf(i, current))
  }

  function DecisionOf(i: nat, current: bool): nat -> seq<RowId> {
    (o: nat) => [DecisionRow(i, current, o)]
  }

  function MonthLineage(d: Json): nat -> seq<RowId>
    requires WellFormed(d)
  {
    (i: nat) => Flat(if EvaluatedOnly(d, i) then 1 else 5, SourceOf(i))
  }

  function SourceOf(i: nat): nat -> seq<RowId> {
    (o: nat) => [SourceRow(i, o)]
  }

  function MonthOf(): nat -> seq<RowId> {
    (i: nat) => [MonthRow(i)]
  }

  function DisclosureOf(): nat -> seq<RowId> {
    (o: nat) => [DisclosureRow(o)]
  }

  datatype Table =
    | Summary | Methods | MembersTable | AssessmentsTable | ReasonsTable | History | Lineage | DisclosuresTable

  function Ids(d: Json, table: Table): seq<RowId>
    requires WellFormed(d)
  {
    var n := Len(d, Months());
    match table
    case Summary => Flat(n, MonthOf())
    case Methods => Flat(n, MonthOf())
    case MembersTable => Flat(n, MonthMembers(d))
    case AssessmentsTable => Flat(n, MonthAssessments(d))
    case ReasonsTable => Flat(n, MonthReasonsOrNone(d))
    case History => Flat(n, MonthHistory(d))
    case Lineage => Flat(n, MonthLineage(d))
    case DisclosuresTable => Flat(Len(d, Disclosures()), DisclosureOf())
  }

  // -- Exactness ------------------------------------------------------------

  /** Which identities a table is for. */
  predicate Belongs(table: Table, id: RowId) {
    match table
    case Summary => id.MonthRow?
    case Methods => id.MonthRow?
    case MembersTable => id.MemberRow?
    case AssessmentsTable => id.AssessmentRow?
    case ReasonsTable => id.ReasonRow? || id.NoReasons?
    case History => id.DecisionRow? || id.NoHistory?
    case Lineage => id.SourceRow?
    case DisclosuresTable => id.DisclosureRow?
  }

  predicate MemberOccurs(d: Json, i: nat, p: nat)
    requires WellFormed(d)
  {
    i < Len(d, Months()) && p < Len(d, Members(d, i))
  }

  predicate ReasonOccurs(d: Json, i: nat, p: nat, a: nat, unknown: bool, o: nat)
    requires WellFormed(d)
  {
    && MemberOccurs(d, i, p) && a < Len(d, Assessments(d, i, p))
    && o < Len(d, Reasons(d, i, p, a, unknown))
  }

  ghost predicate HasReasons(d: Json, i: nat)
    requires WellFormed(d)
  {
    exists p: nat, a: nat, unknown: bool, o: nat :: ReasonOccurs(d, i, p, a, unknown, o)
  }

  /** What each identity stands for in the dataset. */
  ghost predicate Occurs(d: Json, id: RowId)
    requires WellFormed(d)
  {
    match id
    case MonthRow(i) => i < Len(d, Months())
    case MemberRow(i, p) => MemberOccurs(d, i, p)
    case AssessmentRow(i, p, a) => MemberOccurs(d, i, p) && a < Len(d, Assessments(d, i, p))
    case ReasonRow(i, p, a, unknown, o) => ReasonOccurs(d, i, p, a, unknown, o)
    case NoReasons(i) => i < Len(d, Months()) && !HasReasons(d, i)
    case DecisionRow(i, current, o) =>
      i < Len(d, Months()) && !EvaluatedOnly(d, i) && o < Len(d, Decisions(i, current))
    case NoHistory(i) => i < Len(d, Months()) && EvaluatedOnly(d, i)
    case SourceRow(i, o) => i < Len(d, Months()) && o < if EvaluatedOnly(d, i) then 1 else 5
    case DisclosureRow(o) => o < Len(d, Disclosures())
  }

  function MonthKey(id: RowId): nat {
    if id.DisclosureRow? then id.ordinal else id.month
  }

  function MemberKey(id: RowId): nat {
    if id.MemberRow? || id.AssessmentRow? || id.ReasonRow? then id.member else 0
  }

  function AssessmentKey(id: RowId): nat {
    if id.AssessmentRow? || id.ReasonRow? then id.assessment else 0
  }

  function OrdinalKey(id: RowId): nat {
    if id.ReasonRow? || id.DecisionRow? || id.SourceRow? || id.DisclosureRow? then id.ordinal else 0
  }

  // Reasons, level by level.

  lemma InKindReasons(d: Json, i: nat, p: nat, a: nat, unknown: bool, x: RowId)
    requires WellFormed(d)
    ensures x in KindReasons(d, i, p, a, unknown)
            <==> x == ReasonRow(i, p, a, unknown, OrdinalKey(x)) && OrdinalKey(x) < Len(d, Reasons(d, i, p, a, unknown))
    ensures NoRepeat(KindReasons(d, i, p, a, unknown))
  {
    var n, f := Len(d, Reasons(d, i, p, a, unknown)), ReasonOf(i, p, a, unknown);
    FlatAt(n, f, OrdinalKey, x);
    FlatNoRepeat(n, f, OrdinalKey);
  }

  lemma InAssessmentReasons(d: Json, i: nat, p: nat, a: nat, x: RowId)
    requires WellFormed(d)
    ensures x in AssessmentReasons(d, i, p)(a)
            <==> x.ReasonRow? && x == ReasonRow(i, p, a, x.unknown, x.ordinal)
                 && x.ordinal < Len(d, Reasons(d, i, p, a, x.unknown))
  {
    InKindReasons(d, i, p, a, false, x);
    InKindReasons(d, i, p, a, true, x);
  }

  lemma AssessmentReasonsKeyed(d: Json, i: nat, p: nat)
    requires WellFormed(d)
    ensures Keyed(Len(d, Assessments(d, i, p)), AssessmentReasons(d, i, p), AssessmentKey)
    ensures forall a: nat :: NoRepeat(AssessmentReasons(d, i, p)(a))
  {
    var f := AssessmentReasons(d, i, p);
    forall a: nat, x | x in f(a) ensures AssessmentKey(x) == a {
      InAssessmentReasons(d, i, p, a, x);
    }
    forall a: nat ensures NoRepeat(f(a)) {
      forall x | x in KindReasons(d, i, p, a, false) ensures x !in KindReasons(d, i, p, a, true) {
        InKindReasons(d, i, p, a, false, x);
        InKindReasons(d, i, p, a, true, x);
      }
      InKindReasons(d, i, p, a, false, NoReasons(i));
      InKindReasons(d, i, p, a, true, NoReasons(i));
      NoRepeatConcat(KindReasons(d, i, p, a, false), KindReasons(d, i, p, a, true));
    }
  }

  lemma InMemberReasons(d: Json, i: nat, p: nat, x: RowId)
    requires WellFormed(d)
    ensures x in MemberReasons(d, i)(p)
            <==> x.ReasonRow? && x == ReasonRow(i, p, x.assessment, x.unknown, x.ordinal)
                 && x.assessment < Len(d, Assessments(d, i, p))
                 && x.ordinal < Len(d, Reasons(d, i, p, x.assessment, x.unknown))
    ensures NoRepeat(MemberReasons(d, i)(p))
  {
    var n, f := Len(d, Assessments(d, i, p)), AssessmentReasons(d, i, p);
    AssessmentReasonsKeyed(d, i, p);
    FlatAt(n, f, AssessmentKey, x);
    FlatNoRepeat(n, f, AssessmentKey);
    InAssessmentReasons(d, i, p, AssessmentKey(x), x);
  }

  lemma MemberReasonsKeyed(d: Json, i: nat)
    requires WellFormed(d)
    ensures Keyed(Len(d, Members(d, i)), MemberReasons(d, i), MemberKey)
    ensures forall p: nat :: NoRepeat(MemberReasons(d, i)(p))
  {
    var f := MemberReasons(d, i);
    forall p: nat, x | x in f(p) ensures MemberKey(x) == p {
      InMemberReasons(d, i, p, x);
    }
    forall p: nat ensures NoRepeat(f(p)) {
      InMemberReasons(d, i, p, NoReasons(i));
    }
  }

  lemma InMonthReasons(d: Json, i: nat, x: RowId)
    requires WellFormed(d) && i < Len(d, Months())
    ensures x in MonthReasons(d, i) <==> x.ReasonRow? && x.month == i && Occurs(d, x)
    ensures NoRepeat(MonthReasons(d, i))
  {
    var n, f := Len(d, Members(d, i)), MemberReasons(d, i);
    MemberReasonsKeyed(d, i);
    FlatAt(n, f, MemberKey, x);
    FlatNoRepeat(n, f, MemberKey);
    InMemberReasons(d, i, MemberKey(x), x);
  }

  lemma NoneMeansNone(d: Json, i: nat)
    requires WellFormed(d) && i < Len(d, Months())
    ensures MonthReasons(d, i) == [] <==> !HasReasons(d, i)
  {
    if HasReasons(d, i) {
      var p: nat, a: nat, unknown: bool, o: nat :| ReasonOccurs(d, i, p, a, unknown, o);
      InMonthReasons(d, i, ReasonRow(i, p, a, unknown, o));
    }
    if MonthReasons(d, i) != [] {
      var x := MonthReasons(d, i)[0];
      InMonthReasons(d, i, x);
      assert ReasonOccurs(d, i, x.member, x.assessment, x.unknown, x.ordinal);
    }
  }

  /** One month's share of a table: what is in it, that nothing is in it twice. */
  ghost predicate MonthExact(d: Json, table: Table, f: nat -> seq<RowId>, x: RowId)
    requires WellFormed(d)
  {
    forall i: nat :: i < Len(d, Months()) ==>
      NoRepeat(f(i)) && (x in f(i) <==> Belongs(table, x) && MonthKey(x) == i && Occurs(d, x))
  }

  lemma ReasonsByMonth(d: Json, x: RowId)
    requires WellFormed(d)
    ensures MonthExact(d, ReasonsTable, MonthReasonsOrNone(d), x)
  {
    forall i: nat | i < Len(d, Months())
      ensures var f := MonthReasonsOrNone(d);
              NoRepeat(f(i)) && (x in f(i) <==> Belongs(ReasonsTable, x) && MonthKey(x) == i && Occurs(d, x))
    {
      InMonthReasons(d, i, x);
      NoneMeansNone(d, i);
    }
  }

  lemma MembersByMonth(d: Json, x: RowId)
    requires WellFormed(d)
    ensures MonthExact(d, MembersTable, MonthMembers(d), x)
  {
    forall i: nat | i < Len(d, Months())
      ensures var f := MonthMembers(d);
              NoRepeat(f(i)) && (x in f(i) <==> Belongs(MembersTable, x) && MonthKey(x) == i && Occurs(d, x))
    {
      FlatAt(Len(d, Members(d, i)), MemberOf(i), MemberKey, x);
      FlatNoRepeat(Len(d, Members(d, i)), MemberOf(i), MemberKey);
    }
  }

  lemma InMemberAssessments(d: Json, i: nat, p: nat, x: RowId)
    requires WellFormed(d)
    ensures x in MemberAssessments(d, i)(p)
            <==> x == AssessmentRow(i, p, AssessmentKey(x)) && AssessmentKey(x) < Len(d, Assessments(d, i, p))
    ensures NoRepeat(MemberAssessments(d, i)(p))
  {
    var n, f := Len(d, Assessments(d, i, p)), AssessmentOf(i, p);
    FlatAt(n, f, AssessmentKey, x);
    FlatNoRepeat(n, f, AssessmentKey);
  }

  lemma AssessmentsByMonth(d: Json, x: RowId)
    requires WellFormed(d)
    ensures MonthExact(d, AssessmentsTable, MonthAssessments(d), x)
  {
    forall i: nat | i < Len(d, Months())
      ensures var f := MonthAssessments(d);
              NoRepeat(f(i)) && (x in f(i) <==> Belongs(AssessmentsTable, x) && MonthKey(x) == i && Occurs(d, x))
    {
      var n, g := Len(d, Members(d, i)), MemberAssessments(d, i);
      forall p: nat, y | y in g(p) ensures MemberKey(y) == p { InMemberAssessments(d, i, p, y); }
      forall p: nat ensures NoRepeat(g(p)) { InMemberAssessments(d, i, p, x); }
      FlatAt(n, g, MemberKey, x);
      FlatNoRepeat(n, g, MemberKey);
      InMemberAssessments(d, i, MemberKey(x), x);
    }
  }

  lemma InMonthDecisions(d: Json, i: nat, current: bool, x: RowId)
    requires WellFormed(d)
    ensures x in MonthDecisions(d, i, current)
            <==> x == DecisionRow(i, current, OrdinalKey(x)) && OrdinalKey(x) < Len(d, Decisions(i, current))
    ensures NoRepeat(MonthDecisions(d, i, current))
  {
    var n, f := Len(d, Decisions(i, current)), DecisionOf(i, current);
    FlatAt(n, f, OrdinalKey, x);
    FlatNoRepeat(n, f, OrdinalKey);
  }

  lemma InMonthHistory(d: Json, i: nat, x: RowId)
    requires WellFormed(d) && i < Len(d, Months())
    ensures x in MonthHistory(d)(i) <==> Belongs(History, x) && MonthKey(x) == i && Occurs(d, x)
    ensures NoRepeat(MonthHistory(d)(i))
  {
    InMonthDecisions(d, i, false, x);
    InMonthDecisions(d, i, true, x);
    MonthDecisionsOnce(d, i);
  }

  lemma MonthDecisionsOnce(d: Json, i: nat)
    requires WellFormed(d) && i < Len(d, Months())
    ensures NoRepeat(MonthHistory(d)(i))
  {
    var parent, current := MonthDecisions(d, i, false), MonthDecisions(d, i, true);
    InMonthDecisions(d, i, false, MonthRow(i));
    InMonthDecisions(d, i, true, MonthRow(i));
    if !EvaluatedOnly(d, i) {
      forall y | y in parent ensures y !in current {
        InMonthDecisions(d, i, false, y);
        InMonthDecisions(d, i, true, y);
      }
      NoRepeatConcat(parent, current);
      assert MonthHistory(d)(i) == parent + current;
    }
  }

  lemma HistoryByMonth(d: Json, x: RowId)
    requires WellFormed(d)
    ensures MonthExact(d, History, MonthHistory(d), x)
  {
    forall i: nat | i < Len(d, Months())
      ensures var f := MonthHistory(d);
              NoRepeat(f(i)) && (x in f(i) <==> Belongs(History, x) && MonthKey(x) == i && Occurs(d, x))
    {
      InMonthHistory(d, i, x);
    }
  }

  lemma LineageByMonth(d: Json, x: RowId)
    requires WellFormed(d)
    ensures MonthExact(d, Lineage, MonthLineage(d), x)
  {
    forall i: nat | i < Len(d, Months())
      ensures var f := MonthLineage(d);
              NoRepeat(f(i)) && (x in f(i) <==> Belongs(Lineage, x) && MonthKey(x) == i && Occurs(d, x))
    {
      var n := if EvaluatedOnly(d, i) then 1 else 5;
      FlatAt(n, SourceOf(i), OrdinalKey, x);
      FlatNoRepeat(n, SourceOf(i), OrdinalKey);
    }
  }

  /** From one month to the whole table. */
  lemma AllMonths(d: Json, table: Table, f: nat -> seq<RowId>, id: RowId)
    requires WellFormed(d) && !table.DisclosuresTable?
    requires forall x :: MonthExact(d, table, f, x)
    ensures id in Flat(Len(d, Months()), f) <==> Belongs(table, id) && Occurs(d, id)
    ensures NoRepeat(Flat(Len(d, Months()), f))
  {
    var n := Len(d, Months());
    forall k: nat, x | k < n && x in f(k) ensures MonthKey(x) == k {
      assert MonthExact(d, table, f, x);
    }
    assert MonthExact(d, table, f, id);
    FlatAt(n, f, MonthKey, id);
    FlatNoRepeat(n, f, MonthKey);
  }

  lemma DisclosuresAreExact(d: Json, id: RowId)
    requires WellFormed(d)
    ensures id in Ids(d, DisclosuresTable) <==> Belongs(DisclosuresTable, id) && Occurs(d, id)
    ensures NoRepeat(Ids(d, DisclosuresTable))
  {
    FlatAt(Len(d, Disclosures()), DisclosureOf(), OrdinalKey, id);
    FlatNoRepeat(Len(d, Disclosures()), DisclosureOf(), OrdinalKey);
  }

  lemma MonthsAreExact(d: Json, table: Table, id: RowId)
    requires WellFormed(d) && (table == Summary || table == Methods)
    ensures id in Ids(d, table) <==> Belongs(table, id) && Occurs(d, id)
    ensures NoRepeat(Ids(d, table))
  {
    FlatAt(Len(d, Months()), MonthOf(), MonthKey, id);
    FlatNoRepeat(Len(d, Months()), MonthOf(), MonthKey);
  }

  /**
   Every table holds exactly one identity for each occurrence it is for, and no other: in
   particular one reason row per failure or unknown of every assessment of every member of every
   month, and one not-applicable row exactly for the months that have none.
   */
  lemma EveryTableIsExact(d: Json, table: Table, id: RowId)
    requires WellFormed(d)
    ensures id in Ids(d, table) <==> Belongs(table, id) && Occurs(d, id)
    ensures NoRepeat(Ids(d, table))
  {
    match table {
      case MembersTable =>
        forall x ensures MonthExact(d, table, MonthMembers(d), x) { MembersByMonth(d, x); }
        AllMonths(d, table, MonthMembers(d), id);
      case AssessmentsTable =>
        forall x ensures MonthExact(d, table, MonthAssessments(d), x) { AssessmentsByMonth(d, x); }
        AllMonths(d, table, MonthAssessments(d), id);
      case ReasonsTable =>
        forall x ensures MonthExact(d, table, MonthReasonsOrNone(d), x) { ReasonsByMonth(d, x); }
        AllMonths(d, table, MonthReasonsOrNone(d), id);
      case History =>
        forall x ensures MonthExact(d, table, MonthHistory(d), x) { HistoryByMonth(d, x); }
        AllMonths(d, table, MonthHistory(d), id);
      case Lineage =>
        forall x ensures MonthExact(d, table, MonthLineage(d), x) { LineageByMonth(d, x); }
        AllMonths(d, table, MonthLineage(d), id);
      case DisclosuresTable => DisclosuresAreExact(d, id);
      case _ => MonthsAreExact(d, table, id);
    }
  }

  // -- How many -------------------------------------------------------------

  function ReasonCount(d: Json, i: nat, p: nat): nat -> nat
    requires WellFormed(d)
  {
    (a: nat) => Len(d, Reasons(d, i, p, a, false)) + Len(d, Reasons(d, i, p, a, true))
  }

  function MemberCount(d: Json, i: nat): nat -> nat
    requires WellFormed(d)
  {
    (p: nat) => Total(Len(d, Assessments(d, i, p)), ReasonCount(d, i, p))
  }

  function MonthCount(d: Json): nat -> nat
    requires WellFormed(d)
  {
    (i: nat) => var n := Total(Len(d, Members(d, i)), MemberCount(d, i)); if n == 0 then 1 else n
  }

  function One(): nat -> nat {
    (k: nat) => 1
  }

  lemma {:induction false} TotalOfOnes(n: nat)
    ensures Total(n, One()) == n
  {
    if n > 0 {
      TotalOfOnes(n - 1);
    }
  }

  /** The reason rows number the reasons of all assessments, plus one per month without any. */
  lemma ReasonRowsAreCounted(d: Json)
    requires WellFormed(d)
    ensures |Ids(d, ReasonsTable)| == Total(Len(d, Months()), MonthCount(d))
  {
    forall i: nat ensures |MonthReasonsOrNone(d)(i)| == MonthCount(d)(i) {
      forall p: nat ensures |MemberReasons(d, i)(p)| == MemberCount(d, i)(p) {
        forall a: nat ensures |AssessmentReasons(d, i, p)(a)| == ReasonCount(d, i, p)(a) {
          forall unknown ensures |KindReasons(d, i, p, a, unknown)| == Len(d, Reasons(d, i, p, a, unknown)) {
            var n := Len(d, Reasons(d, i, p, a, unknown));
            FlatLength(n, ReasonOf(i, p, a, unknown), One());
            TotalOfOnes(n);
          }
        }
        FlatLength(Len(d, Assessments(d, i, p)), AssessmentReasons(d, i, p), ReasonCount(d, i, p));
      }
      FlatLength(Len(d, Members(d, i)), MemberReasons(d, i), MemberCount(d, i));
    }
    FlatLength(Len(d, Months()), MonthReasonsOrNone(d), MonthCount(d));
  }

  // -- Cells ----------------------------------------------------------------

  type Cells = map<string, string>

  datatype PointerRow = PointerRow(id: string, cells: Cells)

  function Columns(table: Table): seq<string> {
    match table
    case Summary => ["month", "evidence_kind", "expected_count", "observed_count", "included_count",
                     "excluded_count", "pending_review_count", "population_verification", "official_activation"]
    case MembersTable => ["month", "portfolio_id", "status", "observations_present"]
    case AssessmentsTable => ["month", "portfolio_id", "rule", "outcome", "numerator", "denominator", "ratio",
                              "gross_inflow", "gross_outflow", "admitted_flow_count"]
    case ReasonsTable => ["month", "portfolio_id", "rule", "kind", "reason_code"]
    case History => ["month", "membership_revision", "portfolio_id", "effective_from", "effective_to", "status",
                     "reason_code", "discretionary", "approval_ref", "source_snapshot_id",
                     "supersedes_membership_revision", "affected_from", "affected_to"]
    case Methods => ["month", "profile_kind", "flow_threshold", "cash_threshold", "flow_measure",
                     "flow_breach_operator", "cash_breach_operator", "reentry", "content_hash"]
    case Lineage => ["month", "evidence_kind", "product", "revision", "content_hash", "response_digest"]
    case DisclosuresTable => ["code", "text"]
  }

  /** One pointer per column, each to the member of that name under `base`. */
  function Under(table: Table, base: seq<Step>): Cells {
    map k | k in Columns(table) :: Spell(base + [Key(k)])
  }

  /** One pointer for every column. */
  function Throughout(table: Table, path: seq<Step>): Cells {
    map k | k in Columns(table) :: Spell(path)
  }

  function MonthCell(i: nat): string {
    Spell([Key("selection"), Key("months"), Index(i), Key("month")])
  }

  function Fact(name: string): seq<Step> {
    [Key("report_facts"), Key(name)]
  }

  function Member(d: Json, i: nat, p: nat): seq<Step>
    requires WellFormed(d)
  {
    Members(d, i) + [Index(p)]
  }

  function Assessment(d: Json, i: nat, p: nat, a: nat): seq<Step>
    requires WellFormed(d)
  {
    Assessments(d, i, p) + [Index(a)]
  }

  function SummaryCells(d: Json, i: nat): Cells
    requires WellFormed(d)
  {
    Under(Summary, Evaluation(d, i))["month" := MonthCell(i)]["evidence_kind" := Spell(EvidenceKind(i))]
  }

  function MethodCells(d: Json, i: nat): Cells
    requires WellFormed(d)
  {
    Under(Methods, Evaluation(d, i) + [Key("resolved_policy")])["month" := MonthCell(i)]
  }

  function MemberCells(d: Json, i: nat, p: nat): Cells
    requires WellFormed(d)
  {
    Under(MembersTable, Member(d, i, p))["month" := MonthCell(i)]
  }

  function AssessmentCells(d: Json, i: nat, p: nat, a: nat): Cells
    requires WellFormed(d)
  {
    Under(AssessmentsTable, Assessment(d, i, p, a))
      ["month" := MonthCell(i)]["portfolio_id" := Spell(Member(d, i, p) + [Key("portfolio_id")])]
  }

  function ReasonCells(d: Json, i: nat, p: nat, a: nat, unknown: bool, o: nat): Cells
    requires WellFormed(d)
  {
    map["month" := MonthCell(i),
        "portfolio_id" := Spell(Member(d, i, p) + [Key("portfolio_id")]),
        "rule" := Spell(Assessment(d, i, p, a) + [Key("rule")]),
        "kind" := Spell(Fact("reason_kinds") + [Key(KindName(unknown))]),
        "reason_code" := ReasonCode(d, i, p, a, unknown, o)]
  }

  function NoReasonCells(i: nat): Cells {
    Throughout(ReasonsTable, Fact("no_reasons") + [Key("value")])["month" := MonthCell(i)]
  }

  function NoHistoryCells(i: nat): Cells {
    Throughout(History, Fact("unavailable"))["month" := MonthCell(i)]
  }

  function DecisionCells(i: nat, current: bool, o: nat): Cells {
    var base := Root(i) + [Key(MembershipName(current))];
    Under(History, Decisions(i, current) + [Index(o)])
      ["membership_revision" := Spell(base + [Key("membership_revision")])]
      ["supersedes_membership_revision" := Spell(base + [Key("supersedes_membership_revision")])]
      ["affected_from" := Spell(base + [Key("affected_from")])]
      ["affected_to" := Spell(base + [Key("affected_to")])]
      ["month" := MonthCell(i)]
  }

  /** The products behind a month: where each is, the name of its revision and of its response. */
  function Products(d: Json, i: nat): seq<(seq<Step>, string, string)>
    requires WellFormed(d)
  {
    if EvaluatedOnly(d, i) then [(Proposal(d, i), "evaluation_revision", "proposal")]
    else
      [(Proposal(d, i), "evaluation_revision", "receipt"),
       (Root(i) + [Key("membership")], "membership_revision", "membership"),
       (Root(i) + [Key("parent_membership")], "membership_revision", "parent_membership"),
       (Root(i) + [Key("universe")], "attestation_version", "universe"),
       (Root(i) + [Key("receipt")], "publication_sequence", "receipt")]
  }

  function ProductCells(d: Json, i: nat, product: (seq<Step>, string, string)): Cells
    requires WellFormed(d)
  {
    map["month" := MonthCell(i),
        "evidence_kind" := Spell(EvidenceKind(i)),
        "product" := Spell(product.0 + [Key("product_name")]),
        "revision" := Spell(product.0 + [Key(product.1)]),
        "content_hash" := Spell(product.0 + [Key("content_hash")]),
        "response_digest" := Spell(Root(i) + [Key("response_digests"), Key(product.2)])]
  }

  function DisclosureCells(o: nat): Cells {
    Under(DisclosuresTable, Disclosures() + [Index(o)])
  }

  function CellsOf(d: Json, table: Table, id: RowId): Cells
    requires WellFormed(d)
  {
    match id
    case MonthRow(i) => if table.Summary? then SummaryCells(d, i) else MethodCells(d, i)
    case MemberRow(i, p) => MemberCells(d, i, p)
    case AssessmentRow(i, p, a) => AssessmentCells(d, i, p, a)
    case ReasonRow(i, p, a, unknown, o) => ReasonCells(d, i, p, a, unknown, o)
    case NoReasons(i) => NoReasonCells(i)
    case DecisionRow(i, current, o) => DecisionCells(i, current, o)
    case NoHistory(i) => NoHistoryCells(i)
    case SourceRow(i, o) => if o < |Products(d, i)| then ProductCells(d, i, Products(d, i)[o]) else map[]
    case DisclosureRow(o) => DisclosureCells(o)
  }

  lemma ItemResolves(digits: Digits, d: Json, at: seq<Step>, o: nat)
    requires Proper(digits) && WellFormed(d) && IsArray(d, at) && o < Len(d, at)
    ensures Resolve(digits, d, Spell(at + [Index(o)])) == Some(Walk(d, at).value.items[o])
  {
    WalkStaysWellFormed(d, at);
    WalkOn(d, at, [Index(o)]);
    SpelledPathResolves(digits, d, at + [Index(o)]);
  }

  function ReasonCode(d: Json, i: nat, p: nat, a: nat, unknown: bool, o: nat): string
    requires WellFormed(d)
  {
    Spell(Reasons(d, i, p, a, unknown) + [Index(o)])
  }

  /** A reason row's code cell, evaluated on the dataset, is the occurrence it stands for. */
  lemma ReasonCodeResolves(digits: Digits, d: Json, i: nat, p: nat, a: nat, unknown: bool, o: nat)
    requires Proper(digits) && WellFormed(d) && ReasonOccurs(d, i, p, a, unknown, o)
    ensures var at := Reasons(d, i, p, a, unknown);
            && IsArray(d, at) && o < |Walk(d, at).value.items|
            && Resolve(digits, d, ReasonCode(d, i, p, a, unknown, o)) == Some(Walk(d, at).value.items[o])
  {
    ItemResolves(digits, d, Reasons(d, i, p, a, unknown), o);
  }

  // -- The builder ----------------------------------------------------------

  /** Which cells the row of an occurrence carries. */
  type Layout = (Table, RowId) -> Cells

  function CellLayout(d: Json): Layout
    requires WellFormed(d)
  {
    (table, id) => CellsOf(d, table, id)
  }

  function RowOf(layout: Layout, table: Table, id: RowId): PointerRow {
    PointerRow(RowText(id), layout(table, id))
  }

  function Rows(layout: Layout, table: Table, ids: seq<RowId>): seq<PointerRow> {
    seq(|ids|, k requires 0 <= k < |ids| => RowOf(layout, table, ids[k]))
  }

  lemma RowsConcat(layout: Layout, table: Table, a: seq<RowId>, b: seq<RowId>)
    ensures Rows(layout, table, a + b) == Rows(layout, table, a) + Rows(layout, table, b)
  {
  }

  lemma Extended(was: seq<PointerRow>, a: seq<PointerRow>, b: seq<PointerRow>)
    ensures was + a + b == was + (a + b)
  {
  }

  /** One turn of a loop: what it appended extends what the turns before it appended. */
  lemma OneTurn(layout: Layout, table: Table, k: nat, f: nat -> seq<RowId>, was: seq<PointerRow>)
    ensures was + Rows(layout, table, Flat(k, f)) + Rows(layout, table, f(k))
            == was + Rows(layout, table, Flat(k + 1, f))
  {
    RowsConcat(layout, table, Flat(k, f), f(k));
    Extended(was, Rows(layout, table, Flat(k, f)), Rows(layout, table, f(k)));
  }

  lemma OneRow(layout: Layout, table: Table, k: nat, f: nat -> seq<RowId>, was: seq<PointerRow>, id: RowId)
    requires f(k) == [id]
    ensures was + Rows(layout, table, Flat(k, f)) + [RowOf(layout, table, id)]
            == was + Rows(layout, table, Flat(k + 1, f))
  {
    assert Rows(layout, table, [id]) == [RowOf(layout, table, id)];
    OneTurn(layout, table, k, f, was);
  }

  lemma BothKinds(layout: Layout, d: Json, i: nat, p: nat, a: nat, was: seq<PointerRow>)
    requires WellFormed(d)
    ensures was + Rows(layout, ReasonsTable, KindReasons(d, i, p, a, false))
                + Rows(layout, ReasonsTable, KindReasons(d, i, p, a, true))
            == was + Rows(layout, ReasonsTable, AssessmentReasons(d, i, p)(a))
  {
    var failures, unknowns := KindReasons(d, i, p, a, false), KindReasons(d, i, p, a, true);
    assert AssessmentReasons(d, i, p)(a) == failures + unknowns;
    RowsConcat(layout, ReasonsTable, failures, unknowns);
    Extended(was, Rows(layout, ReasonsTable, failures), Rows(layout, ReasonsTable, unknowns));
  }

  lemma BothVersions(layout: Layout, d: Json, i: nat, was: seq<PointerRow>)
    requires WellFormed(d) && !EvaluatedOnly(d, i)
    ensures was + Rows(layout, History, MonthDecisions(d, i, false)) + Rows(layout, History, MonthDecisions(d, i, true))
            == was + Rows(layout, History, MonthHistory(d)(i))
  {
    var parent, current := MonthDecisions(d, i, false), MonthDecisions(d, i, true);
    assert MonthHistory(d)(i) == parent + current;
    RowsConcat(layout, History, parent, current);
    Extended(was, Rows(layout, History, parent), Rows(layout, History, current));
  }

  // The identity each append spells is the text of its row.

  lemma MonthText(i: nat)
    ensures RowText(MonthRow(i)) == Tag('m', i)
  {
  }

  lemma MemberText(i: nat, p: nat)
    ensures RowText(MemberRow(i, p)) == Tag('m', i) + ":" + Tag('p', p)
  {
    JoinAppend([Tag('m', i)], Tag('p', p));
    assert Fields(MemberRow(i, p)) == [Tag('m', i)] + [Tag('p', p)];
  }

  lemma AssessmentText(i: nat, p: nat, a: nat)
    ensures RowText(AssessmentRow(i, p, a)) == RowText(MemberRow(i, p)) + ":" + Tag('a', a)
  {
    JoinAppend([Tag('m', i), Tag('p', p)], Tag('a', a));
    assert Fields(AssessmentRow(i, p, a)) == [Tag('m', i), Tag('p', p)] + [Tag('a', a)];
  }

  lemma ReasonText(i: nat, p: nat, a: nat, unknown: bool, o: nat)
    ensures RowText(ReasonRow(i, p, a, unknown, o))
            == RowText(AssessmentRow(i, p, a)) + ":" + KindName(unknown) + ":" + Decimal(o)
  {
    var m := [Tag('m', i), Tag('p', p), Tag('a', a)];
    JoinAppend(m, KindName(unknown));
    JoinAppend(m + [KindName(unknown)], Decimal(o));
    assert Fields(ReasonRow(i, p, a, unknown, o)) == m + [KindName(unknown)] + [Decimal(o)];
  }

  lemma NoReasonsText(i: nat)
    ensures RowText(NoReasons(i)) == Tag('m', i) + ":" + "not_applicable"
  {
    JoinAppend([Tag('m', i)], "not_applicable");
    assert Fields(NoReasons(i)) == [Tag('m', i)] + ["not_applicable"];
  }

  lemma NoHistoryText(i: nat)
    ensures RowText(NoHistory(i)) == Tag('m', i) + ":" + "unavailable"
  {
    JoinAppend([Tag('m', i)], "unavailable");
    assert Fields(NoHistory(i)) == [Tag('m', i)] + ["unavailable"];
  }

  lemma DecisionText(i: nat, current: bool, o: nat)
    ensures RowText(DecisionRow(i, current, o)) == Tag('m', i) + ":" + MembershipName(current) + ":" + Tag('d', o)
  {
    JoinAppend([Tag('m', i)], MembershipName(current));
    JoinAppend([Tag('m', i), MembershipName(current)], Tag('d', o));
    assert Fields(DecisionRow(i, current, o)) == [Tag('m', i), MembershipName(current)] + [Tag('d', o)];
  }

  lemma SourceText(i: nat, o: nat)
    ensures RowText(SourceRow(i, o)) == Tag('m', i) + ":" + Tag('s', o)
  {
    JoinAppend([Tag('m', i)], Tag('s', o));
    assert Fields(SourceRow(i, o)) == [Tag('m', i)] + [Tag('s', o)];
  }

  lemma DisclosureText(o: nat)
    ensures RowText(DisclosureRow(o)) == Tag('d', o)
  {
  }

  /** The dictionary of row lists the builders share and append to. */
  class EligibilityTables {
    var summary: seq<PointerRow>
    var methods: seq<PointerRow>
    var members: seq<PointerRow>
    var assessments: seq<PointerRow>
    var reasons: seq<PointerRow>
    var history: seq<PointerRow>
    var lineage: seq<PointerRow>
    var disclosures: seq<PointerRow>

    const layout: Layout

    constructor (d: Json)
      requires WellFormed(d)
      ensures layout == CellLayout(d)
      ensures summary == methods == members == assessments == reasons == history == lineage == disclosures == []
    {
      layout := CellLayout(d);
      summary, methods, members, assessments := [], [], [], [];
      reasons, history, lineage, disclosures := [], [], [], [];
    }

    /** `_reason_rows` */
    method ReasonRows(d: Json, i: nat, p: nat, a: nat, identity: string)
      requires WellFormed(d) && identity == RowText(AssessmentRow(i, p, a))
      modifies this`reasons
      ensures reasons == old(reasons) + Rows(layout, ReasonsTable, AssessmentReasons(d, i, p)(a))
    {
      KindRows(d, i, p, a, false, identity);
      KindRows(d, i, p, a, true, identity);
      BothKinds(layout, d, i, p, a, old(reasons));
    }

    /** Its inner loop, for one kind of reason. */
    method KindRows(d: Json, i: nat, p: nat, a: nat, unknown: bool, identity: string)
      requires WellFormed(d) && identity == RowText(AssessmentRow(i, p, a))
      modifies this`reasons
      ensures reasons == old(reasons) + Rows(layout, ReasonsTable, KindReasons(d, i, p, a, unknown))
    {
      for ordinal := 0 to Len(d, Reasons(d, i, p, a, unknown))
        invariant reasons == old(reasons) + Rows(layout, ReasonsTable, Flat(ordinal, ReasonOf(i, p, a, unknown)))
      {
        ReasonText(i, p, a, unknown, ordinal);
        OneRow(layout, ReasonsTable, ordinal, ReasonOf(i, p, a, unknown), old(reasons),
               ReasonRow(i, p, a, unknown, ordinal));
        reasons := reasons + [PointerRow(identity + ":" + KindName(unknown) + ":" + Decimal(ordinal),
                                         layout(ReasonsTable, ReasonRow(i, p, a, unknown, ordinal)))];
      }
    }

    /** `_member_rows` */
    method MemberRows(d: Json, i: nat)
      requires WellFormed(d)
      modifies this`members, this`assessments, this`reasons
      ensures members == old(members) + Rows(layout, MembersTable, MonthMembers(d)(i))
      ensures assessments == old(assessments) + Rows(layout, AssessmentsTable, MonthAssessments(d)(i))
      ensures reasons == old(reasons) + Rows(layout, ReasonsTable, MonthReasonsOrNone(d)(i))
    {
      var reasonCount := |reasons|;
      for p := 0 to Len(d, Members(d, i))
        invariant members == old(members) + Rows(layout, MembersTable, Flat(p, MemberOf(i)))
        invariant assessments == old(assessments) + Rows(layout, AssessmentsTable, Flat(p, MemberAssessments(d, i)))
        invariant reasons == old(reasons) + Rows(layout, ReasonsTable, Flat(p, MemberReasons(d, i)))
      {
        MemberText(i, p);
        OneRow(layout, MembersTable, p, MemberOf(i), old(members), MemberRow(i, p));
        OneTurn(layout, AssessmentsTable, p, MemberAssessments(d, i), old(assessments));
        OneTurn(layout, ReasonsTable, p, MemberReasons(d, i), old(reasons));
        var identity := Tag('m', i) + ":" + Tag('p', p);
        members := members + [PointerRow(identity, layout(MembersTable, MemberRow(i, p)))];
        AssessmentRows(d, i, p, identity);
      }
      NoReasonRow(d, i, reasonCount);
    }

    /** Its inner loop, over one member's assessments. */
    method AssessmentRows(d: Json, i: nat, p: nat, identity: string)
      requires WellFormed(d) && identity == RowText(MemberRow(i, p))
      modifies this`assessments, this`reasons
      ensures assessments == old(assessments) + Rows(layout, AssessmentsTable, MemberAssessments(d, i)(p))
      ensures reasons == old(reasons) + Rows(layout, ReasonsTable, MemberReasons(d, i)(p))
    {
      for a := 0 to Len(d, Assessments(d, i, p))
        invariant assessments == old(assessments) + Rows(layout, AssessmentsTable, Flat(a, AssessmentOf(i, p)))
        invariant reasons == old(reasons) + Rows(layout, ReasonsTable, Flat(a, AssessmentReasons(d, i, p)))
      {
        var assessmentId := identity + ":" + Tag('a', a);
        assert assessmentId == RowText(AssessmentRow(i, p, a)) by { AssessmentText(i, p, a); }
        OneRow(layout, AssessmentsTable, a, AssessmentOf(i, p), old(assessments), AssessmentRow(i, p, a));
        OneTurn(layout, ReasonsTable, a, AssessmentReasons(d, i, p), old(reasons));
        assessments := assessments + [PointerRow(assessmentId, layout(AssessmentsTable, AssessmentRow(i, p, a)))];
        ReasonRows(d, i, p, a, assessmentId);
      }
    }

    /** `_history_rows` */
    method HistoryRows(d: Json, i: nat)
      requires WellFormed(d)
      modifies this`history
      ensures history == old(history) + Rows(layout, History, MonthHistory(d)(i))
    {
      if EvaluatedOnly(d, i) {
        NoHistoryRow(d, i);
      } else {
        DecisionRows(d, i, false);
        DecisionRows(d, i, true);
        BothVersions(layout, d, i, old(history));
      }
    }

    method NoHistoryRow(d: Json, i: nat)
      requires WellFormed(d)
      modifies this`history
      ensures history == old(history) + Rows(layout, History, [NoHistory(i)])
    {
      NoHistoryText(i);
      history := history + [PointerRow(Tag('m', i) + ":" + "unavailable", layout(History, NoHistory(i)))];
    }

    /** Its inner loop, for one membership version. */
    method DecisionRows(d: Json, i: nat, current: bool)
      requires WellFormed(d)
      modifies this`history
      ensures history == old(history) + Rows(layout, History, MonthDecisions(d, i, current))
    {
      for ordinal := 0 to Len(d, Decisions(i, current))
        invariant history == old(history) + Rows(layout, History, Flat(ordinal, DecisionOf(i, current)))
      {
        DecisionText(i, current, ordinal);
        OneRow(layout, History, ordinal, DecisionOf(i, current), old(history), DecisionRow(i, current, ordinal));
        history := history + [PointerRow(Tag('m', i) + ":" + MembershipName(current) + ":" + Tag('d', ordinal),
                                         layout(History, DecisionRow(i, current, ordinal)))];
      }
    }

    /** `_lineage_rows` */
    method LineageRows(d: Json, i: nat)
      requires WellFormed(d)
      modifies this`lineage
      ensures lineage == old(lineage) + Rows(layout, Lineage, MonthLineage(d)(i))
    {
      for ordinal := 0 to |Products(d, i)|
        invariant lineage == old(lineage) + Rows(layout, Lineage, Flat(ordinal, SourceOf(i)))
      {
        SourceText(i, ordinal);
        OneRow(layout, Lineage, ordinal, SourceOf(i), old(lineage), SourceRow(i, ordinal));
        lineage := lineage
                   + [PointerRow(Tag('m', i) + ":" + Tag('s', ordinal), layout(Lineage, SourceRow(i, ordinal)))];
      }
    }

    /** `eligibility_rows`: every table is the rows of its identities, in order. */
    method Build(d: Json)
      requires WellFormed(d) && Admitted(d)
      requires summary == methods == members == assessments == reasons == history == lineage == disclosures == []
      modifies this
      ensures Holds(d, Len(d, Months()))
      ensures disclosures == Rows(layout, DisclosuresTable, Ids(d, DisclosuresTable))
    {
      for i := 0 to Len(d, Months())
        invariant disclosures == []
        invariant Holds(d, i)
      {
        Month(d, i);
      }
      DisclosureRows(d);
    }

    method DisclosureRows(d: Json)
      requires WellFormed(d) && disclosures == []
      modifies this`disclosures
      ensures disclosures == Rows(layout, DisclosuresTable, Ids(d, DisclosuresTable))
    {
      for o := 0 to Len(d, Disclosures())
        invariant disclosures == [] + Rows(layout, DisclosuresTable, Flat(o, DisclosureOf()))
      {
        DisclosureText(o);
        OneRow(layout, DisclosuresTable, o, DisclosureOf(), [], DisclosureRow(o));
        disclosures := disclosures + [PointerRow(Tag('d', o), layout(DisclosuresTable, DisclosureRow(o)))];
      }
    }

    /** The tables after some of the months; after all of them, they are the rows of `Ids`. */
    ghost predicate Holds(d: Json, months: nat)
      requires WellFormed(d)
      reads this
    {
      && summary == [] + Rows(layout, Summary, Flat(months, MonthOf()))
      && methods == [] + Rows(layout, Methods, Flat(months, MonthOf()))
      && members == [] + Rows(layout, MembersTable, Flat(months, MonthMembers(d)))
      && assessments == [] + Rows(layout, AssessmentsTable, Flat(months, MonthAssessments(d)))
      && reasons == [] + Rows(layout, ReasonsTable, Flat(months, MonthReasonsOrNone(d)))
      && history == [] + Rows(layout, History, Flat(months, MonthHistory(d)))
      && lineage == [] + Rows(layout, Lineage, Flat(months, MonthLineage(d)))
    }

    /** A month that added no reason says so. */
    method NoReasonRow(d: Json, i: nat, reasonCount: nat)
      requires WellFormed(d) && reasonCount <= |reasons|
      requires reasons == reasons[..reasonCount] + Rows(layout, ReasonsTable, MonthReasons(d, i))
      modifies this`reasons
      ensures reasons == old(reasons[..reasonCount]) + Rows(layout, ReasonsTable, MonthReasonsOrNone(d)(i))
    {
      if |reasons| == reasonCount {
        NoReasonsText(i);
        reasons := reasons + [PointerRow(Tag('m', i) + ":" + "not_applicable", layout(ReasonsTable, NoReasons(i)))];
      }
    }

    /** One turn of the loop over source months. */
    method Month(d: Json, i: nat)
      requires WellFormed(d) && Holds(d, i)
      modifies this`summary, this`methods, this`members, this`assessments, this`reasons, this`history, this`lineage
      ensures Holds(d, i + 1)
    {
      MonthText(i);
      OneRow(layout, Summary, i, MonthOf(), [], MonthRow(i));
      OneRow(layout, Methods, i, MonthOf(), [], MonthRow(i));
      summary := summary + [PointerRow(Tag('m', i), layout(Summary, MonthRow(i)))];
      methods := methods + [PointerRow(Tag('m', i), layout(Methods, MonthRow(i)))];
      MemberRows(d, i);
      HistoryRows(d, i);
      LineageRows(d, i);
      OneTurn(layout, MembersTable, i, MonthMembers(d), []);
      OneTurn(layout, AssessmentsTable, i, MonthAssessments(d), []);
      OneTurn(layout, ReasonsTable, i, MonthReasonsOrNone(d), []);
      OneTurn(layout, History, i, MonthHistory(d), []);
      OneTurn(layout, Lineage, i, MonthLineage(d), []);
    }
  }
}
