/** The amendment table of the monthly-correction workbook: every typed amendment scalar, in declared order. */
module AmendmentRows {
  import opened Wrappers
  import opened Json
  import opened Repetition
  import opened ScalarPointers
  import opened RowIdentity
  import opened MemberOrder
  import E = EligibilityRows
  import H = HistoricalRows

  // -- The contract type ----------------------------------------------------

  const BINDING: seq<string> := ["product_name", "product_version", "revision", "digest"]

  const AMENDMENT_FIELDS: seq<string> := [
    "correction_kind", "predecessor_approval_binding", "predecessor_receipt_binding", "original_approval_binding",
    "expected_authority_binding", "projection_parent_membership_binding", "expected_current_publication_sequence",
    "affected_from", "affected_to", "reason_code", "reason", "evidence_bindings"]

  function Binding(): Schema { Record(BINDING, [Leaf, Leaf, Leaf, Leaf]) }

  /** `MonthlyAmendment`: its fields in the order the class declares them. */
  function MonthlyAmendment(): Schema {
    Record(AMENDMENT_FIELDS,
           [Leaf, Binding(), Binding(), Binding(), Binding(), Binding(), Leaf,
            Leaf, Leaf, Leaf, Leaf, ListOf(Binding())])
  }

  lemma BindingIsDeclared()
    ensures Declared(Binding())
  {
    assert |BINDING[0]| == 12 && |BINDING[1]| == 15 && |BINDING[2]| == 8 && |BINDING[3]| == 6;
  }

  lemma MonthlyAmendmentIsDeclared()
    ensures Declared(MonthlyAmendment())
  {
    BindingIsDeclared();
    AmendmentFieldsDiffer();
  }

  lemma AmendmentFieldsDiffer()
    ensures NoRepeat(AMENDMENT_FIELDS)
  {
    var sizes := [15, 28, 27, 25, 26, 36, 37, 13, 11, 11, 6, 17];
    assert forall k :: 0 <= k < 12 ==> |AMENDMENT_FIELDS[k]| == sizes[k];
    assert AMENDMENT_FIELDS[8][0] == 'a' && AMENDMENT_FIELDS[9][0] == 'r';
  }

  // -- Which pointers -------------------------------------------------------

  /** A list built turn by turn, refused when a turn is. */
  function Gathered<T>(n: nat, f: nat -> Option<seq<T>>): Option<seq<T>> {
    if n == 0 then Some([])
    else match (Gathered(n - 1, f), f(n - 1))
      case (Some(done), Some(more)) => Some(done + more)
      case _ => None
  }

  function Parts<T>(f: nat -> Option<seq<T>>): nat -> seq<T> {
    (k: nat) => match f(k) case None => [] case Some(part) => part
  }

  lemma {:induction false} GatheredIsFlat<T>(n: nat, f: nat -> Option<seq<T>>)
    ensures Gathered(n, f).Some? <==> forall k: nat :: k < n ==> f(k).Some?
    ensures Gathered(n, f).Some? ==> Gathered(n, f).value == Flat(n, Parts(f))
  {
    if n > 0 {
      GatheredIsFlat(n - 1, f);
    }
  }

  lemma {:induction false} RefusedTurn<T>(n: nat, f: nat -> Option<seq<T>>, k: nat)
    requires k < n && f(k).None?
    ensures Gathered(n, f).None?
  {
    if k < n - 1 {
      RefusedTurn(n - 1, f, k);
    }
  }

  lemma {:induction false} GatheredAgrees<T>(n: nat, f: nat -> Option<seq<T>>, g: nat -> Option<seq<T>>)
    requires forall k: nat :: k < n ==> f(k) == g(k)
    ensures Gathered(n, f) == Gathered(n, g)
  {
    if n > 0 {
      GatheredAgrees(n - 1, f, g);
    }
  }

  /** Validation and dump in one: the amendment as a typed document, or a refusal. */
  type Contract = Json -> Option<Json>

  /** A contract type with the checks it makes of values once they are in their fields. */
  function TypedBy(t: Schema, checks: Json -> bool): Contract
    requires Declared(t)
  {
    (j: Json) => if WellFormed(j) && Fits(t, j) && checks(Typed(t, j)) then Some(Typed(t, j)) else None
  }

  function AmendmentContract(checks: Json -> bool): Contract {
    MonthlyAmendmentIsDeclared();
    TypedBy(MonthlyAmendment(), checks)
  }

  ghost predicate ForgetsOrder(c: Contract) {
    forall a, b :: WellFormed(a) && WellFormed(b) && Same(a, b) ==> c(a) == c(b)
  }

  ghost predicate KeepsTheDocument(c: Contract) {
    forall j :: WellFormed(j) && c(j).Some? ==> WellFormed(c(j).value) && Same(j, c(j).value)
  }

  /** Whatever it checks of the values, a typed dump forgets the order of members and nothing else. */
  lemma TypedByIsFaithful(t: Schema, checks: Json -> bool)
    requires Declared(t)
    ensures ForgetsOrder(TypedBy(t, checks)) && KeepsTheDocument(TypedBy(t, checks))
  {
    forall a, b | WellFormed(a) && WellFormed(b) && Same(a, b) ensures TypedBy(t, checks)(a) == TypedBy(t, checks)(b) {
      TypedForgetsOrder(t, a, b);
    }
    forall j | WellFormed(j) && Fits(t, j) ensures Same(j, Typed(t, j)) {
      TypedIsTheSame(t, j);
    }
  }

  /** `_amendment_pointers` of the value read at one path, listed beneath another. */
  function TypedPointers(c: Contract, d: Json, path: seq<Step>, listed: seq<Step>): Option<seq<string>>
    requires WellFormed(d)
  {
    if Walk(d, path).None? then None
    else match c(Walk(d, path).value)
      case None => None
      case Some(dump) => if WellFormed(dump) then Some(Pointers(dump, Spell(listed), false)) else None
  }

  /** Where the proposal is read: by the member that is there, not by the kind the month claims. */
  function Held(d: Json, i: nat): seq<Step>
    requires WellFormed(d)
  {
    var own := E.Root(i) + [Key("proposal")];
    if Walk(d, own).Some? then own else E.Root(i) + [Key("receipt"), Key("approval"), Key("proposal")]
  }

  function Amendment(proposal: seq<Step>): seq<Step> { proposal + [Key("amendment")] }

  function Receipt(i: nat, position: nat): seq<Step> { H.Receipts(i) + [Index(position)] }

  function Lineage(i: nat, position: nat): seq<Step> { Receipt(i, position) + [Key("lineage")] }

  /** Four facts of a retained receipt, and its lineage when it has one. */
  function ReceiptPointers(c: Contract, d: Json, i: nat): nat -> Option<seq<string>>
    requires WellFormed(d)
  {
    (position: nat) =>
      var facts := H.Facts(Receipt(i, position), H.FACTS);
      if Walk(d, Lineage(i, position)).None? then Some(facts)
      else match TypedPointers(c, d, Lineage(i, position), Lineage(i, position))
        case None => None
        case Some(leaves) => Some(facts + leaves)
  }

  /** The pointers of one month, or a refusal. */
  function MonthPointers(c: Contract, d: Json, i: nat): Option<seq<string>>
    requires WellFormed(d)
  {
    if Walk(d, E.EvidenceKind(i)).None? || !E.IsArray(d, H.Receipts(i)) then None
    else match (TypedPointers(c, d, Amendment(Held(d, i)), Amendment(E.Proposal(d, i))),
                Gathered(E.Len(d, H.Receipts(i)), ReceiptPointers(c, d, i)))
      case (Some(own), Some(kept)) => Some(own + kept)
      case _ => None
  }

  function EntriesOf(i: nat, pointers: seq<string>): seq<H.Entry> {
    seq(|pointers|, k requires 0 <= k < |pointers| => H.Entry(i, None, pointers[k]))
  }

  function MonthOf(c: Contract, d: Json, i: nat): Option<seq<H.Entry>>
    requires WellFormed(d)
  {
    match MonthPointers(c, d, i) case None => None case Some(pointers) => Some(EntriesOf(i, pointers))
  }

  function MonthEntries(c: Contract, d: Json): nat -> Option<seq<H.Entry>>
    requires WellFormed(d)
  {
    (i: nat) => MonthOf(c, d, i)
  }

  function Entries(c: Contract, d: Json): Option<seq<H.Entry>>
    requires WellFormed(d)
  {
    if E.IsArray(d, E.Months()) then Gathered(E.Len(d, E.Months()), MonthEntries(c, d)) else None
  }

  function Table(entries: Option<seq<H.Entry>>): Option<seq<H.Row>> {
    match entries case None => None case Some(es) => Some(H.Numbered(H.RowFor('a'), es))
  }

  // -- The loops ------------------------------------------------------------

  /** The loop over the retained receipts of a month, extending its pointers. */
  method ReceiptLoop(own: seq<string>, n: nat, f: nat -> Option<seq<string>>) returns (pointers: Option<seq<string>>)
    ensures pointers == match Gathered(n, f) case None => None case Some(kept) => Some(own + kept)
  {
    var extended := own;
    for position := 0 to n
      invariant Gathered(position, f).Some? && extended == own + Gathered(position, f).value
    {
      if f(position).None? {
        RefusedTurn(n, f, position);
        return None;
      }
      extended := extended + f(position).value;
    }
    return Some(extended);
  }

  method MonthLoop(c: Contract, d: Json, i: nat) returns (pointers: Option<seq<string>>)
    requires WellFormed(d)
    ensures pointers == MonthPointers(c, d, i)
  {
    if Walk(d, E.EvidenceKind(i)).None? || !E.IsArray(d, H.Receipts(i)) {
      return None;
    }
    var own := TypedPointers(c, d, Amendment(Held(d, i)), Amendment(E.Proposal(d, i)));
    if own.None? {
      return None;
    }
    pointers := ReceiptLoop(own.value, E.Len(d, H.Receipts(i)), ReceiptPointers(c, d, i));
  }

  /** What each month yields, named for the loop over them. */
  ghost predicate Yields(c: Contract, d: Json, months: nat -> Option<seq<H.Entry>>)
    requires WellFormed(d)
  {
    forall i: nat {:trigger MonthOf(c, d, i)} :: MonthOf(c, d, i) == months(i)
  }

  /** One month's turn: its pointers appended as rows, numbered by the length of the table so far. */
  method MonthTurn(c: Contract, d: Json, i: nat, table: seq<H.Row>,
                   ghost done: seq<H.Entry>, ghost months: nat -> Option<seq<H.Entry>>)
    returns (rows: Option<seq<H.Row>>)
    requires WellFormed(d) && Yields(c, d, months) && table == H.Numbered(H.RowFor('a'), done)
    ensures rows == Table(if months(i).Some? then Some(done + months(i).value) else None)
  {
    assert MonthOf(c, d, i) == months(i);
    var pointers := MonthLoop(c, d, i);
    if pointers.None? {
      return None;
    }
    var longer := H.AppendAll(table, H.RowFor('a'), done, EntriesOf(i, pointers.value));
    return Some(longer);
  }

  method MonthsLoop(c: Contract, d: Json, n: nat, ghost months: nat -> Option<seq<H.Entry>>)
    returns (rows: Option<seq<H.Row>>)
    requires WellFormed(d) && Yields(c, d, months)
    ensures rows == Table(Gathered(n, months))
  {
    var table: seq<H.Row> := [];
    ghost var done: seq<H.Entry> := [];
    for i := 0 to n
      invariant Gathered(i, months) == Some(done)
      invariant table == H.Numbered(H.RowFor('a'), done)
    {
      var longer := MonthTurn(c, d, i, table, done, months);
      if longer.None? {
        RefusedTurn(n, months, i);
        return None;
      }
      table, done := longer.value, done + months(i).value;
    }
    return Some(table);
  }

  /** `amendment_rows`: one ordinal through all months. */
  method AmendmentTable(c: Contract, d: Json) returns (rows: Option<seq<H.Row>>)
    requires WellFormed(d)
    ensures rows == Table(Entries(c, d))
    ensures rows.Some? ==> NoRepeat(H.Ids(rows.value))
  {
    if !E.IsArray(d, E.Months()) {
      return None;
    }
    rows := MonthsLoop(c, d, E.Len(d, E.Months()), MonthEntries(c, d));
    if rows.Some? {
      H.OrdinalsIdentifyRows('a', Entries(c, d).value);
    }
  }

  // -- Any replay -----------------------------------------------------------

  lemma SameTyped(c: Contract, a: Json, b: Json, path: seq<Step>, listed: seq<Step>)
    requires ForgetsOrder(c) && WellFormed(a) && WellFormed(b) && Same(a, b)
    ensures TypedPointers(c, a, path, listed) == TypedPointers(c, b, path, listed)
  {
    SameWalk(a, b, path);
  }

  lemma SameReceipts(c: Contract, a: Json, b: Json, i: nat)
    requires ForgetsOrder(c) && WellFormed(a) && WellFormed(b) && Same(a, b)
    ensures Gathered(E.Len(a, H.Receipts(i)), ReceiptPointers(c, a, i))
            == Gathered(E.Len(b, H.Receipts(i)), ReceiptPointers(c, b, i))
  {
    H.SameLeaves(a, b, H.Receipts(i));
    forall k: nat ensures ReceiptPointers(c, a, i)(k) == ReceiptPointers(c, b, i)(k) {
      SameWalk(a, b, Lineage(i, k));
      SameTyped(c, a, b, Lineage(i, k), Lineage(i, k));
    }
    GatheredAgrees(E.Len(a, H.Receipts(i)), ReceiptPointers(c, a, i), ReceiptPointers(c, b, i));
  }

  lemma SameMonth(c: Contract, a: Json, b: Json, i: nat)
    requires ForgetsOrder(c) && WellFormed(a) && WellFormed(b) && Same(a, b)
    ensures MonthPointers(c, a, i) == MonthPointers(c, b, i)
  {
    SameWalk(a, b, E.EvidenceKind(i));
    SameWalk(a, b, H.Receipts(i));
    SameWalk(a, b, E.Root(i) + [Key("proposal")]);
    H.SameProposal(a, b, i);
    SameTyped(c, a, b, Amendment(Held(a, i)), Amendment(E.Proposal(a, i)));
    SameReceipts(c, a, b, i);
  }

  lemma AnyReplayKeepsTheTable(c: Contract, a: Json, b: Json)
    requires ForgetsOrder(c) && WellFormed(a) && WellFormed(b) && Same(a, b)
    ensures Table(Entries(c, a)) == Table(Entries(c, b))
  {
    SameWalk(a, b, E.Months());
    forall i: nat ensures MonthEntries(c, a)(i) == MonthEntries(c, b)(i) {
      SameMonth(c, a, b, i);
    }
    GatheredAgrees(E.Len(a, E.Months()), MonthEntries(c, a), MonthEntries(c, b));
  }

  /** Whatever order a replay puts the members in, at any depth, it is refused alike and gives the same rows. */
  lemma AnyReplayKeepsTheRows(checks: Json -> bool, a: Json, b: Json)
    requires WellFormed(a) && WellFormed(b) && Same(a, b)
    ensures Table(Entries(AmendmentContract(checks), a)) == Table(Entries(AmendmentContract(checks), b))
  {
    MonthlyAmendmentIsDeclared();
    TypedByIsFaithful(MonthlyAmendment(), checks);
    AnyReplayKeepsTheTable(AmendmentContract(checks), a, b);
  }

  // -- What a month lists ---------------------------------------------------

  lemma TypedPointersLieBeneath(c: Contract, d: Json, path: seq<Step>, listed: seq<Step>)
    requires WellFormed(d) && TypedPointers(c, d, path, listed).Some?
    ensures var ps := TypedPointers(c, d, path, listed).value; NoRepeat(ps) && H.AllBeneath(ps, listed)
  {
    var dump := c(Walk(d, path).value).value;
    var ps := TypedPointers(c, d, path, listed).value;
    ListsEachLeafOnce(dump, Spell(listed), false);
    forall x | x in ps ensures H.Beneath(x, listed) {
      var rest := ListedIsALeaf(dump, Spell(listed), false, x);
      SpellOn(listed, rest);
    }
  }

  /** A leaf below one path, under the pointer that spells it below another. */
  ghost predicate LeafAt(d: Json, path: seq<Step>, listed: seq<Step>, x: string)
    requires WellFormed(d)
  {
    exists rest :: IsLeaf(d, path + rest) && x == Spell(listed + rest)
  }

  /** What is listed are the leaves of the amendment as it came in. */
  lemma TypedPointersAreTheLeaves(c: Contract, d: Json, path: seq<Step>, listed: seq<Step>, x: string)
    requires KeepsTheDocument(c) && WellFormed(d) && TypedPointers(c, d, path, listed).Some?
    ensures x in TypedPointers(c, d, path, listed).value <==> LeafAt(d, path, listed, x)
  {
    WalkStaysWellFormed(d, path);
    var value := Walk(d, path).value;
    ListsTheSameLeaves(value, c(value).value, Spell(listed), x);
    forall rest
      ensures Walk(d, path + rest) == Walk(value, rest) && Spell(listed + rest) == Spell(listed) + Spell(rest)
    {
      WalkOn(d, path, rest);
      SpellOn(listed, rest);
    }
    if rest :| IsLeaf(value, rest) && x == Spell(listed) + Spell(rest) {
      assert IsLeaf(d, path + rest) && x == Spell(listed + rest);
    }
    if rest :| IsLeaf(d, path + rest) && x == Spell(listed + rest) {
      assert IsLeaf(value, rest);
    }
  }

  lemma ReceiptListsOnce(c: Contract, d: Json, i: nat, k: nat)
    requires WellFormed(d)
    ensures var ps := Parts(ReceiptPointers(c, d, i))(k); NoRepeat(ps) && H.AllBeneath(ps, Receipt(i, k))
  {
    if ReceiptPointers(c, d, i)(k).Some? {
      var receipt := Receipt(i, k);
      var facts := H.Facts(receipt, H.FACTS);
      H.OneReceiptOnce(d, receipt, H.FACTS, "lineage");
      if Walk(d, Lineage(i, k)).Some? {
        var leaves := TypedPointers(c, d, Lineage(i, k), Lineage(i, k)).value;
        TypedPointersLieBeneath(c, d, Lineage(i, k), Lineage(i, k));
        FactsAreNoLineage(receipt, leaves);
        H.AllHigher(leaves, receipt, Key("lineage"));
        NoRepeatConcat(facts, leaves);
      }
    }
  }

  lemma FactsAreNoLineage(receipt: seq<Step>, leaves: seq<string>)
    requires H.AllBeneath(leaves, receipt + [Key("lineage")])
    ensures forall x :: x in H.Facts(receipt, H.FACTS) ==> x !in leaves
  {
    H.FactsLieBeneath(receipt, H.FACTS);
    forall x | x in H.Facts(receipt, H.FACTS) ensures x !in leaves {
      var k :| 0 <= k < |H.FACTS| && H.Beneath(x, receipt + [Key(H.FACTS[k])]);
      if x in leaves {
        H.Apart(x, receipt + [Key(H.FACTS[k])], receipt + [Key("lineage")], |receipt|);
      }
    }
  }

  /** A month lists no amendment pointer twice: not in its own amendment, not in or across its receipts. */
  lemma MonthListsOnce(c: Contract, d: Json, i: nat)
    requires WellFormed(d) && MonthPointers(c, d, i).Some?
    ensures NoRepeat(MonthPointers(c, d, i).value)
  {
    var n, f := E.Len(d, H.Receipts(i)), ReceiptPointers(c, d, i);
    var amendment := Amendment(E.Proposal(d, i));
    var own := TypedPointers(c, d, Amendment(Held(d, i)), amendment).value;
    GatheredIsFlat(n, f);
    TypedPointersLieBeneath(c, d, Amendment(Held(d, i)), amendment);
    forall k: nat ensures NoRepeat(Parts(f)(k)) && forall x :: x in Parts(f)(k) ==> H.Beneath(x, Receipt(i, k)) {
      ReceiptListsOnce(c, d, i, k);
    }
    H.PositionsApart(H.Receipts(i), n, Parts(f));
    H.ProposalIsNoReceipt(d, i, amendment);
    forall x | x in own ensures x !in Flat(n, Parts(f)) {
      H.MembersApart(x, amendment, H.Receipts(i), 2);
    }
    NoRepeatConcat(own, Flat(n, Parts(f)));
  }

  /** One of the four facts of a retained receipt. */
  ghost predicate IsFact(d: Json, i: nat, x: string)
    requires WellFormed(d)
  {
    exists k: nat :: k < E.Len(d, H.Receipts(i)) && x in H.Facts(Receipt(i, k), H.FACTS)
  }

  /** A scalar of the amendment or of a lineage, under the pointer the table gives it. */
  ghost predicate IsAmendmentScalar(d: Json, i: nat, x: string)
    requires WellFormed(d)
  {
    || LeafAt(d, Amendment(Held(d, i)), Amendment(E.Proposal(d, i)), x)
    || exists k: nat :: k < E.Len(d, H.Receipts(i)) && LeafAt(d, Lineage(i, k), Lineage(i, k), x)
  }

  lemma ReceiptListsExactly(c: Contract, d: Json, i: nat, k: nat, x: string)
    requires KeepsTheDocument(c) && WellFormed(d) && ReceiptPointers(c, d, i)(k).Some?
    ensures x in ReceiptPointers(c, d, i)(k).value <==>
            x in H.Facts(Receipt(i, k), H.FACTS) || LeafAt(d, Lineage(i, k), Lineage(i, k), x)
  {
    if Walk(d, Lineage(i, k)).Some? {
      TypedPointersAreTheLeaves(c, d, Lineage(i, k), Lineage(i, k), x);
    } else {
      forall rest ensures !IsLeaf(d, Lineage(i, k) + rest) {
        NoWayOn(d, Lineage(i, k), rest);
      }
    }
  }

  lemma {:induction false} NoWayOn(d: Json, path: seq<Step>, rest: seq<Step>)
    requires WellFormed(d) && Walk(d, path).None?
    ensures Walk(d, path + rest).None?
    decreases |path|
  {
    if Has(d, path[0]) {
      assert (path + rest)[1..] == path[1..] + rest;
      NoWayOn(Child(d, path[0]), path[1..], rest);
    }
  }

  lemma ListsExactly(c: Contract, d: Json, i: nat, x: string)
    requires KeepsTheDocument(c) && WellFormed(d) && MonthPointers(c, d, i).Some?
    ensures x in MonthPointers(c, d, i).value <==> IsFact(d, i, x) || IsAmendmentScalar(d, i, x)
  {
    var n, f := E.Len(d, H.Receipts(i)), ReceiptPointers(c, d, i);
    GatheredIsFlat(n, f);
    TypedPointersAreTheLeaves(c, d, Amendment(Held(d, i)), Amendment(E.Proposal(d, i)), x);
    forall k: nat | k < n
      ensures x in Parts(f)(k) <==>
              x in H.Facts(Receipt(i, k), H.FACTS) || LeafAt(d, Lineage(i, k), Lineage(i, k), x)
    {
      ReceiptListsExactly(c, d, i, k, x);
    }
    InFlatIff(n, Parts(f), x);
  }

  /** And holds every scalar of the amendment and of the lineages, the four facts of each receipt, and nothing else. */
  lemma MonthListsExactly(checks: Json -> bool, d: Json, i: nat, x: string)
    requires WellFormed(d) && MonthPointers(AmendmentContract(checks), d, i).Some?
    ensures x in MonthPointers(AmendmentContract(checks), d, i).value
            <==> IsFact(d, i, x) || IsAmendmentScalar(d, i, x)
  {
    MonthlyAmendmentIsDeclared();
    TypedByIsFaithful(MonthlyAmendment(), checks);
    ListsExactly(AmendmentContract(checks), d, i, x);
  }

  lemma {:induction false} InFlatIff<T>(n: nat, f: nat -> seq<T>, x: T)
    ensures x in Flat(n, f) <==> exists k: nat :: k < n && x in f(k)
  {
    if n > 0 {
      InFlatIff(n - 1, f, x);
    }
  }

  lemma LeafResolves(digits: Digits, d: Json, path: seq<Step>, x: string)
    requires Proper(digits) && WellFormed(d) && LeafAt(d, path, path, x)
    ensures Resolve(digits, d, x).Some? && Scalar(Resolve(digits, d, x).value)
  {
    var rest :| IsLeaf(d, path + rest) && x == Spell(path + rest);
    SpelledPathResolves(digits, d, path + rest);
  }

  /** Read where it is listed, every amendment scalar evaluates on the whole dataset to a scalar. */
  lemma ScalarsResolve(digits: Digits, d: Json, i: nat, x: string)
    requires Proper(digits) && WellFormed(d) && Held(d, i) == E.Proposal(d, i) && IsAmendmentScalar(d, i, x)
    ensures Resolve(digits, d, x).Some? && Scalar(Resolve(digits, d, x).value)
  {
    var amendment := Amendment(Held(d, i));
    if LeafAt(d, amendment, amendment, x) {
      LeafResolves(digits, d, amendment, x);
    } else {
      var k: nat :| k < E.Len(d, H.Receipts(i)) && LeafAt(d, Lineage(i, k), Lineage(i, k), x);
      LeafResolves(digits, d, Lineage(i, k), x);
    }
  }
}
