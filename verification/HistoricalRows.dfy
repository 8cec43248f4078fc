/**
 The amendment and admission tables of the historical workbook: every scalar of the amendment and
 proof evidence under one running ordinal, the same after a sorted replay of the dataset.
 */
module HistoricalRows {
  import opened Wrappers
  import opened Json
  import opened Repetition
  import opened ScalarPointers
  import opened RowIdentity
  import E = EligibilityRows

  /** One line of a table: the month it is for, its role if the table has roles, its pointer. */
  datatype Entry = Entry(month: nat, role: Option<string>, pointer: string)

  datatype Row = Row(id: string, monthCell: string, roleCell: Option<string>, value: string)

  // -- Which pointers -------------------------------------------------------

  /** `scalar_pointers` of the value at a path the contract guarantees. */
  function Leaves(d: Json, path: seq<Step>): seq<string>
    requires WellFormed(d)
  {
    if Walk(d, path).Some? then WalkStaysWellFormed(d, path); Pointers(Walk(d, path).value, Spell(path), true) else []
  }

  function Receipts(i: nat): seq<Step> { E.Root(i) + [Key("lineage_receipts")] }

  const FACTS: seq<string> := ["product_name", "product_version", "content_hash", "publication_sequence"]

  function Facts(receipt: seq<Step>, names: seq<string>): seq<string> {
    seq(|names|, k requires 0 <= k < |names| => Spell(receipt + [Key(names[k])]))
  }

  function ReceiptPaths(d: Json, i: nat): nat -> seq<string>
    requires WellFormed(d)
  {
    (position: nat) =>
      Facts(Receipts(i) + [Index(position)], FACTS) + CorrectionPaths(d, i, position)
  }

  /** A correction's receipt also carries its lineage. */
  function CorrectionPaths(d: Json, i: nat, position: nat): seq<string>
    requires WellFormed(d)
  {
    if Walk(d, Version(i, position)) == Some(Text("v4")) then Leaves(d, LineageOf(i, position)) else []
  }

  function Version(i: nat, position: nat): seq<Step> {
    Receipts(i) + [Index(position), Key("product_version")]
  }

  function LineageOf(i: nat, position: nat): seq<Step> {
    Receipts(i) + [Index(position), Key("lineage")]
  }

  /** `_amendment_paths` */
  function AmendmentPaths(d: Json, i: nat): seq<string>
    requires WellFormed(d)
  {
    var base := E.Proposal(d, i);
    if Walk(d, base + [Key("product_version")]) == Some(Text("v3")) then [Spell(E.Fact("no_amendment"))]
    else Leaves(d, base + [Key("amendment")]) + Flat(E.Len(d, Receipts(i)), ReceiptPaths(d, i))
  }

  function WithRole(i: nat, role: string, pointers: seq<string>): seq<Entry> {
    seq(|pointers|, k requires 0 <= k < |pointers| => Entry(i, Some(role), pointers[k]))
  }

  /** `_proof_paths`: the approval's own verification lies beside the proposal, one level up. */
  function ProofPaths(d: Json, i: nat, base: seq<Step>, approved: bool): seq<Entry>
    requires WellFormed(d) && base != []
  {
    WithRole(i, "POLICY_ADMISSION", Leaves(d, base + [Key("policy_approval")]))
    + WithRole(i, "EVALUATION_PROPOSAL", Leaves(d, base + [Key("operation_verification")]))
    + if approved
      then WithRole(i, "EVALUATION_APPROVAL", Leaves(d, base[..|base| - 1] + [Key("operation_verification")]))
      else []
  }

  predicate HasReceipt(d: Json, i: nat)
    requires WellFormed(d)
  {
    Walk(d, E.Root(i) + [Key("receipt")]) !in {None, Some(Null)}
  }

  function ReceiptProofs(d: Json, i: nat): nat -> seq<Entry>
    requires WellFormed(d)
  {
    (position: nat) => ProofPaths(d, i, Receipts(i) + [Index(position), Key("approval"), Key("proposal")], true)
  }

  function AmendmentEntries(d: Json): nat -> seq<Entry>
    requires WellFormed(d)
  {
    (i: nat) => var paths := AmendmentPaths(d, i);
    seq(|paths|, k requires 0 <= k < |paths| => Entry(i, None, paths[k]))
  }

  /** `_provenance_paths` */
  function ProvenanceEntries(d: Json): nat -> seq<Entry>
    requires WellFormed(d)
  {
    (i: nat) => ProofPaths(d, i, E.Proposal(d, i), HasReceipt(d, i)) + Flat(E.Len(d, Receipts(i)), ReceiptProofs(d, i))
  }

  /** Every leaf a row lists evaluates, on the whole dataset, to a scalar. */
  lemma LeavesLeadToScalars(digits: Digits, d: Json, path: seq<Step>, x: string)
    requires Proper(digits) && WellFormed(d) && x in Leaves(d, path)
    ensures Resolve(digits, d, x).Some? && Scalar(Resolve(digits, d, x).value)
  {
    WalkStaysWellFormed(d, path);
    var leaf := ListedPointersResolve(digits, d, path, true, x);
  }

  // -- Every amendment scalar once ------------------------------------------

  /** The pointer lies under a path. */
  ghost predicate Beneath(x: string, base: seq<Step>) {
    exists rest :: x == Spell(base + rest)
  }

  lemma LeavesLieBeneath(d: Json, path: seq<Step>)
    requires WellFormed(d)
    ensures forall x :: x in Leaves(d, path) ==> Beneath(x, path)
    ensures NoRepeat(Leaves(d, path))
  {
    if Walk(d, path).Some? {
      var v := Walk(d, path).value;
      WalkStaysWellFormed(d, path);
      ListsEachLeafOnce(v, Spell(path), true);
      forall x | x in Leaves(d, path) ensures Beneath(x, path) {
        var rest := ListedIsALeaf(v, Spell(path), true, x);
        SpellOn(path, rest);
      }
    }
  }

  lemma Apart(x: string, a: seq<Step>, b: seq<Step>, k: nat)
    requires Beneath(x, a) && Beneath(x, b) && k < |a| && k < |b| && (a[k].Key? <==> b[k].Key?)
    ensures a[k] == b[k]
  {
    var p :| x == Spell(a + p);
    var q :| x == Spell(b + q);
    SpellingsAgree(a + p, b + q, k);
  }

  lemma FactsLieBeneath(receipt: seq<Step>, names: seq<string>)
    requires NoRepeat(names)
    ensures forall x :: x in Facts(receipt, names) ==>
              exists k :: 0 <= k < |names| && Beneath(x, receipt + [Key(names[k])])
    ensures NoRepeat(Facts(receipt, names))
  {
    var facts := Facts(receipt, names);
    forall k | 0 <= k < |names| ensures Beneath(facts[k], receipt + [Key(names[k])]) {
      assert receipt + [Key(names[k])] + [] == receipt + [Key(names[k])];
    }
    forall j, k | 0 <= j < k < |facts| ensures facts[j] != facts[k] {
      if facts[j] == facts[k] {
        Apart(facts[j], receipt + [Key(names[j])], receipt + [Key(names[k])], |receipt|);
      }
    }
  }

  lemma OneReceiptOnce(d: Json, receipt: seq<Step>, names: seq<string>, lineage: string)
    requires WellFormed(d) && NoRepeat(names) && lineage !in names
    ensures NoRepeat(Facts(receipt, names) + Leaves(d, receipt + [Key(lineage)]))
    ensures NoRepeat(Facts(receipt, names))
    ensures forall x :: x in Facts(receipt, names) + Leaves(d, receipt + [Key(lineage)]) ==> Beneath(x, receipt)
  {
    var facts, leaves := Facts(receipt, names), Leaves(d, receipt + [Key(lineage)]);
    FactsLieBeneath(receipt, names);
    LeavesLieBeneath(d, receipt + [Key(lineage)]);
    forall x | x in facts ensures x !in leaves && Beneath(x, receipt) {
      var k :| 0 <= k < |names| && Beneath(x, receipt + [Key(names[k])]);
      Higher(x, receipt, Key(names[k]));
      if x in leaves {
        Apart(x, receipt + [Key(names[k])], receipt + [Key(lineage)], |receipt|);
      }
    }
    forall x | x in leaves ensures Beneath(x, receipt) {
      Higher(x, receipt, Key(lineage));
    }
    NoRepeatConcat(facts, leaves);
  }

  lemma Higher(x: string, base: seq<Step>, step: Step)
    requires Beneath(x, base + [step])
    ensures Beneath(x, base)
  {
    var rest :| x == Spell(base + [step] + rest);
    assert base + ([step] + rest) == base + [step] + rest;
  }

  lemma ReceiptsOnce(d: Json, i: nat, position: nat)
    requires WellFormed(d)
    ensures NoRepeat(ReceiptPaths(d, i)(position))
    ensures forall x :: x in ReceiptPaths(d, i)(position) ==> Beneath(x, Receipts(i) + [Index(position)])
  {
    var receipt := Receipts(i) + [Index(position)];
    assert LineageOf(i, position) == receipt + [Key("lineage")];
    OneReceiptOnce(d, receipt, FACTS, "lineage");
    assert Facts(receipt, FACTS) + [] == Facts(receipt, FACTS);
  }

  /** Lists that lie beneath the positions of one list never overlap. */
  lemma PositionsApart(above: seq<Step>, n: nat, f: nat -> seq<string>)
    requires forall k: nat :: NoRepeat(f(k)) && forall x :: x in f(k) ==> Beneath(x, above + [Index(k)])
    ensures NoRepeat(Flat(n, f)) && forall x :: x in Flat(n, f) ==> Beneath(x, above)
  {
    forall k: nat, l: nat, x | k < l < n && x in f(k) ensures x !in f(l) {
      if x in f(l) {
        Apart(x, above + [Index(k)], above + [Index(l)], |above|);
      }
    }
    FlatApart(n, f);
    forall x | x in Flat(n, f) ensures Beneath(x, above) {
      var k := InFlat(n, f, x);
      Higher(x, above, Index(k));
    }
  }

  lemma AllReceiptsOnce(d: Json, i: nat)
    requires WellFormed(d)
    ensures var all := Flat(E.Len(d, Receipts(i)), ReceiptPaths(d, i));
            NoRepeat(all) && forall x :: x in all ==> Beneath(x, Receipts(i))
  {
    forall position: nat
      ensures var f := ReceiptPaths(d, i);
              NoRepeat(f(position)) && forall x :: x in f(position) ==> Beneath(x, Receipts(i) + [Index(position)])
    {
      ReceiptsOnce(d, i, position);
    }
    PositionsApart(Receipts(i), E.Len(d, Receipts(i)), ReceiptPaths(d, i));
  }

  /** What lies beneath two paths that name different members of one month is two pointers. */
  lemma MembersApart(x: string, a: seq<Step>, b: seq<Step>, k: nat)
    requires k < |a| && k < |b| && a[k].Key? && b[k].Key? && a[k] != b[k] && Beneath(x, a)
    ensures !Beneath(x, b)
  {
    if Beneath(x, b) {
      Apart(x, a, b, k);
    }
  }

  lemma ProposalIsNoReceipt(d: Json, i: nat, amendment: seq<Step>)
    requires WellFormed(d) && amendment == E.Proposal(d, i) + [Key("amendment")]
    ensures 2 < |amendment| && 2 < |Receipts(i)| && amendment[2].Key? && Receipts(i)[2].Key?
    ensures amendment[2] != Receipts(i)[2]
  {
    assert amendment[2] == Key("proposal") || amendment[2] == Key("receipt");
    assert Receipts(i)[2] == Key("lineage_receipts");
  }

  /** A month lists no amendment pointer twice. */
  lemma AmendmentPathsAreDistinct(d: Json, i: nat)
    requires WellFormed(d)
    ensures NoRepeat(AmendmentPaths(d, i))
  {
    var amendment := E.Proposal(d, i) + [Key("amendment")];
    var leaves, receipts := Leaves(d, amendment), Flat(E.Len(d, Receipts(i)), ReceiptPaths(d, i));
    AllReceiptsOnce(d, i);
    LeavesLieBeneath(d, amendment);
    ProposalIsNoReceipt(d, i, amendment);
    forall x | x in leaves ensures x !in receipts {
      MembersApart(x, amendment, Receipts(i), 2);
    }
    NoRepeatConcat(leaves, receipts);
  }

  // -- Every admission scalar once ------------------------------------------

  /** The pointers of a list of entries. */
  function Shown(entries: seq<Entry>): seq<string> {
    seq(|entries|, k requires 0 <= k < |entries| => entries[k].pointer)
  }

  lemma {:induction false} ShownFlat(n: nat, f: nat -> seq<Entry>, g: nat -> seq<string>)
    requires forall k: nat :: k < n ==> Shown(f(k)) == g(k)
    ensures Shown(Flat(n, f)) == Flat(n, g)
  {
    if n > 0 {
      ShownFlat(n - 1, f, g);
    }
  }

  const POLICY := Key("policy_approval")
  const OPERATION := Key("operation_verification")
  const PROPOSAL := Key("proposal")

  ghost predicate AllBeneath(xs: seq<string>, base: seq<Step>) {
    forall x :: x in xs ==> Beneath(x, base)
  }

  lemma BothOnce(a: seq<string>, b: seq<string>, p: seq<Step>, q: seq<Step>, k: nat)
    requires NoRepeat(a) && NoRepeat(b) && AllBeneath(a, p) && AllBeneath(b, q)
    requires k < |p| && k < |q| && p[k].Key? && q[k].Key? && p[k] != q[k]
    ensures NoRepeat(a + b)
  {
    forall x | x in a ensures x !in b {
      MembersApart(x, p, q, k);
    }
    NoRepeatConcat(a, b);
  }

  lemma AllHigher(xs: seq<string>, base: seq<Step>, step: Step)
    requires AllBeneath(xs, base + [step])
    ensures AllBeneath(xs, base)
  {
    forall x | x in xs ensures Beneath(x, base) {
      Higher(x, base, step);
    }
  }

  lemma ShownConcat(a: seq<Entry>, b: seq<Entry>)
    ensures Shown(a + b) == Shown(a) + Shown(b)
  {
  }

  lemma ShownRole(i: nat, role: string, pointers: seq<string>)
    ensures Shown(WithRole(i, role, pointers)) == pointers
  {
  }

  lemma ShownProofs(d: Json, i: nat, parent: seq<Step>, approved: bool)
    requires WellFormed(d)
    ensures var base := parent + [PROPOSAL];
            Shown(ProofPaths(d, i, base, approved))
            == Leaves(d, base + [POLICY]) + Leaves(d, base + [OPERATION])
               + if approved then Leaves(d, parent + [OPERATION]) else []
  {
    var base := parent + [PROPOSAL];
    assert base[..|base| - 1] == parent;
    var a, b := Leaves(d, base + [POLICY]), Leaves(d, base + [OPERATION]);
    var c := Leaves(d, parent + [OPERATION]);
    ShownRole(i, "POLICY_ADMISSION", a);
    ShownRole(i, "EVALUATION_PROPOSAL", b);
    ShownRole(i, "EVALUATION_APPROVAL", c);
    var first, second := WithRole(i, "POLICY_ADMISSION", a), WithRole(i, "EVALUATION_PROPOSAL", b);
    var third := if approved then WithRole(i, "EVALUATION_APPROVAL", c) else [];
    assert ProofPaths(d, i, base, approved) == first + second + third;
    ShownConcat(first, second);
    ShownConcat(first + second, third);
  }

  /** The evidence of one proposal: where its pointers lie, and that none is listed twice. */
  lemma ProofsOnce(d: Json, i: nat, parent: seq<Step>, approved: bool)
    requires WellFormed(d)
    ensures var ps := Shown(ProofPaths(d, i, parent + [PROPOSAL], approved));
            && NoRepeat(ps)
            && forall x :: x in ps ==> Beneath(x, parent + [PROPOSAL]) || Beneath(x, parent + [OPERATION])
  {
    var base := parent + [PROPOSAL];
    var a, b := Leaves(d, base + [POLICY]), Leaves(d, base + [OPERATION]);
    var c := if approved then Leaves(d, parent + [OPERATION]) else [];
    ShownProofs(d, i, parent, approved);
    LeavesLieBeneath(d, base + [POLICY]);
    LeavesLieBeneath(d, base + [OPERATION]);
    LeavesLieBeneath(d, parent + [OPERATION]);
    BothOnce(a, b, base + [POLICY], base + [OPERATION], |base|);
    AllHigher(a, base, POLICY);
    AllHigher(b, base, OPERATION);
    BothOnce(a + b, c, base, parent + [OPERATION], |parent|);
  }

  lemma ProofsBeneath(xs: seq<string>, parent: seq<Step>)
    requires forall x :: x in xs ==> Beneath(x, parent + [PROPOSAL]) || Beneath(x, parent + [OPERATION])
    ensures AllBeneath(xs, parent)
  {
    forall x | x in xs ensures Beneath(x, parent) {
      Higher(x, parent, if Beneath(x, parent + [PROPOSAL]) then PROPOSAL else OPERATION);
    }
  }

  lemma OneReceiptProofs(d: Json, i: nat, k: nat)
    requires WellFormed(d)
    ensures var ps := Shown(ReceiptProofs(d, i)(k));
            NoRepeat(ps) && AllBeneath(ps, Receipts(i) + [Index(k)])
  {
    var at := Receipts(i) + [Index(k)];
    var parent := at + [Key("approval")];
    assert Receipts(i) + [Index(k), Key("approval"), Key("proposal")] == parent + [PROPOSAL];
    assert ReceiptProofs(d, i)(k) == ProofPaths(d, i, parent + [PROPOSAL], true);
    ProofsOnce(d, i, parent, true);
    ProofsBeneath(Shown(ProofPaths(d, i, parent + [PROPOSAL], true)), parent);
    AllHigher(Shown(ReceiptProofs(d, i)(k)), at, Key("approval"));
  }

  function ReceiptPointers(d: Json, i: nat): nat -> seq<string>
    requires WellFormed(d)
  {
    (k: nat) => Shown(ReceiptProofs(d, i)(k))
  }

  /** The retained receipts' evidence, position by position. */
  lemma ReceiptProofsOnce(d: Json, i: nat)
    requires WellFormed(d)
    ensures var ps := Shown(Flat(E.Len(d, Receipts(i)), ReceiptProofs(d, i)));
            NoRepeat(ps) && AllBeneath(ps, Receipts(i))
  {
    forall k: nat
      ensures var f := ReceiptPointers(d, i);
              NoRepeat(f(k)) && forall x :: x in f(k) ==> Beneath(x, Receipts(i) + [Index(k)])
    {
      OneReceiptProofs(d, i, k);
    }
    PositionsApart(Receipts(i), E.Len(d, Receipts(i)), ReceiptPointers(d, i));
    ShownFlat(E.Len(d, Receipts(i)), ReceiptProofs(d, i), ReceiptPointers(d, i));
  }

  /** The month's own proposal and what stands beside it are no retained receipt. */
  lemma ProposalApart(d: Json, i: nat, x: string)
    requires WellFormed(d)
    ensures var parent := E.Proposal(d, i)[..|E.Proposal(d, i)| - 1];
            && E.Proposal(d, i) == parent + [PROPOSAL]
            && (Beneath(x, parent + [PROPOSAL]) || Beneath(x, parent + [OPERATION]) ==> !Beneath(x, Receipts(i)))
  {
    var base := E.Proposal(d, i);
    var parent := base[..|base| - 1];
    assert base == parent + [PROPOSAL];
    assert Receipts(i)[2] == Key("lineage_receipts");
    assert (parent + [PROPOSAL])[2] in {PROPOSAL, Key("receipt")};
    assert (parent + [OPERATION])[2] in {OPERATION, Key("receipt")};
    if Beneath(x, parent + [PROPOSAL]) {
      MembersApart(x, parent + [PROPOSAL], Receipts(i), 2);
    }
    if Beneath(x, parent + [OPERATION]) {
      MembersApart(x, parent + [OPERATION], Receipts(i), 2);
    }
  }

  /** A month lists no admission pointer twice, under one role or under two. */
  lemma AdmissionPathsAreDistinct(d: Json, i: nat)
    requires WellFormed(d)
    ensures NoRepeat(Shown(ProvenanceEntries(d)(i)))
  {
    var base := E.Proposal(d, i);
    var own := ProofPaths(d, i, base, HasReceipt(d, i));
    var kept := Flat(E.Len(d, Receipts(i)), ReceiptProofs(d, i));
    ProposalApart(d, i, "");
    ProofsOnce(d, i, base[..|base| - 1], HasReceipt(d, i));
    ReceiptProofsOnce(d, i);
    forall x | x in Shown(own) ensures x !in Shown(kept) {
      ProposalApart(d, i, x);
    }
    NoRepeatConcat(Shown(own), Shown(kept));
    ShownConcat(own, kept);
  }

  // -- Rows and their ordinals ----------------------------------------------

  /** The row of an entry under an ordinal, in the table of that letter. */
  function RowFor(letter: char): (nat, Entry) -> Row {
    (ordinal: nat, entry: Entry) =>
      Row(Tag('m', entry.month) + ":" + Tag(letter, ordinal),
          E.MonthCell(entry.month),
          match entry.role
          case None => None
          case Some(role) => Some(Spell(E.Fact("evidence_roles")) + "/" + role),
          entry.pointer)
  }

  function Numbered(row: (nat, Entry) -> Row, entries: seq<Entry>): seq<Row> {
    seq(|entries|, k requires 0 <= k < |entries| => row(k, entries[k]))
  }

  /** The ordinal runs through the whole table, so no identity is used twice, in any month. */
  lemma OrdinalsIdentifyRows(letter: char, entries: seq<Entry>)
    requires letter != ':'
    ensures NoRepeat(Ids(Numbered(RowFor(letter), entries)))
  {
    var rows := Numbered(RowFor(letter), entries);
    forall j, k | 0 <= j < k < |rows| ensures rows[j].id != rows[k].id {
      IdentitiesDiffer(entries[j].month, entries[k].month, letter, j, k);
    }
  }

  lemma IdentitiesDiffer(m: nat, n: nat, letter: char, j: nat, k: nat)
    requires letter != ':' && j != k
    ensures Tag('m', m) + ":" + Tag(letter, j) != Tag('m', n) + ":" + Tag(letter, k)
  {
    E.TagIsPlain(letter, j);
    E.TagIsPlain(letter, k);
    if Tag('m', m) + ":" + Tag(letter, j) == Tag('m', n) + ":" + Tag(letter, k) {
      LastSeparator(Tag('m', m), Tag(letter, j), Tag('m', n), Tag(letter, k));
      TagIsInjective(letter, j, letter, k);
    }
  }

  function Ids(rows: seq<Row>): seq<string> {
    seq(|rows|, k requires 0 <= k < |rows| => rows[k].id)
  }

  /** `historical_rows`: two tables filled month by month, each row numbered by its table's length. */
  method HistoricalTables(d: Json) returns (amendments: seq<Row>, admission: seq<Row>)
    requires WellFormed(d)
    ensures amendments == Numbered(RowFor('a'), Flat(E.Len(d, E.Months()), AmendmentEntries(d)))
    ensures admission == Numbered(RowFor('p'), Flat(E.Len(d, E.Months()), ProvenanceEntries(d)))
    ensures NoRepeat(Ids(amendments)) && NoRepeat(Ids(admission))
  {
    amendments, admission := [], [];
    for i := 0 to E.Len(d, E.Months())
      invariant amendments == Numbered(RowFor('a'), Flat(i, AmendmentEntries(d)))
      invariant admission == Numbered(RowFor('p'), Flat(i, ProvenanceEntries(d)))
    {
      amendments := AppendAll(amendments, RowFor('a'), Flat(i, AmendmentEntries(d)), AmendmentEntries(d)(i));
      admission := AppendAll(admission, RowFor('p'), Flat(i, ProvenanceEntries(d)), ProvenanceEntries(d)(i));
    }
    OrdinalsIdentifyRows('a', Flat(E.Len(d, E.Months()), AmendmentEntries(d)));
    OrdinalsIdentifyRows('p', Flat(E.Len(d, E.Months()), ProvenanceEntries(d)));
  }

  /** The inner loop: one month's entries appended, each under the length of the table so far. */
  method AppendAll(rows: seq<Row>, row: (nat, Entry) -> Row, ghost before: seq<Entry>, entries: seq<Entry>)
    returns (extended: seq<Row>)
    requires rows == Numbered(row, before)
    ensures extended == Numbered(row, before + entries)
  {
    extended := rows;
    assert before + entries[..0] == before;
    for k := 0 to |entries|
      invariant extended == Numbered(row, before + entries[..k])
    {
      extended := extended + [row(|extended|, entries[k])];
    }
    assert entries[..|entries|] == entries;
  }

  // -- Sorted replay --------------------------------------------------------

  lemma SameLeaves(a: Json, b: Json, path: seq<Step>)
    requires WellFormed(a) && WellFormed(b) && Same(a, b)
    ensures Leaves(a, path) == Leaves(b, path)
    ensures E.Len(a, path) == E.Len(b, path)
    ensures forall s :: Walk(a, path) == Some(Text(s)) <==> Walk(b, path) == Some(Text(s))
    ensures Walk(a, path) in {None, Some(Null)} <==> Walk(b, path) in {None, Some(Null)}
  {
    SameWalk(a, b, path);
    if Walk(a, path).Some? {
      SortedListingIgnoresMemberOrder(Walk(a, path).value, Walk(b, path).value, Spell(path));
    }
  }

  lemma SameProposal(a: Json, b: Json, i: nat)
    requires WellFormed(a) && WellFormed(b) && Same(a, b)
    ensures E.Proposal(a, i) == E.Proposal(b, i)
  {
    SameLeaves(a, b, E.EvidenceKind(i));
  }

  lemma {:induction false} FlatAgrees<T>(n: nat, f: nat -> seq<T>, g: nat -> seq<T>)
    requires forall k: nat :: k < n ==> f(k) == g(k)
    ensures Flat(n, f) == Flat(n, g)
  {
    if n > 0 {
      FlatAgrees(n - 1, f, g);
    }
  }

  lemma SameAmendmentPaths(a: Json, b: Json, i: nat)
    requires WellFormed(a) && WellFormed(b) && Same(a, b)
    ensures AmendmentPaths(a, i) == AmendmentPaths(b, i)
  {
    SameProposal(a, b, i);
    SameLeaves(a, b, E.Proposal(a, i) + [Key("product_version")]);
    SameLeaves(a, b, E.Proposal(a, i) + [Key("amendment")]);
    SameReceiptPaths(a, b, i);
  }

  lemma SameCorrection(a: Json, b: Json, i: nat, position: nat)
    requires WellFormed(a) && WellFormed(b) && Same(a, b)
    ensures CorrectionPaths(a, i, position) == CorrectionPaths(b, i, position)
  {
    SameLeaves(a, b, Version(i, position));
    SameLeaves(a, b, LineageOf(i, position));
  }

  lemma SameReceiptPaths(a: Json, b: Json, i: nat)
    requires WellFormed(a) && WellFormed(b) && Same(a, b)
    ensures Flat(E.Len(a, Receipts(i)), ReceiptPaths(a, i)) == Flat(E.Len(b, Receipts(i)), ReceiptPaths(b, i))
  {
    SameLeaves(a, b, Receipts(i));
    forall position: nat ensures ReceiptPaths(a, i)(position) == ReceiptPaths(b, i)(position) {
      SameCorrection(a, b, i, position);
    }
    FlatAgrees(E.Len(a, Receipts(i)), ReceiptPaths(a, i), ReceiptPaths(b, i));
  }

  lemma SameProofPaths(a: Json, b: Json, i: nat, base: seq<Step>, approved: bool)
    requires WellFormed(a) && WellFormed(b) && Same(a, b) && base != []
    ensures ProofPaths(a, i, base, approved) == ProofPaths(b, i, base, approved)
  {
    SameLeaves(a, b, base + [Key("policy_approval")]);
    SameLeaves(a, b, base + [Key("operation_verification")]);
    SameLeaves(a, b, base[..|base| - 1] + [Key("operation_verification")]);
  }

  lemma SameProvenance(a: Json, b: Json, i: nat)
    requires WellFormed(a) && WellFormed(b) && Same(a, b)
    ensures ProvenanceEntries(a)(i) == ProvenanceEntries(b)(i)
  {
    SameProposal(a, b, i);
    SameLeaves(a, b, E.Root(i) + [Key("receipt")]);
    SameProofPaths(a, b, i, E.Proposal(a, i), HasReceipt(a, i));
    SameLeaves(a, b, Receipts(i));
    forall position: nat ensures ReceiptProofs(a, i)(position) == ReceiptProofs(b, i)(position) {
      SameProofPaths(a, b, i, Receipts(i) + [Index(position), Key("approval"), Key("proposal")], true);
    }
    FlatAgrees(E.Len(a, Receipts(i)), ReceiptProofs(a, i), ReceiptProofs(b, i));
  }

  /** Reordering the members of any object, at any depth, moves no row and renames none. */
  lemma SortedReplayKeepsTheRows(a: Json, b: Json)
    requires WellFormed(a) && WellFormed(b) && Same(a, b)
    ensures Numbered(RowFor('a'), Flat(E.Len(a, E.Months()), AmendmentEntries(a)))
            == Numbered(RowFor('a'), Flat(E.Len(b, E.Months()), AmendmentEntries(b)))
    ensures Numbered(RowFor('p'), Flat(E.Len(a, E.Months()), ProvenanceEntries(a)))
            == Numbered(RowFor('p'), Flat(E.Len(b, E.Months()), ProvenanceEntries(b)))
  {
    SameLeaves(a, b, E.Months());
    forall i: nat ensures AmendmentEntries(a)(i) == AmendmentEntries(b)(i) {
      SameAmendmentPaths(a, b, i);
    }
    forall i: nat ensures ProvenanceEntries(a)(i) == ProvenanceEntries(b)(i) {
      SameProvenance(a, b, i);
    }
    FlatAgrees(E.Len(a, E.Months()), AmendmentEntries(a), AmendmentEntries(b));
    FlatAgrees(E.Len(a, E.Months()), ProvenanceEntries(a), ProvenanceEntries(b));
  }
}
