/** Custody of corrected months: what a walk over one link at a time buys for the whole chain. */
module AmendmentLineage {
  // A correction names its predecessor by content hash. The monthly scheme (v2 corrections of a v1
  // original) and the historical one (v4 of a v3 root) share the walk.

  import opened Wrappers
  import opened DecimalText
  import opened Repetition
  import opened Timestamps

  datatype Binding = Binding(productName: string, productVersion: string, revision: string, digest: string)

  datatype YearMonth = YearMonth(year: nat, month: nat)

  /** `rest` stands for every member the validator never reads; hashes and equality still see it. */
  datatype Amendment = Amendment(
    predecessorApproval: Binding,
    expectedAuthority: Binding,
    predecessorReceipt: Binding,
    originalApproval: Binding,
    projectionParent: Binding,
    expectedSequence: int,
    affectedFrom: string,
    affectedTo: string,
    rest: string)

  datatype Proposal = Proposal(
    version: string,
    revision: string,
    targetRevision: string,
    parentRevision: string,
    parentHash: string,
    policyApproval: string,
    population: seq<string>,
    month: YearMonth,
    universeCut: string,
    proposedBy: string,
    amendment: Option<Amendment>,
    contentHash: string,
    rest: string)

  datatype ApprovalBody = ApprovalBody(
    productName: string, version: string, proposal: Proposal,
    membershipHash: string, universeHash: string, approvedBy: string, rest: string)

  datatype Approval = Approval(body: ApprovalBody, contentHash: string)

  datatype ReceiptBody = ReceiptBody(
    productName: string, version: string, definition: string, approval: Approval,
    membershipBinding: Binding, universeBinding: Binding, sourceCut: string,
    sequence: int, lineage: Option<Amendment>, rest: string)

  datatype Receipt = Receipt(body: ReceiptBody, contentHash: string)
  {
    function Approved(): Proposal {
      body.approval.body.proposal
    }
  }

  /** A product with its own `content_hash` removed: what a content digest is taken over. */
  datatype Hashed = OfApproval(approval: ApprovalBody) | OfReceipt(receipt: ReceiptBody)

  datatype Pin = Pin(
    version: string, revision: string, approvalHash: string, receiptHash: string, receiptDigest: string)

  datatype Pins = Pins(month: string, receipts: seq<Pin>)

  /** The published products of a month, as far as the lineage reads them. */
  datatype Publication = Publication(
    definition: string, lineage: Option<Amendment>, sequence: int, parentSequence: int, parent: string)

  datatype SourceMonth = SourceMonth(publication: Option<Publication>, receipts: seq<Receipt>)

  datatype Scheme = Monthly | Historical
  {
    function Root(): string {
      if Monthly? then "v1" else "v3"
    }

    function Correction(): string {
      if Monthly? then "v2" else "v4"
    }

    /** Monthly publications follow the expected one directly; historical ones only follow it. */
    predicate Follows(sequence: int, expected: int) {
      if Monthly? then sequence == expected + 1 else sequence > expected
    }
  }

  /** The digests, and the checks on single products that the chain argument does not look into. */
  datatype Checks = Checks(
    contentDigest: Hashed -> string,
    responseDigest: Receipt -> string,
    proposalOk: (Proposal, string) -> bool,
    definitionOk: string -> bool,
    proofOk: Receipt -> bool,
    parentOk: (Publication, Proposal) -> bool)

  // -- Local checks ---------------------------------------------------------

  function ApprovalBinding(a: Approval, revision: string): Binding {
    Binding(a.body.productName, a.body.version, revision, a.contentHash)
  }

  function ReceiptBinding(r: Receipt, revision: string): Binding {
    Binding(r.body.productName, r.body.version, revision, r.contentHash)
  }

  predicate ScopeOk(c: Checks, r: Receipt) {
    var approval, proposal := r.body.approval.body, r.Approved();
    && c.definitionOk(r.body.definition)
    && r.body.membershipBinding
       == Binding("CompositeMembership", "v1", proposal.targetRevision, approval.membershipHash)
    && r.body.universeBinding == Binding("CompositeUniverseAttestation", "v1", proposal.revision, approval.universeHash)
    && r.body.sourceCut == proposal.universeCut
  }

  /** `_validate_retained_receipt`: the receipt against its pin, its own hashes and its own amendment. */
  predicate RetainedOk(c: Checks, scheme: Scheme, r: Receipt, pin: Pin, month: string) {
    var approval, proposal := r.body.approval, r.Approved();
    && r.body.version == pin.version && r.contentHash == pin.receiptHash
    && c.responseDigest(r) == pin.receiptDigest
    && approval.contentHash == pin.approvalHash
    && proposal.revision == pin.revision
    && approval.body.version == proposal.version == r.body.version
    && c.proposalOk(proposal, month)
    && (scheme.Historical? ==> approval.body.approvedBy != proposal.proposedBy && c.proofOk(r))
    && approval.contentHash == c.contentDigest(OfApproval(approval.body))
    && r.contentHash == c.contentDigest(OfReceipt(r.body))
    && ScopeOk(c, r)
    && (r.body.version == scheme.Correction() ==>
          && proposal.amendment.Some?
          && r.body.lineage == proposal.amendment
          && scheme.Follows(r.body.sequence, proposal.amendment.value.expectedSequence))
  }

  function FirstDay(m: YearMonth): string {
    Padded(m.year, 4) + "-" + Padded(m.month, 2) + "-01"
  }

  function LastDay(m: YearMonth): string {
    Padded(m.year, 4) + "-" + Padded(m.month, 2) + "-" + Decimal(DaysInMonth(m.year, m.month))
  }

  /** `_validate_link`: a correction against the receipt it corrects. */
  predicate LinkOk(current: Proposal, predecessor: Receipt, original: Receipt) {
    var prior := predecessor.Approved();
    && current.amendment.Some?
    && var a := current.amendment.value;
       && a.predecessorApproval == ApprovalBinding(predecessor.body.approval, prior.revision)
       && a.expectedAuthority == ApprovalBinding(predecessor.body.approval, prior.revision)
       && a.predecessorReceipt == ReceiptBinding(predecessor, prior.revision)
       && a.originalApproval == ApprovalBinding(original.body.approval, original.Approved().revision)
       && a.projectionParent == Binding("CompositeMembership", "v1", current.parentRevision, current.parentHash)
       && current.policyApproval == prior.policyApproval
       && current.population == prior.population
       && a.affectedFrom == FirstDay(current.month)
       && a.affectedTo == LastDay(current.month)
       && a.expectedSequence >= predecessor.body.sequence
  }

  predicate PublishedOk(c: Checks, scheme: Scheme, p: Publication, proposal: Proposal) {
    && proposal.amendment.Some?
    && c.parentOk(p, proposal)
    && p.parentSequence == proposal.amendment.value.expectedSequence
    && p.lineage == proposal.amendment
    && scheme.Follows(p.sequence, proposal.amendment.value.expectedSequence)
  }

  // -- The validator --------------------------------------------------------

  /** The proposal in hand when link `k` is checked. */
  function Current(head: Proposal, rs: seq<Receipt>, k: nat): Proposal
    requires k <= |rs|
  {
    if k == 0 then head else rs[k - 1].Approved()
  }

  function Revisions(head: Proposal, rs: seq<Receipt>): (r: seq<string>)
    ensures |r| == |rs| + 1
    ensures forall k {:trigger r[k]} :: 0 <= k <= |rs| ==> r[k] == Current(head, rs, k).revision
  {
    seq(|rs| + 1, k requires 0 <= k <= |rs| => Current(head, rs, k).revision)
  }

  predicate ReceiptOk(c: Checks, scheme: Scheme, rs: seq<Receipt>, pins: seq<Pin>, month: string, k: nat)
    requires k < |rs| == |pins|
  {
    rs[k].body.definition == rs[|rs| - 1].body.definition && RetainedOk(c, scheme, rs[k], pins[k], month)
  }

  predicate ReceiptsOk(c: Checks, scheme: Scheme, rs: seq<Receipt>, pins: seq<Pin>, month: string, n: nat)
    requires n <= |rs| == |pins|
  {
    forall k :: 0 <= k < n ==> ReceiptOk(c, scheme, rs, pins, month, k)
  }

  predicate Linked(scheme: Scheme, head: Proposal, rs: seq<Receipt>, k: nat)
    requires k < |rs|
  {
    && Current(head, rs, k).version == scheme.Correction()
    && LinkOk(Current(head, rs, k), rs[k], rs[|rs| - 1])
  }

  predicate LinksOk(scheme: Scheme, head: Proposal, rs: seq<Receipt>, n: nat)
    requires n <= |rs|
  {
    forall k :: 0 <= k < n ==> Linked(scheme, head, rs, k)
  }

  /** Everything an accepted month satisfies. */
  predicate Accepted(c: Checks, scheme: Scheme, m: SourceMonth, pins: Pins, head: Proposal) {
    var rs := m.receipts;
    && |rs| == |pins.receipts| && |rs| > 0
    && rs[|rs| - 1].body.version == scheme.Root()
    && (m.publication.Some? ==> m.publication.value.definition == rs[|rs| - 1].body.definition)
    && ReceiptsOk(c, scheme, rs, pins.receipts, pins.month, |rs|)
    && NoRepeat(Revisions(head, rs))
    && LinksOk(scheme, head, rs, |rs|)
    && Current(head, rs, |rs|).version == scheme.Root()
    && (m.publication.Some? ==> PublishedOk(c, scheme, m.publication.value, head))
  }

  /** `validate_amendment_lineage` and `validate_historical_lineage`. */
  method Validate(c: Checks, scheme: Scheme, m: SourceMonth, pins: Pins, head: Proposal) returns (ok: bool)
    ensures ok <==> Accepted(c, scheme, m, pins, head)
  {
    var rs := m.receipts;
    if |rs| != |pins.receipts| || |rs| == 0 {
      return false;
    }
    var original := rs[|rs| - 1];
    if original.body.version != scheme.Root() {
      return false;
    }
    if m.publication.Some? && m.publication.value.definition != original.body.definition {
      return false;
    }
    var retained, revisions := CheckReceipts(c, scheme, m, pins, head);
    if !retained {
      return false;
    }
    SetSizeIsDistinctness(revisions);
    if |revisions| != |SetOf(revisions)| {
      return false;
    }
    var linked := CheckLinks(scheme, rs, head);
    if !linked {
      return false;
    }
    return m.publication.None? || PublishedOk(c, scheme, m.publication.value, head);
  }

  /** The first loop: each receipt on its own, collecting the revisions. */
  method CheckReceipts(c: Checks, scheme: Scheme, m: SourceMonth, pins: Pins, head: Proposal)
    returns (ok: bool, revisions: seq<string>)
    requires |m.receipts| == |pins.receipts| > 0
    ensures ok <==> ReceiptsOk(c, scheme, m.receipts, pins.receipts, pins.month, |m.receipts|)
    ensures ok ==> revisions == Revisions(head, m.receipts)
  {
    var rs := m.receipts;
    var original := rs[|rs| - 1];
    revisions := [head.revision];
    for k := 0 to |rs|
      invariant ReceiptsOk(c, scheme, rs, pins.receipts, pins.month, k)
      invariant |revisions| == k + 1
      invariant forall j {:trigger revisions[j]} :: 0 <= j <= k ==> revisions[j] == Current(head, rs, j).revision
    {
      if rs[k].body.definition != original.body.definition
         || !RetainedOk(c, scheme, rs[k], pins.receipts[k], pins.month) {
        assert !ReceiptOk(c, scheme, rs, pins.receipts, pins.month, k);
        return false, revisions;
      }
      revisions := revisions + [rs[k].Approved().revision];
    }
    assert revisions == Revisions(head, rs);
    ok := true;
  }

  /** The second loop: down the chain, one correction at a time. */
  method CheckLinks(scheme: Scheme, rs: seq<Receipt>, head: Proposal) returns (ok: bool)
    requires |rs| > 0
    ensures ok <==> LinksOk(scheme, head, rs, |rs|) && Current(head, rs, |rs|).version == scheme.Root()
  {
    var original := rs[|rs| - 1];
    var current := head;
    for k := 0 to |rs|
      invariant current == Current(head, rs, k)
      invariant LinksOk(scheme, head, rs, k)
    {
      if current.version != scheme.Correction() || !LinkOk(current, rs[k], original) {
        assert !Linked(scheme, head, rs, k);
        return false;
      }
      current := rs[k].Approved();
    }
    return current.version == scheme.Root();
  }

  // -- Facts about the whole chain ------------------------------------------

  /** Every receipt but the last is a correction; the last, and only the last, is the root. */
  lemma OnlyTheLastIsTheRoot(c: Checks, scheme: Scheme, m: SourceMonth, pins: Pins, head: Proposal, k: nat)
    requires Accepted(c, scheme, m, pins, head) && k < |m.receipts|
    ensures m.receipts[k].body.version == (if k == |m.receipts| - 1 then scheme.Root() else scheme.Correction())
    ensures m.receipts[k].Approved().version == m.receipts[k].body.version
    ensures head.version == scheme.Correction()
  {
    var rs := m.receipts;
    assert ReceiptOk(c, scheme, rs, pins.receipts, pins.month, k);
    assert k + 1 < |rs| ==> Linked(scheme, head, rs, k + 1);
    assert Linked(scheme, head, rs, 0);
  }

  lemma NextIsEarlier(c: Checks, scheme: Scheme, m: SourceMonth, pins: Pins, head: Proposal, k: nat)
    requires Accepted(c, scheme, m, pins, head) && k + 1 < |m.receipts|
    ensures m.receipts[k].body.sequence > m.receipts[k + 1].body.sequence
  {
    OnlyTheLastIsTheRoot(c, scheme, m, pins, head, k);
    assert ReceiptOk(c, scheme, m.receipts, pins.receipts, pins.month, k);
    assert Linked(scheme, head, m.receipts, k + 1);
  }

  /** Publication sequences strictly decrease along the whole chain, so it cannot revisit a receipt. */
  lemma {:induction false} SequencesStrictlyDecrease(
    c: Checks, scheme: Scheme, m: SourceMonth, pins: Pins, head: Proposal, i: nat, j: nat)
    requires Accepted(c, scheme, m, pins, head) && i < j < |m.receipts|
    ensures m.receipts[i].body.sequence > m.receipts[j].body.sequence
    ensures m.receipts[i] != m.receipts[j]
    decreases j - i
  {
    NextIsEarlier(c, scheme, m, pins, head, j - 1);
    if i + 1 < j {
      SequencesStrictlyDecrease(c, scheme, m, pins, head, i, j - 1);
    }
  }

  /** The selected publication comes after every receipt it stands on. */
  lemma PublicationIsLatest(c: Checks, scheme: Scheme, m: SourceMonth, pins: Pins, head: Proposal, k: nat)
    requires Accepted(c, scheme, m, pins, head) && k < |m.receipts| && m.publication.Some?
    ensures m.publication.value.sequence > m.receipts[k].body.sequence
  {
    assert Linked(scheme, head, m.receipts, 0);
    if k > 0 {
      SequencesStrictlyDecrease(c, scheme, m, pins, head, 0, k);
    }
  }

  lemma {:induction false} PolicyFromTheHead(
    c: Checks, scheme: Scheme, m: SourceMonth, pins: Pins, head: Proposal, k: nat)
    requires Accepted(c, scheme, m, pins, head) && k <= |m.receipts|
    ensures Current(head, m.receipts, k).policyApproval == head.policyApproval
    ensures Current(head, m.receipts, k).population == head.population
  {
    if k > 0 {
      PolicyFromTheHead(c, scheme, m, pins, head, k - 1);
      assert Linked(scheme, head, m.receipts, k - 1);
    }
  }

  /**
   Conservation end to end: at every two positions, head included, the approved policy, the expected
   population and the composite definition are the same, while the evaluation revisions differ.
   */
  lemma ConservedAtEveryPair(c: Checks, scheme: Scheme, m: SourceMonth, pins: Pins, head: Proposal, i: nat, j: nat)
    requires Accepted(c, scheme, m, pins, head) && i < j <= |m.receipts|
    ensures var a, b := Current(head, m.receipts, i), Current(head, m.receipts, j);
            a.policyApproval == b.policyApproval && a.population == b.population && a.revision != b.revision
    ensures i > 0 ==> m.receipts[i - 1].body.definition == m.receipts[j - 1].body.definition
    ensures m.publication.Some? ==> m.publication.value.definition == m.receipts[j - 1].body.definition
  {
    PolicyFromTheHead(c, scheme, m, pins, head, i);
    PolicyFromTheHead(c, scheme, m, pins, head, j);
    assert Revisions(head, m.receipts)[i] != Revisions(head, m.receipts)[j];
    assert ReceiptOk(c, scheme, m.receipts, pins.receipts, pins.month, j - 1);
    assert i > 0 ==> ReceiptOk(c, scheme, m.receipts, pins.receipts, pins.month, i - 1);
  }

  // -- Tamper evidence ------------------------------------------------------

  /** SHA-256 over canonical JSON, idealised: different content, different digest. */
  ghost predicate CollisionFree(digest: Hashed -> string) {
    forall a, b :: digest(a) == digest(b) ==> a == b
  }

  /** A link pins its predecessor receipt, approval and proposal included. */
  lemma LinkFixesPredecessor(
    c1: Checks, c2: Checks, scheme: Scheme, current: Proposal,
    r1: Receipt, o1: Receipt, p1: Pin, month1: string, r2: Receipt, o2: Receipt, p2: Pin, month2: string)
    requires c1.contentDigest == c2.contentDigest && CollisionFree(c1.contentDigest)
    requires LinkOk(current, r1, o1) && RetainedOk(c1, scheme, r1, p1, month1)
    requires LinkOk(current, r2, o2) && RetainedOk(c2, scheme, r2, p2, month2)
    ensures r1 == r2
  {
    assert c1.contentDigest(OfReceipt(r1.body)) == c1.contentDigest(OfReceipt(r2.body));
  }

  lemma LinkAndReceipt(c: Checks, scheme: Scheme, m: SourceMonth, pins: Pins, head: Proposal, k: nat)
    requires Accepted(c, scheme, m, pins, head) && k < |m.receipts|
    ensures LinkOk(Current(head, m.receipts, k), m.receipts[k], m.receipts[|m.receipts| - 1])
    ensures RetainedOk(c, scheme, m.receipts[k], pins.receipts[k], pins.month)
  {
    assert Linked(scheme, head, m.receipts, k);
    assert ReceiptOk(c, scheme, m.receipts, pins.receipts, pins.month, k);
  }

  /** Position by position, from the head down. */
  lemma {:induction false} ChainsAgree(
    c1: Checks, m1: SourceMonth, pins1: Pins, c2: Checks, m2: SourceMonth, pins2: Pins,
    scheme: Scheme, head: Proposal, k: nat)
    requires c1.contentDigest == c2.contentDigest && CollisionFree(c1.contentDigest)
    requires Accepted(c1, scheme, m1, pins1, head) && Accepted(c2, scheme, m2, pins2, head)
    requires k < |m1.receipts| && k < |m2.receipts|
    ensures m1.receipts[k] == m2.receipts[k]
  {
    var rs, qs := m1.receipts, m2.receipts;
    if k > 0 {
      ChainsAgree(c1, m1, pins1, c2, m2, pins2, scheme, head, k - 1);
    }
    LinkAndReceipt(c1, scheme, m1, pins1, head, k);
    LinkAndReceipt(c2, scheme, m2, pins2, head, k);
    LinkFixesPredecessor(c1, c2, scheme, Current(head, rs, k),
                         rs[k], rs[|rs| - 1], pins1.receipts[k], pins1.month,
                         qs[k], qs[|qs| - 1], pins2.receipts[k], pins2.month);
  }

  /** The root version ends both chains at one place. */
  lemma SameLength(
    c1: Checks, m1: SourceMonth, pins1: Pins, c2: Checks, m2: SourceMonth, pins2: Pins, scheme: Scheme, head: Proposal)
    requires c1.contentDigest == c2.contentDigest && CollisionFree(c1.contentDigest)
    requires Accepted(c1, scheme, m1, pins1, head) && Accepted(c2, scheme, m2, pins2, head)
    ensures |m1.receipts| == |m2.receipts|
  {
    var k := if |m1.receipts| <= |m2.receipts| then |m1.receipts| - 1 else |m2.receipts| - 1;
    ChainsAgree(c1, m1, pins1, c2, m2, pins2, scheme, head, k);
    OnlyTheLastIsTheRoot(c1, scheme, m1, pins1, head, k);
    OnlyTheLastIsTheRoot(c2, scheme, m2, pins2, head, k);
  }

  /**
   One head proposal, one lineage. Whatever pins, months and selections two validations used, if
   both accept then they accepted the very same receipts: the root version fixes the length and
   each content hash fixes the next receipt whole.
   */
  lemma LineageIsUnique(
    c1: Checks, m1: SourceMonth, pins1: Pins, c2: Checks, m2: SourceMonth, pins2: Pins, scheme: Scheme, head: Proposal)
    requires c1.contentDigest == c2.contentDigest && CollisionFree(c1.contentDigest)
    requires Accepted(c1, scheme, m1, pins1, head) && Accepted(c2, scheme, m2, pins2, head)
    ensures m1.receipts == m2.receipts
  {
    SameLength(c1, m1, pins1, c2, m2, pins2, scheme, head);
    forall k | 0 <= k < |m1.receipts|
      ensures m1.receipts[k] == m2.receipts[k]
    {
      ChainsAgree(c1, m1, pins1, c2, m2, pins2, scheme, head, k);
    }
  }

  // -- Lineages there are ---------------------------------------------------

  const MARCH := YearMonth(2026, 3)

  function SampleProposal(
    version: string, revision: string, proposedBy: string, amendment: Option<Amendment>): Proposal
  {
    Proposal(version, revision, "target", "parent", "hash", "policy", ["p1"], MARCH, "cut",
             proposedBy, amendment, "", "")
  }

  /** A receipt of a proposal with all its hashes in order. */
  function SampleReceipt(c: Checks, proposal: Proposal, sequence: int): Receipt {
    var approval := ApprovalBody("Approval", proposal.version, proposal, "members", "universe", "approver", "");
    var body := ReceiptBody(
      "Receipt", proposal.version, "definition", Approval(approval, c.contentDigest(OfApproval(approval))),
      Binding("CompositeMembership", "v1", "target", "members"),
      Binding("CompositeUniverseAttestation", "v1", proposal.revision, "universe"),
      "cut", sequence, proposal.amendment, "");
    Receipt(body, c.contentDigest(OfReceipt(body)))
  }

  /** The amendment of a correction of one receipt, in a lineage that started with another. */
  function SampleAmendment(predecessor: Receipt, original: Receipt): Amendment {
    var prior := predecessor.Approved().revision;
    Amendment(ApprovalBinding(predecessor.body.approval, prior), ApprovalBinding(predecessor.body.approval, prior),
              ReceiptBinding(predecessor, prior),
              ApprovalBinding(original.body.approval, original.Approved().revision),
              Binding("CompositeMembership", "v1", "parent", "hash"),
              predecessor.body.sequence, FirstDay(MARCH), LastDay(MARCH), "")
  }

  function PinOf(c: Checks, r: Receipt): Pin {
    Pin(r.body.version, r.Approved().revision, r.body.approval.contentHash, r.contentHash, c.responseDigest(r))
  }

  /** Products the checks on single products accept. */
  ghost predicate Lenient(c: Checks, month: string) {
    && (forall p: Proposal :: c.proposalOk(p, month)) && (forall r: Receipt :: c.proofOk(r))
    && c.definitionOk("definition")
  }

  lemma SampleIsRetained(c: Checks, scheme: Scheme, proposal: Proposal, sequence: int, month: string)
    requires Lenient(c, month) && proposal.version in {scheme.Root(), scheme.Correction()}
    requires proposal == SampleProposal(proposal.version, proposal.revision, "proposer", proposal.amendment)
    requires proposal.version == scheme.Correction() ==>
               proposal.amendment.Some? && sequence == proposal.amendment.value.expectedSequence + 1
    ensures var r := SampleReceipt(c, proposal, sequence); RetainedOk(c, scheme, r, PinOf(c, r), month)
  {
    assert "approver"[0] != "proposer"[0];
  }

  lemma SampleIsLinked(c: Checks, current: Proposal, predecessor: Receipt, original: Receipt)
    requires current == SampleProposal(current.version, current.revision, "proposer",
                                       Some(SampleAmendment(predecessor, original)))
    requires predecessor.Approved().policyApproval == "policy" && predecessor.Approved().population == ["p1"]
    ensures LinkOk(current, predecessor, original)
  {
  }

  /**
   Whatever the digests, both schemes accept a correction of a correction of an original: the facts
   above are about lineages there are.
   */
  lemma SomeLineageIsAccepted(c: Checks, scheme: Scheme) returns (m: SourceMonth, pins: Pins, head: Proposal)
    requires Lenient(c, "2026-03")
    ensures Accepted(c, scheme, m, pins, head) && |m.receipts| == 2
  {
    var p0 := SampleProposal(scheme.Root(), "r0", "proposer", None);
    var r0 := SampleReceipt(c, p0, 1);
    var p1 := SampleProposal(scheme.Correction(), "r1", "proposer", Some(SampleAmendment(r0, r0)));
    var r1 := SampleReceipt(c, p1, 2);
    head := SampleProposal(scheme.Correction(), "r2", "proposer", Some(SampleAmendment(r1, r0)));
    var rs := [r1, r0];
    m, pins := SourceMonth(None, rs), Pins("2026-03", [PinOf(c, r1), PinOf(c, r0)]);
    SampleIsRetained(c, scheme, p0, 1, "2026-03");
    SampleIsRetained(c, scheme, p1, 2, "2026-03");
    SampleIsLinked(c, head, r1, r0);
    SampleIsLinked(c, p1, r0, r0);
    assert ReceiptOk(c, scheme, rs, pins.receipts, pins.month, 0);
    assert ReceiptOk(c, scheme, rs, pins.receipts, pins.month, 1);
    assert Linked(scheme, head, rs, 0) && Linked(scheme, head, rs, 1);
    assert Revisions(head, rs) == ["r2", "r1", "r0"];
    assert "r2"[1] == '2' && "r1"[1] == '1' && "r0"[1] == '0';
  }
}
