/** The detail column as text: what it spells of an outcome, and when that text still names the recovery. */
module ArchiveDetail {
  import opened Wrappers
  import opened DecimalText
  import opened RenderStore
  import opened ArchiveHandoff

  const DETAIL_LIMIT: nat := 500
  const RECOVERY: string := "; reconcile by archive_request_id"

  function Bounded(detail: string): (r: string)
    ensures |r| <= DETAIL_LIMIT && r <= detail
    ensures |detail| <= DETAIL_LIMIT ==> r == detail
  {
    if |detail| <= DETAIL_LIMIT then detail else detail[..DETAIL_LIMIT]
  }

  function Part(text: Option<string>): string {
    if text.Some? && text.value != [] then ": " + text.value else ""
  }

  /** A reason in full, before anything is cut. */
  function Said(detail: Detail): string
    requires !detail.Reconcile?
  {
    match detail
    case Unreachable => "archive_unreachable"
    case NotSent(reason) => "archive_unreachable: " + reason
    case TimedOut => "archive_timeout: no response within the deadline"
    case Unknown(reason) => "archive_outcome_unknown: " + reason
    case NoDocument => "archive_response_missing_document_id"
    case Refused(status, code, message) => "archive_refused_" + Decimal(status) + Part(code) + Part(message)
    case Unexpected => "archive_handoff_unexpected_error"
  }

  /** What the column holds. */
  function Spelled(detail: Detail): string {
    match detail
    case Reconcile(of) => Bounded(Spelled(of) + RECOVERY)
    case NotSent(_) => Bounded(Said(detail))
    case Refused(_, _, _) => Bounded(Said(detail))
    case _ => Said(detail)
  }

  /** Whether the text gives the reason and then names the recovery, whole. */
  predicate NamesRecovery(text: string, of: Detail)
    requires !of.Reconcile?
  {
    text == Said(of) + RECOVERY
  }

  lemma BoundedTwice(text: string, more: string)
    ensures Bounded(Bounded(text) + more) == Bounded(text + more)
  {
    if |text| > DETAIL_LIMIT {
      assert (Bounded(text) + more)[..DETAIL_LIMIT] == text[..DETAIL_LIMIT] == (text + more)[..DETAIL_LIMIT];
    }
  }

  /** The recovery stands behind the reason exactly while both fit; a reason of the limit loses it whole. */
  lemma RecoveryFits(of: Detail)
    requires !of.Reconcile?
    ensures Spelled(Reconcile(of)) == Bounded(Said(of) + RECOVERY)
    ensures NamesRecovery(Spelled(Reconcile(of)), of) <==> |Said(of)| <= DETAIL_LIMIT - |RECOVERY|
    ensures |Said(of)| >= DETAIL_LIMIT ==> Spelled(Reconcile(of)) == Said(of)[..DETAIL_LIMIT]
  {
    BoundedTwice(Said(of), RECOVERY);
    assert |RECOVERY| == 33;
    if |Said(of)| >= DETAIL_LIMIT {
      assert (Said(of) + RECOVERY)[..DETAIL_LIMIT] == Said(of)[..DETAIL_LIMIT];
    }
  }

  // -- What a call's deliveries give as the reason --------------------------

  /** The last answer that settled nothing. */
  function LastRefusal(ds: seq<Delivery>): Option<Detail> {
    if ds == [] then None
    else
      var d := ds[|ds| - 1];
      if Retryable(d) then Some(Refused(d.status, d.body.code, d.body.message)) else LastRefusal(ds[..|ds| - 1])
  }

  /** Why a call with these deliveries is pending: how its last one went, or the last answer it had. */
  function PendingReason(made: seq<Delivery>): Option<Detail> {
    if made == [] then None
    else
      match made[|made| - 1]
      case Unobserved(timedOut, reason, _) => Some(if timedOut then TimedOut else Unknown(reason))
      case Answered(status, _, _) => if status == 200 || status == 201 then Some(NoDocument) else LastRefusal(made)
      case NeverSent(_) => LastRefusal(made)
  }

  lemma {:induction false} LastRefusalFrom(d: Delivery, ds: seq<Delivery>)
    ensures LastRefusal([d] + ds) == if LastRefusal(ds).Some? then LastRefusal(ds) else LastRefusal([d])
  {
    if ds == [] {
      assert [d] + ds == [d];
    } else {
      assert ([d] + ds)[..|ds|] == [d] + ds[..|ds| - 1];
      LastRefusalFrom(d, ds[..|ds| - 1]);
    }
  }

  lemma {:induction false} OutcomeReason(left: nat, p: Progress, requestId: string, ds: seq<Delivery>)
    requires left <= |ds| && Rest(left, p, requestId, ds).0.state == ArchivePending
    ensures var (o, n) := Rest(left, p, requestId, ds);
            var reason := if PendingReason(ds[..n]).Some? then PendingReason(ds[..n]) else p.lastAnswer;
            reason.Some? && o.detail == Some(Reconcile(reason.value))
    decreases left
  {
    if left > 0 {
      match Observe(p, requestId, ds[0])
      case Settled(_) =>
        assert ds[..1] == [ds[0]];
      case Again(q) =>
        var n := Rest(left - 1, q, requestId, ds[1..]).1;
        OutcomeReason(left - 1, q, requestId, ds[1..]);
        assert ds[..n + 1] == [ds[0]] + ds[1..][..n];
        LastRefusalFrom(ds[0], ds[1..][..n]);
        OneMoreReason(ds[0], ds[1..][..n]);
    }
  }

  lemma OneMoreReason(d: Delivery, ds: seq<Delivery>)
    requires d.NeverSent? || Retryable(d)
    ensures PendingReason([d] + ds) == if PendingReason(ds).Some? then PendingReason(ds) else LastRefusal([d])
  {
    LastRefusalFrom(d, ds);
    if ds == [] {
      assert [d] + ds == [d];
    }
  }

  /**
   The text a pending call records is its reason followed by the recovery, cut at the limit. It names
   the recovery whole exactly when the reason, told by the call's own deliveries, leaves room for it.
   */
  lemma PendingNamesItsRecovery(max: nat, requestId: string, ds: seq<Delivery>)
    requires max <= |ds| && Rest(max, FRESH, requestId, ds).0.state == ArchivePending
    ensures var (o, n) := Rest(max, FRESH, requestId, ds);
            var reason := PendingReason(ds[..n]);
            && reason.Some? && !reason.value.Reconcile? && o.detail.Some?
            && Spelled(o.detail.value) == Bounded(Said(reason.value) + RECOVERY)
            && (NamesRecovery(Spelled(o.detail.value), reason.value)
                <==> |Said(reason.value)| <= DETAIL_LIMIT - |RECOVERY|)
  {
    OutcomeReason(max, FRESH, requestId, ds);
    var n := Rest(max, FRESH, requestId, ds).1;
    ReasonIsPlain(ds[..n]);
    RecoveryFits(PendingReason(ds[..n]).value);
  }

  lemma {:induction false} RefusalIsPlain(ds: seq<Delivery>)
    ensures LastRefusal(ds).Some? ==> LastRefusal(ds).value.Refused?
  {
    if ds != [] {
      RefusalIsPlain(ds[..|ds| - 1]);
    }
  }

  lemma ReasonIsPlain(made: seq<Delivery>)
    ensures PendingReason(made).Some? ==> !PendingReason(made).value.Reconcile?
  {
    RefusalIsPlain(made);
  }

  /** The run that loses it: one answered 503 whose message fills the column on its own. */
  lemma RecoveryIsCutOff(requestId: string, message: string)
    requires |message| == DETAIL_LIMIT
    ensures var (o, n) := Rest(1, FRESH, requestId, [Answered(503, Body(None, None, Some(message)), true)]);
            && o.state == ArchivePending && o.detail.Some?
            && Spelled(o.detail.value) == Spelled(Refused(503, None, Some(message)))
            && !NamesRecovery(Spelled(o.detail.value), Refused(503, None, Some(message)))
  {
    var refused := Refused(503, None, Some(message));
    var ds := [Answered(503, Body(None, None, Some(message)), true)];
    assert Observe(FRESH, requestId, ds[0]) == Again(Progress(Unreachable, Some(refused)));
    assert |Said(refused)| > DETAIL_LIMIT;
    RecoveryFits(refused);
  }

  // -- What is recorded fits ------------------------------------------------

  /** Details that are safe to record as they stand. */
  predicate Recordable(detail: Detail) {
    detail.Unreachable? || detail.NotSent? || detail.Refused? || detail.Reconcile?
  }

  lemma RecordableIsBounded(detail: Detail)
    requires Recordable(detail)
    ensures |Spelled(detail)| <= DETAIL_LIMIT
  {
  }

  /** However a call goes, what it records fits the column, and only a verified outcome has no detail. */
  lemma {:induction false} RecordedDetailFits(left: nat, p: Progress, requestId: string, ds: seq<Delivery>)
    requires left <= |ds| && (p.notSent.Unreachable? || p.notSent.NotSent?)
    ensures var o := Rest(left, p, requestId, ds).0;
            && (o.detail.None? <==> o.state == ArchivedVerified)
            && (o.detail.Some? ==> |Spelled(o.detail.value)| <= DETAIL_LIMIT)
            && (o.state == ArchivePending <==> o.detail.Some? && o.detail.value.Reconcile?)
    decreases left
  {
    if left > 0 {
      match Observe(p, requestId, ds[0])
      case Settled(o) =>
        if o.detail.Some? {
          RecordableIsBounded(o.detail.value);
        }
      case Again(q) =>
        RecordedDetailFits(left - 1, q, requestId, ds[1..]);
    } else if p.lastAnswer.None? {
      RecordableIsBounded(p.notSent);
    } else {
      RecordableIsBounded(Reconcile(p.lastAnswer.value));
    }
  }
}
