/**
 Delivery of one artifact into Archive custody: which posts are retried, how the outcome is
 named, and what that name proves about an Archive whose commits are not directly observable.
 */
module ArchiveHandoff {
  import opened Wrappers
  import opened RenderStore

  // -- Identity of a custody request ----------------------------------------

  predicate IsSpace(c: char) {
    c == ' ' || c == '\t' || c == '\n' || c == '\r'
  }

  function StripLeft(s: string): string {
    if s != [] && IsSpace(s[0]) then StripLeft(s[1..]) else s
  }

  function StripRight(s: string): string {
    if s != [] && IsSpace(s[|s| - 1]) then StripRight(s[..|s| - 1]) else s
  }

  function Strip(s: string): string {
    StripRight(StripLeft(s))
  }

  function LowerChar(c: char): char {
    if 'A' <= c <= 'Z' then (c as int + 32) as char else c
  }

  function Lower(s: string): (r: string)
    ensures |r| == |s|
  {
    seq(|s|, i requires 0 <= i < |s| => LowerChar(s[i]))
  }

  /** `normalize_sha256`: strip, lower, drop the column's prefix. */
  function Normalize(value: string): string {
    var lowered := Lower(Strip(value));
    if "sha256:" <= lowered then lowered[7..] else lowered
  }

  /** What `hexdigest` returns. */
  predicate IsHexDigest(s: string) {
    |s| == 64 && forall k :: 0 <= k < |s| ==> ('0' <= s[k] <= '9' || 'a' <= s[k] <= 'f')
  }

  lemma StripKeeps(s: string)
    requires s != [] && !IsSpace(s[0]) && !IsSpace(s[|s| - 1])
    ensures Strip(s) == s
  {
    assert StripLeft(s) == s;
    assert StripRight(s) == s;
  }

  /** The column's spelling and the diagnostic's bare spelling name the same digest. */
  lemma TagIsTransparent(digest: string)
    requires IsHexDigest(digest)
    ensures Normalize(Tagged(digest)) == digest
    ensures Normalize(digest) == digest
  {
    var tagged := Tagged(digest);
    assert forall k :: 7 <= k < |tagged| ==> tagged[k] == digest[k - 7];
    StripKeeps(digest);
    StripKeeps(tagged);
    assert tagged[7..] == digest;
    assert "sha256:"[1] == 'h';
  }

  /** `derive_archive_request_id`, over the deployment's SHA-256. */
  function DeriveRequestId(sha: string -> string, reference: string, artifactSha256: string): string {
    var digest := sha(reference + "\n" + Normalize(artifactSha256));
    "areq_" + (if |digest| <= 32 then digest else digest[..32])
  }

  /** The parts of `render_context` custody depends on. */
  datatype Context = Context(custody: Option<map<string, string>>, reference: Option<string>)

  function ReconciliationRequestId(sha: string -> string, context: Context, artifactSha256: string): Option<string> {
    if context.custody.None? || context.reference.None? || Strip(context.reference.value) == [] then None
    else Some(DeriveRequestId(sha, Strip(context.reference.value), artifactSha256))
  }

  /** Every holder of the stored column and every holder of the bare digest derive one id. */
  lemma RequestIdReadsEitherSpelling(sha: string -> string, context: Context, digest: string)
    requires IsHexDigest(digest)
    ensures ReconciliationRequestId(sha, context, Tagged(digest)) == ReconciliationRequestId(sha, context, digest)
  {
    TagIsTransparent(digest);
  }

  // -- One delivery ---------------------------------------------------------

  datatype Body = Body(documentId: Option<string>, code: Option<string>, message: Option<string>)

  /** One post as the world sees it; `committed` is hidden from the caller. */
  datatype Delivery =
    | NeverSent(reason: string)
    | Unobserved(timedOut: bool, reason: string, committed: bool)
    | Answered(status: nat, body: Body, committed: bool)

  datatype Outcome = Outcome(
    state: ArchiveState, requestId: string, documentId: Option<string>, detail: Option<Detail>)

  function Pending(requestId: string, reason: Detail): Outcome {
    Outcome(ArchivePending, requestId, None, Some(Reconcile(reason)))
  }

  function RefusalDetail(status: nat, body: Body): Detail {
    Refused(status, body.code, body.message)
  }

  predicate NamesRecord(d: Delivery) {
    d.Answered? && (d.status == 200 || d.status == 201) && d.body.documentId.Some? && d.body.documentId.value != []
  }

  predicate Refuses(d: Delivery) {
    d.Answered? && 400 <= d.status < 500
  }

  /** An answer that settles nothing: neither a success nor a refusal. */
  predicate Retryable(d: Delivery) {
    d.Answered? && d.status != 200 && d.status != 201 && !(400 <= d.status < 500)
  }

  function SettledOutcome(status: nat, body: Body, requestId: string): Option<Outcome> {
    if status == 200 || status == 201 then
      if body.documentId.Some? && body.documentId.value != []
      then Some(Outcome(ArchivedVerified, requestId, body.documentId, None))
      else Some(Pending(requestId, NoDocument))
    else if 400 <= status < 500 then Some(Outcome(ArchiveFailed, requestId, None, Some(RefusalDetail(status, body))))
    else None
  }

  function UnobservedReason(timedOut: bool, reason: string): Detail {
    if timedOut then TimedOut else Unknown(reason)
  }

  /** The two details the retry loop carries. */
  datatype Progress = Progress(notSent: Detail, lastAnswer: Option<Detail>)

  const FRESH := Progress(Unreachable, None)

  datatype Observation = Settled(outcome: Outcome) | Again(progress: Progress)

  function Observe(p: Progress, requestId: string, d: Delivery): Observation {
    match d
    case NeverSent(reason) => Again(p.(notSent := NotSent(reason)))
    case Unobserved(timedOut, reason, _) => Settled(Pending(requestId, UnobservedReason(timedOut, reason)))
    case Answered(status, body, _) =>
      match SettledOutcome(status, body, requestId)
      case Some(outcome) => Settled(outcome)
      case None => Again(p.(lastAnswer := Some(RefusalDetail(status, body))))
  }

  function Exhausted(p: Progress, requestId: string): Outcome {
    if p.lastAnswer.Some? then Pending(requestId, p.lastAnswer.value)
    else Outcome(ArchiveFailed, requestId, None, Some(p.notSent))
  }

  /** `_unexpected_handoff_outcome`: an identity, when there is one, stays reconcilable. */
  function UnexpectedOutcome(requestId: Option<string>): Option<Outcome> {
    if requestId.None? then None else Some(Pending(requestId.value, Unexpected))
  }

  function AsCustody(o: Outcome): Custody {
    Custody(o.state, o.documentId, Some(o.requestId), o.detail)
  }

  // -- The bounded retry loop -----------------------------------------------

  /** Outcome of the remaining attempts, and how many of them are used. */
  function Rest(left: nat, p: Progress, requestId: string, ds: seq<Delivery>): (r: (Outcome, nat))
    requires left <= |ds|
    ensures r.1 <= left
    decreases left
  {
    if left == 0 then (Exhausted(p, requestId), 0)
    else match Observe(p, requestId, ds[0])
      case Settled(outcome) => (outcome, 1)
      case Again(p') => var (o, n) := Rest(left - 1, p', requestId, ds[1..]); (o, n + 1)
  }

  /** The outcome of a call that heard these deliveries and no more. */
  ghost predicate Concludes(max: nat, requestId: string, heard: seq<Delivery>, outcome: Outcome) {
    exists ds :: |ds| == max && heard <= ds && Rest(max, FRESH, requestId, ds) == (outcome, |heard|)
  }

  lemma RestGoesOn(left: nat, p: Progress, requestId: string, d: Delivery, tail: seq<Delivery>, q: Progress)
    requires left > 0 && |tail| == left - 1 && Observe(p, requestId, d) == Again(q)
    ensures Rest(left, p, requestId, [d] + tail)
            == (Rest(left - 1, q, requestId, tail).0, Rest(left - 1, q, requestId, tail).1 + 1)
  {
    assert ([d] + tail)[1..] == tail;
  }

  lemma RestSettles(left: nat, p: Progress, requestId: string, d: Delivery, tail: seq<Delivery>, o: Outcome)
    requires left > 0 && |tail| == left - 1 && Observe(p, requestId, d) == Settled(o)
    ensures Rest(left, p, requestId, [d] + tail) == (o, 1)
  {
  }

  lemma Reseated<T>(a: seq<T>, x: T, b: seq<T>)
    ensures a + [x] + b == a + ([x] + b)
  {
  }

  /** The progress after deliveries none of which settled the call. */
  function ProgressAfter(requestId: string, heard: seq<Delivery>): Option<Progress> {
    if heard == [] then Some(FRESH)
    else
      var p := ProgressAfter(requestId, heard[..|heard| - 1]);
      if p.None? then None
      else
        match Observe(p.value, requestId, heard[|heard| - 1])
        case Again(q) => Some(q)
        case Settled(_) => None
  }

  lemma OneMoreHeard(requestId: string, heard: seq<Delivery>, p: Progress, d: Delivery, q: Progress)
    requires ProgressAfter(requestId, heard) == Some(p) && Observe(p, requestId, d) == Again(q)
    ensures ProgressAfter(requestId, heard + [d]) == Some(q)
  {
    assert (heard + [d])[..|heard|] == heard;
  }

  /** The loop's progress is what its deliveries so far make of any that may follow. */
  lemma {:induction false} RestOfHeard(
    requestId: string, heard: seq<Delivery>, p: Progress, tail: seq<Delivery>, o: Outcome, n: nat)
    requires ProgressAfter(requestId, heard) == Some(p) && Rest(|tail|, p, requestId, tail) == (o, n)
    ensures Rest(|heard + tail|, FRESH, requestId, heard + tail) == (o, |heard| + n)
    decreases |heard|
  {
    if heard == [] {
      assert heard + tail == tail;
    } else {
      var init, last := heard[..|heard| - 1], heard[|heard| - 1];
      var q, more := ProgressAfter(requestId, init).value, [last] + tail;
      RestGoesOn(|more|, q, requestId, last, tail, p);
      RestOfHeard(requestId, init, q, more, o, n + 1);
      assert heard + tail == init + more;
    }
  }

  lemma ConcludesExhausted(requestId: string, heard: seq<Delivery>, p: Progress)
    requires ProgressAfter(requestId, heard) == Some(p)
    ensures Concludes(|heard|, requestId, heard, Exhausted(p, requestId))
  {
    RestOfHeard(requestId, heard, p, [], Exhausted(p, requestId), 0);
    assert heard + [] == heard;
  }

  lemma ConcludesSettled(max: nat, requestId: string, heard: seq<Delivery>, p: Progress, d: Delivery, o: Outcome)
    requires ProgressAfter(requestId, heard) == Some(p) && |heard| < max && Observe(p, requestId, d) == Settled(o)
    ensures Concludes(max, requestId, heard + [d], o)
  {
    var tail := seq(max - |heard| - 1, _ => NeverSent(""));
    var more := [d] + tail;
    RestSettles(|more|, p, requestId, d, tail, o);
    RestOfHeard(requestId, heard, p, more, o, 1);
    Reseated(heard, d, tail);
    ConcludesOn(max, requestId, heard + [d], heard + more, o);
  }

  lemma ConcludesOn(max: nat, requestId: string, heard: seq<Delivery>, ds: seq<Delivery>, o: Outcome)
    requires |ds| == max && heard <= ds && Rest(max, FRESH, requestId, ds) == (o, |heard|)
    ensures Concludes(max, requestId, heard, o)
  {
  }

  method PostUntilSettled(maxAttempts: nat, requestId: string, transport: seq<Delivery>)
    returns (outcome: Outcome, used: nat)
    requires maxAttempts <= |transport|
    ensures (outcome, used) == Rest(maxAttempts, FRESH, requestId, transport)
  {
    var notSentDetail := Unreachable;
    var lastAnswerDetail: Option<Detail> := None;
    used := 0;
    while used < maxAttempts
      invariant used <= maxAttempts
      invariant Rest(maxAttempts, FRESH, requestId, transport)
                == var p := Progress(notSentDetail, lastAnswerDetail);
                   var (o, n) := Rest(maxAttempts - used, p, requestId, transport[used..]);
                   (o, n + used)
    {
      var d := transport[used];
      assert transport[used..][1..] == transport[used + 1..];
      used := used + 1;
      match d {
        case NeverSent(reason) =>
          notSentDetail := NotSent(reason);
        case Unobserved(timedOut, reason, _) =>
          outcome := Pending(requestId, UnobservedReason(timedOut, reason));
          return;
        case Answered(status, body, _) =>
          var settled := SettledOutcome(status, body, requestId);
          if settled.Some? {
            outcome := settled.value;
            return;
          }
          lastAnswerDetail := Some(RefusalDetail(status, body));
      }
    }
    if lastAnswerDetail.Some? {
      outcome := Pending(requestId, lastAnswerDetail.value);
    } else {
      outcome := Outcome(ArchiveFailed, requestId, None, Some(notSentDetail));
    }
  }

  // -- Archive --------------------------------------------------------------

  /** Archive's custody records by request id. */
  type Records = map<string, string>

  predicate Commits(d: Delivery) {
    !d.NeverSent? && d.committed
  }

  /** A commit under a known id converges on the record already there. */
  function After(records: Records, requestId: string, minted: string, d: Delivery): (r: Records)
    ensures records.Keys <= r.Keys && r.Keys <= records.Keys + {requestId}
    ensures forall id :: id in records ==> r[id] == records[id]
  {
    if Commits(d) && requestId !in records then records[requestId := minted] else records
  }

  /** A success naming a document names the record it left; a refusal commits nothing itself. */
  predicate Truthful(records: Records, requestId: string, minted: string, d: Delivery) {
    && (NamesRecord(d) ==>
          var r := After(records, requestId, minted, d);
          requestId in r && Some(r[requestId]) == d.body.documentId)
    && (Refuses(d) ==> !d.committed)
  }

  /** A refusal judges the content, so content that is refused never commits. */
  predicate Judged(rejects: bool, d: Delivery) {
    (Refuses(d) ==> rejects) && (Commits(d) ==> !rejects)
  }

  function RecordsAfter(records: Records, requestId: string, minted: string, ds: seq<Delivery>): Records
    decreases |ds|
  {
    if ds == [] then records
    else RecordsAfter(After(records, requestId, minted, ds[0]), requestId, minted, ds[1..])
  }

  predicate TruthfulRun(records: Records, requestId: string, minted: string, ds: seq<Delivery>)
    decreases |ds|
  {
    ds == [] || (Truthful(records, requestId, minted, ds[0])
                 && TruthfulRun(After(records, requestId, minted, ds[0]), requestId, minted, ds[1..]))
  }

  predicate AnyCommit(ds: seq<Delivery>) {
    exists k :: 0 <= k < |ds| && Commits(ds[k])
  }

  predicate AnyRetryable(ds: seq<Delivery>) {
    exists k :: 0 <= k < |ds| && Retryable(ds[k])
  }

  lemma {:induction false} RecordsOnlyGainTheRequest(
    records: Records, requestId: string, minted: string, ds: seq<Delivery>)
    ensures var r := RecordsAfter(records, requestId, minted, ds);
            && records.Keys <= r.Keys <= records.Keys + {requestId}
            && (forall id :: id in records ==> r[id] == records[id])
    decreases |ds|
  {
    if ds != [] {
      RecordsOnlyGainTheRequest(After(records, requestId, minted, ds[0]), requestId, minted, ds[1..]);
    }
  }

  /** The posts a call really makes. */
  function Made(left: nat, p: Progress, requestId: string, ds: seq<Delivery>): seq<Delivery>
    requires left <= |ds|
  {
    ds[..Rest(left, p, requestId, ds).1]
  }

  /** A verified outcome names a record Archive holds, whatever happened on the way. */
  lemma {:induction false} VerifiedIsHeld(
    left: nat, p: Progress, requestId: string, ds: seq<Delivery>, records: Records, minted: string)
    requires left <= |ds| && TruthfulRun(records, requestId, minted, Made(left, p, requestId, ds))
    requires Rest(left, p, requestId, ds).0.state == ArchivedVerified
    ensures var r := RecordsAfter(records, requestId, minted, Made(left, p, requestId, ds));
            requestId in r && Rest(left, p, requestId, ds).0.documentId == Some(r[requestId])
    decreases left
  {
    if left > 0 {
      var made := Made(left, p, requestId, ds);
      assert made[0] == ds[0];
      var r := After(records, requestId, minted, ds[0]);
      match Observe(p, requestId, ds[0])
      case Settled(_) =>
        assert made[1..] == [];
      case Again(p') =>
        assert made[1..] == Made(left - 1, p', requestId, ds[1..]);
        VerifiedIsHeld(left - 1, p', requestId, ds[1..], r, minted);
    }
  }

  /**
   The outcome read off the posts: every post but the last was never sent or answered without
   settling; verified means the last named a record; failed means the last refused, or nothing
   was ever answered. Anything else, one answered 5xx included, is pending.
   */
  lemma {:induction false} OutcomeAnatomy(left: nat, p: Progress, requestId: string, ds: seq<Delivery>)
    requires left <= |ds|
    ensures var (o, n) := Rest(left, p, requestId, ds);
            && (forall k :: 0 <= k < n - 1 ==> ds[k].NeverSent? || Retryable(ds[k]))
            && (n < left ==> n > 0 && !ds[n - 1].NeverSent? && !Retryable(ds[n - 1]))
            && (o.state == ArchivedVerified <==> n > 0 && NamesRecord(ds[n - 1]))
            && (o.state == ArchiveFailed <==>
                  (n > 0 && Refuses(ds[n - 1])) || (p.lastAnswer.None? && forall k :: 0 <= k < n ==> ds[k].NeverSent?))
    decreases left
  {
    if left > 0 {
      match Observe(p, requestId, ds[0])
      case Settled(_) =>
      case Again(p') =>
        var rest := ds[1..];
        OutcomeAnatomy(left - 1, p', requestId, rest);
        var n := Rest(left, p, requestId, ds).1;
        assert forall k :: 1 <= k < n ==> ds[k] == rest[k - 1];
        assert forall k :: 0 <= k < n - 1 ==> rest[k] == ds[k + 1];
    }
  }

  /**
   The header's promise. When a refusal is a deterministic judgement of the content, an
   `archive_failed` outcome proves that no post of the call committed and Archive is unchanged.
   */
  lemma FailedMeansAbsent(
    maxAttempts: nat, requestId: string, ds: seq<Delivery>, records: Records, minted: string, rejects: bool)
    requires maxAttempts <= |ds|
    requires forall k :: 0 <= k < |ds| ==> Judged(rejects, ds[k])
    requires Rest(maxAttempts, FRESH, requestId, ds).0.state == ArchiveFailed
    ensures !AnyCommit(Made(maxAttempts, FRESH, requestId, ds))
    ensures RecordsAfter(records, requestId, minted, Made(maxAttempts, FRESH, requestId, ds)) == records
  {
    OutcomeAnatomy(maxAttempts, FRESH, requestId, ds);
    var made := Made(maxAttempts, FRESH, requestId, ds);
    assert |made| > 0 && Refuses(ds[|made| - 1]) ==> rejects;
    assert forall k :: 0 <= k < |made| ==> made[k] == ds[k];
    NothingCommitted(records, requestId, minted, made);
  }

  lemma {:induction false} NothingCommitted(records: Records, requestId: string, minted: string, ds: seq<Delivery>)
    requires !AnyCommit(ds)
    ensures RecordsAfter(records, requestId, minted, ds) == records
    decreases |ds|
  {
    if ds != [] {
      assert !Commits(ds[0]);
      assert !AnyCommit(ds[1..]) by {
        forall k | 0 <= k < |ds| - 1
          ensures !Commits(ds[1..][k])
        {
          assert !Commits(ds[k + 1]);
        }
      }
      NothingCommitted(records, requestId, minted, ds[1..]);
    }
  }

  // -- Without the judgement hypothesis -------------------------------------

  /** Two runs the caller cannot tell apart. */
  predicate LookAlike(d: Delivery, e: Delivery) {
    match d
    case NeverSent(_) => e == d
    case Unobserved(t, r, _) => e.Unobserved? && e.timedOut == t && e.reason == r
    case Answered(s, b, _) => e.Answered? && e.status == s && e.body == b
  }

  predicate LookAlikeRun(ds: seq<Delivery>, es: seq<Delivery>) {
    |ds| == |es| && forall k :: 0 <= k < |ds| ==> LookAlike(ds[k], es[k])
  }

  predicate RefusalsCommitNothing(ds: seq<Delivery>) {
    forall k :: 0 <= k < |ds| && Refuses(ds[k]) ==> !Commits(ds[k])
  }

  /**
   If a refusal only speaks for its own post, `archive_failed` proves absence exactly when no
   unsettled answer preceded it: a 5xx that committed followed by, say, a 429 reads the same.
   */
  lemma FailedProvesAbsenceIff(maxAttempts: nat, requestId: string, ds: seq<Delivery>)
    requires maxAttempts <= |ds|
    requires Rest(maxAttempts, FRESH, requestId, ds).0.state == ArchiveFailed
    ensures (forall es :: LookAlikeRun(Made(maxAttempts, FRESH, requestId, ds), es) && RefusalsCommitNothing(es)
                          ==> !AnyCommit(es))
            <==> !AnyRetryable(Made(maxAttempts, FRESH, requestId, ds))
  {
    var made := Made(maxAttempts, FRESH, requestId, ds);
    OutcomeAnatomy(maxAttempts, FRESH, requestId, ds);
    if AnyRetryable(made) {
      var k :| 0 <= k < |made| && Retryable(made[k]);
      var es := seq(|made|, i requires 0 <= i < |made| =>
        match made[i]
        case NeverSent(_) => made[i]
        case Unobserved(t, r, _) => Unobserved(t, r, false)
        case Answered(s, b, _) => Answered(s, b, i == k));
      assert LookAlikeRun(made, es) && RefusalsCommitNothing(es) && Commits(es[k]);
    } else {
      forall es | LookAlikeRun(made, es) && RefusalsCommitNothing(es)
        ensures !AnyCommit(es)
      {
        forall k | 0 <= k < |es|
          ensures !Commits(es[k])
        {
          assert LookAlike(made[k], es[k]) && !Retryable(made[k]);
        }
      }
    }
  }

  /** The concrete run: an erroring post that committed, then a refusal that did not. */
  lemma CommittedYetFailed()
    ensures var none := Body(None, None, None);
            var ds := [Answered(503, none, true), Answered(429, none, false)];
            && RefusalsCommitNothing(ds) && AnyCommit(Made(2, FRESH, "areq", ds))
            && Rest(2, FRESH, "areq", ds).0.state == ArchiveFailed
  {
    var none := Body(None, None, None);
    var ds := [Answered(503, none, true), Answered(429, none, false)];
    assert Observe(FRESH, "areq", ds[0]).Again?;
    assert ds[1..] == [ds[1]];
    assert Rest(2, FRESH, "areq", ds).1 == 2;
    assert Commits(Made(2, FRESH, "areq", ds)[0]);
  }

  /** Replaying the delivery any number of times leaves at most the one record. */
  lemma {:induction false} ReplaysConverge(
    calls: seq<seq<Delivery>>, requestId: string, minted: seq<string>, records: Records)
    requires |minted| == |calls|
    ensures var r := AfterCalls(calls, requestId, minted, records);
            && r.Keys <= records.Keys + {requestId}
            && |r| <= |records| + 1
            && (forall id :: id in records ==> id in r && r[id] == records[id])
    decreases |calls|
  {
    if calls != [] {
      var first := RecordsAfter(records, requestId, minted[0], calls[0]);
      RecordsOnlyGainTheRequest(records, requestId, minted[0], calls[0]);
      ReplaysConverge(calls[1..], requestId, minted[1..], first);
    }
    var r := AfterCalls(calls, requestId, minted, records);
    KeysBound(records.Keys, r.Keys, requestId);
  }

  function AfterCalls(calls: seq<seq<Delivery>>, requestId: string, minted: seq<string>, records: Records): Records
    requires |minted| == |calls|
    decreases |calls|
  {
    if calls == [] then records
    else AfterCalls(calls[1..], requestId, minted[1..], RecordsAfter(records, requestId, minted[0], calls[0]))
  }

  lemma {:induction false} SubsetIsSmaller<T>(a: set<T>, b: set<T>)
    requires a <= b
    ensures |a| <= |b|
  {
    if a != {} {
      var x :| x in a;
      SubsetIsSmaller(a - {x}, b - {x});
    }
  }

  lemma KeysBound(a: set<string>, b: set<string>, extra: string)
    requires b <= a + {extra}
    ensures |b| <= |a| + 1
  {
    SubsetIsSmaller(b, a + {extra});
  }
}
