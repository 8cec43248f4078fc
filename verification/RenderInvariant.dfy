/**
 The inductive invariant of every interleaving. It says of the row what the ledger of what really
 happened allows, and of each attempt what may be relied on at its program point: whom a claim was
 granted to, that a loser's claim is superseded, that whoever hands off is the one whose completion
 landed, and that an outcome about to be recorded claims no more than is so. One lemma per kind of
 step shows that the step keeps it.
 */
module RenderInvariant {
  import opened Wrappers
  import opened Timestamps
  import opened RenderStore
  import opened ArchiveHandoff
  import opened RenderExecution
  import opened RenderProtocol

  /** The claim lost: the job is settled, or belongs to a later claim. */
  ghost predicate Superseded(row: Option<Job>, g: nat) {
    row.Some? && (row.value.Terminal() || row.value.generation > g)
  }

  /** The column says what these bytes hash to. */
  ghost predicate Matches(d: Deployment, job: Job, bytes: Bytes) {
    && job.status == Rendered
    && job.artifactSha256.Some?
    && Normalize(job.artifactSha256.value) == d.sha256(bytes)
  }

  /** This attempt's completion is the one that landed, and the row still says so. */
  ghost predicate Won(d: Deployment, row: Option<Job>, l: Ledger, i: nat, a: Attempt, stored: Job, bytes: Bytes) {
    && row.Some? && row.value.status == Rendered
    && row.value.packageHash == a.package
    && a.claim == Some(row.value.generation) && a.slot
    && row.value.artifactSha256 == Some(Tagged(d.sha256(bytes)))
    && l.terminals == [i]
    && row.value.custody.None? && l.custodians == []
    && stored.status == Rendered
    && stored.generation == row.value.generation
    && stored.artifactSha256 == row.value.artifactSha256
    && RequestId(d, a.package, d.sha256(bytes)).Some?
  }

  /** The outcome claims no more than is so. */
  ghost predicate Truth(l: Ledger, archive: Records, requestId: string, o: Outcome) {
    && o.requestId == requestId
    && (o.state == ArchivedVerified ==> requestId in archive && o.documentId == Some(archive[requestId]))
    && (o.state == ArchiveFailed ==> !l.committed)
  }

  ghost predicate AttemptOk(d: Deployment, row: Option<Job>, l: Ledger, archive: Records, i: nat, a: Attempt) {
    && (a.claim.Some? ==>
          && row.Some? && row.value.packageHash == a.package
          && 1 <= a.claim.value <= row.value.generation
          && a.claim.value in l.grants && l.grants[a.claim.value] == i)
    && (a.faulted ==> a.pc.Done?)
    && match a.pc
       case Intake => a.claim.None? && !a.slot
       case Admitted(c) =>
         && a.claim.None? && !a.slot && row.Some? && row.value.packageHash == a.package
         && !c.Terminal() && (d.refusal(a.package).Some? ==> c.generation == 0)
       case Cleared(c) =>
         a.claim.None? && !a.slot && row.Some? && row.value.packageHash == a.package && d.refusal(a.package).None?
       case Slotted(c) =>
         a.claim.None? && a.slot && row.Some? && row.value.packageHash == a.package && d.refusal(a.package).None?
       case Engine => a.claim.Some? && a.slot
       case Produced(_) => a.claim.Some? && a.slot
       case Failing(_, g) =>
         && row.Some? && row.value.packageHash == a.package
         && (a.claim == Some(g) ==> a.slot)
         && (a.claim != Some(g) ==> a.claim.None? && g == 0 && d.refusal(a.package).Some?)
       case Adopting(_) => a.claim.Some? && a.slot && Superseded(row, a.claim.value)
       case Yielding => row.Some? && (a.claim.Some? ==> Superseded(row, a.claim.value))
       case Posting(stored, bytes, left, p) =>
         && Won(d, row, l, i, a, stored, bytes) && d.handoff && 0 < left <= d.maxAttempts
         && (l.committed ==> p.lastAnswer.Some?)
       case Recording(stored, bytes, o) =>
         && Won(d, row, l, i, a, stored, bytes) && d.handoff
         && Truth(l, archive, RequestId(d, a.package, d.sha256(bytes)).value, o)
       case Done(exit) =>
         && (a.claim.Some? && !a.faulted ==> Superseded(row, a.claim.value))
         && (exit.Responded? && exit.bytes.Some? ==> Matches(d, exit.job, exit.bytes.value))
  }

  ghost predicate PostOk(d: Deployment, j: Job, l: Ledger, p: Post) {
    && j.artifactSha256.Some? && l.terminals != []
    && p.attempt == l.terminals[0]
    && p.generation == j.generation
    && Some(p.requestId) == RequestId(d, j.packageHash, j.artifactSha256.value)
  }

  ghost predicate RowOk(d: Deployment, row: Option<Job>, l: Ledger, archive: Records)
  {
    if row.None? then l == Ledger(map[], [], [], [], false)
    else
      var j := row.value;
      && (j.status == Accepted ==> j.generation == 0)
      && (j.status == Rendering ==> j.generation >= 1)
      && (j.status == Rendered ==> j.generation >= 1 && j.artifactSha256.Some?)
      && (d.refusal(j.packageHash).Some? ==> j.generation == 0)
      && (forall g :: g in l.grants <==> 1 <= g <= j.generation)
      && |l.terminals| == (if j.Terminal() then 1 else 0)
      && (j.status == Rendered ==> l.grants[j.generation] == l.terminals[0])
      && (l.committed ==> l.posts != [] && !d.rejects(l.posts[0].requestId))
      && (l.posts != [] || l.custodians != [] || j.custody.Some? ==> j.status == Rendered)
      && (forall k :: 0 <= k < |l.posts| ==> PostOk(d, j, l, l.posts[k]))
      && (j.custody.None? <==> l.custodians == [])
      && (l.custodians != [] ==> l.custodians == l.terminals)
      && (j.custody.Some? ==>
            var id := RequestId(d, j.packageHash, j.artifactSha256.value);
            && id.Some? && j.custody.value.requestId == id
            && (j.custody.value.state == ArchivedVerified ==>
                  id.value in archive && j.custody.value.documentId == Some(archive[id.value]))
            && (j.custody.value.state == ArchiveFailed ==> !l.committed))
  }

  ghost predicate SlotsOk(d: Deployment, w: World) {
    && (forall p :: p in w.slots ==> Conserved(w.slots[p], d.limit))
    && (forall p, i :: p in w.slots && i in w.slots[p].holders ==>
          i in w.attempts && w.attempts[i].slot && w.attempts[i].process == p)
    && (forall i :: i in w.attempts && w.attempts[i].slot ==>
          w.attempts[i].process in w.slots && i in w.slots[w.attempts[i].process].holders)
  }

  ghost predicate AttemptsOk(d: Deployment, w: World) {
    forall i :: i in w.attempts ==> AttemptOk(d, w.row, w.ledger, w.archive, i, w.attempts[i])
  }

  ghost predicate Inv(d: Deployment, w: World) {
    RowOk(d, w.row, w.ledger, w.archive) && AttemptsOk(d, w) && SlotsOk(d, w)
  }

  // -- Framing --------------------------------------------------------------

  ghost predicate RowEvolves(before: Option<Job>, after: Option<Job>) {
    before.Some? ==> after.Some? && Evolves(before.value, after.value)
  }

  /** Nothing recorded is ever taken back. */
  ghost predicate Grows(before: World, after: World) {
    && RowEvolves(before.row, after.row)
    && (forall g :: g in before.ledger.grants ==>
          g in after.ledger.grants && after.ledger.grants[g] == before.ledger.grants[g])
    && before.ledger.terminals <= after.ledger.terminals
    && before.ledger.posts <= after.ledger.posts
    && before.ledger.custodians <= after.ledger.custodians
    && (forall id :: id in before.archive ==> id in after.archive && after.archive[id] == before.archive[id])
    && (before.ledger.committed ==> after.ledger.committed)
  }

  ghost predicate Handing(a: Attempt) {
    a.pc.Posting? || a.pc.Recording?
  }

  /** The columns and ledger entries only the winner touches. */
  ghost predicate Quiet(before: World, after: World) {
    && after.ledger.committed == before.ledger.committed
    && after.ledger.custodians == before.ledger.custodians
    && (before.row.Some? && after.row.Some? ==> after.row.value.custody == before.row.value.custody)
  }

  /** At most one attempt is past a landed completion. */
  lemma HandingIsExclusive(d: Deployment, w: World, i: nat, j: nat)
    requires Inv(d, w) && i in w.attempts && j in w.attempts
    requires Handing(w.attempts[i]) && Handing(w.attempts[j])
    ensures i == j
  {
    assert AttemptOk(d, w.row, w.ledger, w.archive, i, w.attempts[i]);
    assert AttemptOk(d, w.row, w.ledger, w.archive, j, w.attempts[j]);
    assert w.ledger.terminals[0] == i && w.ledger.terminals[0] == j;
  }

  /** What a step of attempt `i` relies on. */
  ghost predicate Here(d: Deployment, w: World, i: nat) {
    && RowOk(d, w.row, w.ledger, w.archive)
    && i in w.attempts
    && AttemptOk(d, w.row, w.ledger, w.archive, i, w.attempts[i])
  }

  /** What a step of attempt `i` guarantees; only the winner touches the winner's columns. */
  ghost predicate Steps(d: Deployment, w: World, w': World, i: nat) {
    && Grows(w, w')
    && RowOk(d, w'.row, w'.ledger, w'.archive)
    && i in w'.attempts && w'.attempts == w.attempts[i := w'.attempts[i]]
    && AttemptOk(d, w'.row, w'.ledger, w'.archive, i, w'.attempts[i])
    && (Quiet(w, w') || (i in w.attempts && Handing(w.attempts[i])))
  }

  lemma StepKeeps(d: Deployment, w: World, w': World, i: nat)
    requires Inv(d, w) && Steps(d, w, w', i) && SlotsOk(d, w')
    ensures Inv(d, w')
  {
    forall j | j in w'.attempts
      ensures AttemptOk(d, w'.row, w'.ledger, w'.archive, j, w'.attempts[j])
    {
      if j != i {
        if Handing(w.attempts[j]) && !Quiet(w, w') {
          HandingIsExclusive(d, w, i, j);
        }
      }
    }
  }

  // -- Steps ----------------------------------------------------------------

  /** A step that moves only its own attempt leaves every shared fact in place. */
  lemma MovesOnly(d: Deployment, w: World, w': World, i: nat)
    requires Here(d, w, i)
    requires w'.row == w.row && w'.ledger == w.ledger && w'.archive == w.archive
    requires i in w'.attempts && w'.attempts == w.attempts[i := w'.attempts[i]]
    requires AttemptOk(d, w.row, w.ledger, w.archive, i, w'.attempts[i])
    ensures Steps(d, w, w', i)
  {
  }

  lemma CreateSteps(d: Deployment, w: World, i: nat, now: Instant, fault: Fault)
    requires Here(d, w, i) && w.attempts[i].pc.Intake?
    ensures Steps(d, w, CreateStep(w, i, w.attempts[i], now, fault), i)
  {
    var a := w.attempts[i];
    var w' := CreateStep(w, i, a, now, fault);
    if fault == Lost {
      MovesOnly(d, w, w', i);
    } else if w.row.Some? {
      MovesOnly(d, w, w', i);
    }
  }

  lemma AdmitSteps(d: Deployment, w: World, i: nat)
    requires Here(d, w, i) && w.attempts[i].pc.Admitted?
    ensures Steps(d, w, AdmitStep(d, w, i, w.attempts[i]), i)
  {
    MovesOnly(d, w, AdmitStep(d, w, i, w.attempts[i]), i);
  }

  lemma AcquireSteps(d: Deployment, w: World, i: nat)
    requires Here(d, w, i) && w.attempts[i].pc.Cleared?
    ensures Steps(d, w, AcquireStep(d, w, i, w.attempts[i]), i)
  {
    MovesOnly(d, w, AcquireStep(d, w, i, w.attempts[i]), i);
  }

  lemma ReleaseSteps(d: Deployment, w: World, i: nat)
    requires Here(d, w, i) && w.attempts[i].pc.Done? && w.attempts[i].slot
    ensures Steps(d, w, ReleaseStep(d, w, i, w.attempts[i]), i)
  {
    MovesOnly(d, w, ReleaseStep(d, w, i, w.attempts[i]), i);
  }

  lemma RenderSteps(d: Deployment, w: World, i: nat, result: EngineResult)
    requires Here(d, w, i) && w.attempts[i].pc.Engine? && w.attempts[i].claim.Some?
    ensures Steps(d, w, RenderStep(w, i, w.attempts[i], result), i)
  {
    MovesOnly(d, w, RenderStep(w, i, w.attempts[i], result), i);
  }

  lemma RereadSteps(d: Deployment, w: World, i: nat, unreadable: bool)
    requires Here(d, w, i) && (w.attempts[i].pc.Adopting? || w.attempts[i].pc.Yielding?)
    ensures Steps(d, w, RereadStep(d, w, i, w.attempts[i], unreadable), i)
  {
    RereadOk(d, w, i, unreadable);
    MovesOnly(d, w, RereadStep(d, w, i, w.attempts[i], unreadable), i);
  }

  lemma RereadOk(d: Deployment, w: World, i: nat, unreadable: bool)
    requires Here(d, w, i) && (w.attempts[i].pc.Adopting? || w.attempts[i].pc.Yielding?)
    ensures AttemptOk(d, w.row, w.ledger, w.archive, i, RereadStep(d, w, i, w.attempts[i], unreadable).attempts[i])
  {
  }

  /** A granted claim: the next generation, to one attempt, on a package never refused. */
  lemma ClaimedRow(d: Deployment, w: World, i: nat, now: Instant)
    requires RowOk(d, w.row, w.ledger, w.archive) && w.row.Some?
    requires Claimable(w.row.value, now, d.staleSeconds) && d.refusal(w.row.value.packageHash).None?
    ensures var job := Claimed(w.row.value, now);
            RowOk(d, Some(job), w.ledger.(grants := w.ledger.grants[job.generation := i]), w.archive)
  {
  }

  lemma ClaimSteps(d: Deployment, w: World, i: nat, now: Instant, fault: Fault)
    requires Here(d, w, i) && w.attempts[i].pc.Slotted?
    ensures Steps(d, w, ClaimStep(d, w, i, w.attempts[i], now, fault), i)
  {
    if fault != Lost && Claimable(w.row.value, now, d.staleSeconds) {
      ClaimedRow(d, w, i, now);
    } else {
      MovesOnly(d, w, ClaimStep(d, w, i, w.attempts[i], now, fault), i);
    }
  }

  /** A terminal write that lands is the row's one terminal write. */
  lemma TerminalRow(d: Deployment, w: World, i: nat, job: Job)
    requires RowOk(d, w.row, w.ledger, w.archive) && w.row.Some? && !w.row.value.Terminal()
    requires job.Terminal() && job.generation == w.row.value.generation
    requires job.packageHash == w.row.value.packageHash && job.custody == w.row.value.custody
    requires job.status == Rendered ==>
               && job.generation >= 1 && job.artifactSha256.Some?
               && job.generation in w.ledger.grants && w.ledger.grants[job.generation] == i
    ensures RowOk(d, Some(job), w.ledger.(terminals := w.ledger.terminals + [i]), w.archive)
    ensures w.ledger.terminals == []
  {
  }

  lemma CompleteSteps(d: Deployment, w: World, i: nat, now: Instant, fault: Fault)
    requires Here(d, w, i) && w.attempts[i].pc.Produced? && w.attempts[i].claim.Some?
    requires Sound(d, w.attempts[i].pc.bytes)
    ensures Steps(d, w, CompleteStep(d, w, i, w.attempts[i], now, fault), i)
  {
    var a := w.attempts[i];
    var w' := CompleteStep(d, w, i, a, now, fault);
    if fault != Lost && MayComplete(w.row.value, a.claim.value) {
      TerminalRow(d, w, i, Completed(w.row.value, d.sha256(a.pc.bytes), now));
      CompleteAttempt(d, w, i, now, fault);
    } else {
      MovesOnly(d, w, w', i);
    }
  }

  lemma CompleteAttempt(d: Deployment, w: World, i: nat, now: Instant, fault: Fault)
    requires Here(d, w, i) && w.attempts[i].pc.Produced? && w.attempts[i].claim.Some?
    requires Sound(d, w.attempts[i].pc.bytes)
    requires fault != Lost && MayComplete(w.row.value, w.attempts[i].claim.value)
    ensures var w' := CompleteStep(d, w, i, w.attempts[i], now, fault);
            AttemptOk(d, w'.row, w'.ledger, w'.archive, i, w'.attempts[i])
  {
    var a := w.attempts[i];
    TagIsTransparent(d.sha256(a.pc.bytes));
    TerminalRow(d, w, i, Completed(w.row.value, d.sha256(a.pc.bytes), now));
  }

  lemma FailSteps(d: Deployment, w: World, i: nat, now: Instant, fault: Fault)
    requires Here(d, w, i) && w.attempts[i].pc.Failing?
    ensures Steps(d, w, FailStep(w, i, w.attempts[i], now, fault), i)
  {
    var a := w.attempts[i];
    if fault != Lost && MayFail(w.row.value, a.pc.expected) {
      FailureLands(d, w, i, now, fault);
    } else {
      MovesOnly(d, w, FailStep(w, i, a, now, fault), i);
    }
  }

  lemma FailureLands(d: Deployment, w: World, i: nat, now: Instant, fault: Fault)
    requires Here(d, w, i) && w.attempts[i].pc.Failing?
    requires fault != Lost && MayFail(w.row.value, w.attempts[i].pc.expected)
    ensures Steps(d, w, FailStep(w, i, w.attempts[i], now, fault), i)
  {
    var job := FailedWith(w.row.value, w.attempts[i].pc.failure, now);
    TerminalRow(d, w, i, job);
    assert Superseded(Some(job), 0) && RowEvolves(w.row, Some(job));
  }

  /** A post by the winner, under the one id the stored digest derives. */
  lemma PostedRow(d: Deployment, w: World, i: nat, g: nat, id: string, minted: string, delivery: Delivery)
    requires RowOk(d, w.row, w.ledger, w.archive) && w.row.Some?
    requires w.row.value.status == Rendered && w.row.value.generation == g
    requires w.row.value.custody.None? && w.ledger.terminals == [i]
    requires RequestId(d, w.row.value.packageHash, w.row.value.artifactSha256.value) == Some(id)
    requires Commits(delivery) ==> !d.rejects(id)
    ensures var w' := Posted(w, i, g, id, minted, delivery);
            Grows(w, w') && RowOk(d, w'.row, w'.ledger, w'.archive)
  {
    var w' := Posted(w, i, g, id, minted, delivery);
    assert forall k :: 0 <= k < |w.ledger.posts| ==> w'.ledger.posts[k] == w.ledger.posts[k];
  }

  /** What the winner knows at the point of posting. */
  lemma WinnerFacts(d: Deployment, w: World, i: nat) returns (id: string)
    requires Here(d, w, i) && Handing(w.attempts[i]) && Sound(d, w.attempts[i].pc.bytes)
    ensures w.row.Some? && w.row.value.status == Rendered && w.row.value.custody.None?
    ensures w.attempts[i].claim == Some(w.row.value.generation) && w.ledger.terminals == [i]
    ensures RequestId(d, w.row.value.packageHash, w.row.value.artifactSha256.value) == Some(id)
    ensures RequestId(d, w.attempts[i].package, d.sha256(w.attempts[i].pc.bytes)) == Some(id)
  {
    var a := w.attempts[i];
    RequestIdReadsEitherSpelling(d.sha, d.context(a.package), d.sha256(a.pc.bytes));
    id := RequestId(d, a.package, d.sha256(a.pc.bytes)).value;
  }

  lemma DeliverSteps(d: Deployment, w: World, i: nat, delivery: Delivery, minted: string)
    requires Here(d, w, i) && w.attempts[i].pc.Posting? && w.attempts[i].claim.Some?
    requires Sound(d, w.attempts[i].pc.bytes)
    requires Possible(d, w, w.attempts[i], delivery, minted)
    ensures Steps(d, w, DeliverStep(d, w, i, w.attempts[i], delivery, minted), i)
  {
    var id := WinnerFacts(d, w, i);
    var w' := Posted(w, i, w.attempts[i].claim.value, id, minted, delivery);
    PostedRow(d, w, i, w.attempts[i].claim.value, id, minted, delivery);
    assert w.ledger.committed ==> PostOk(d, w.row.value, w.ledger, w.ledger.posts[0]);
    HeardOk(d, w, w'.ledger, w'.archive, i, w.attempts[i], delivery, id, minted);
  }

  /** The judgement hypothesis at work: a refusal means nothing of this content ever committed. */
  lemma ObservedTruth(
    d: Deployment, l: Ledger, archive: Records, p: Progress, id: string, delivery: Delivery, minted: string)
    requires Truthful(archive, id, minted, delivery) && Judged(d.rejects(id), delivery)
    requires l.committed ==> p.lastAnswer.Some? && !d.rejects(id)
    ensures var l' := l.(committed := l.committed || Commits(delivery));
            match Observe(p, id, delivery)
            case Settled(o) => Truth(l', After(archive, id, minted, delivery), id, o)
            case Again(p') =>
              && (l'.committed ==> p'.lastAnswer.Some?)
              && Truth(l', After(archive, id, minted, delivery), id, Exhausted(p', id))
  {
  }

  lemma HeardOk(
    d: Deployment, w: World, l: Ledger, archive: Records, i: nat, a: Attempt, delivery: Delivery, id: string,
    minted: string)
    requires a.pc.Posting? && AttemptOk(d, w.row, w.ledger, w.archive, i, a)
    requires RequestId(d, a.package, d.sha256(a.pc.bytes)) == Some(id)
    requires w.ledger.committed ==> !d.rejects(id)
    requires Truthful(w.archive, id, minted, delivery) && Judged(d.rejects(id), delivery)
    requires l == w.ledger.(posts := l.posts, committed := w.ledger.committed || Commits(delivery))
    requires archive == After(w.archive, id, minted, delivery)
    ensures AttemptOk(d, w.row, l, archive, i, Heard(a, id, delivery))
  {
    ObservedTruth(d, w.ledger, w.archive, a.pc.progress, id, delivery, minted);
    assert Won(d, w.row, l, i, a, a.pc.stored, a.pc.bytes);
  }

  lemma HandoffBreaksSteps(d: Deployment, w: World, i: nat, sent: bool, committed: bool, minted: string)
    requires Here(d, w, i) && w.attempts[i].pc.Posting? && w.attempts[i].claim.Some?
    requires Sound(d, w.attempts[i].pc.bytes)
    requires committed ==> sent
    requires Possible(d, w, w.attempts[i], Unobserved(false, "", committed), minted)
    ensures Steps(d, w, HandoffBreaksStep(d, w, i, w.attempts[i], sent, committed, minted), i)
  {
    var a := w.attempts[i];
    var id := WinnerFacts(d, w, i);
    if sent {
      BreaksAfterSending(d, w, i, id, committed, minted);
    } else {
      BrokenAttempt(d, w, w, i, a, id);
      MovesOnly(d, w, HandoffBreaksStep(d, w, i, a, sent, committed, minted), i);
    }
  }

  lemma BreaksAfterSending(d: Deployment, w: World, i: nat, id: string, committed: bool, minted: string)
    requires Here(d, w, i) && w.attempts[i].pc.Posting? && w.attempts[i].claim.Some?
    requires Sound(d, w.attempts[i].pc.bytes)
    requires Possible(d, w, w.attempts[i], Unobserved(false, "", committed), minted)
    requires RequestId(d, w.attempts[i].package, d.sha256(w.attempts[i].pc.bytes)) == Some(id)
    ensures Steps(d, w, HandoffBreaksStep(d, w, i, w.attempts[i], true, committed, minted), i)
  {
    var a := w.attempts[i];
    var facts := WinnerFacts(d, w, i);
    var w1 := Posted(w, i, a.claim.value, id, minted, Unobserved(false, "", committed));
    PostedRow(d, w, i, a.claim.value, id, minted, Unobserved(false, "", committed));
    BrokenAttempt(d, w, w1, i, a, id);
  }

  lemma BrokenAttempt(d: Deployment, w: World, w1: World, i: nat, a: Attempt, id: string)
    requires a.pc.Posting? && AttemptOk(d, w.row, w.ledger, w.archive, i, a)
    requires RequestId(d, a.package, d.sha256(a.pc.bytes)) == Some(id)
    requires w1.row == w.row
    requires w1.ledger == w.ledger.(posts := w1.ledger.posts, committed := w1.ledger.committed)
    ensures UnexpectedOutcome(Some(id)).Some?
    ensures AttemptOk(d, w1.row, w1.ledger, w1.archive, i,
                      a.(pc := Recording(a.pc.stored, a.pc.bytes, UnexpectedOutcome(Some(id)).value)))
  {
    assert Won(d, w1.row, w1.ledger, i, a, a.pc.stored, a.pc.bytes);
  }

  lemma CustodyRow(d: Deployment, w: World, i: nat, o: Outcome, now: Instant)
    requires RowOk(d, w.row, w.ledger, w.archive) && w.row.Some?
    requires w.row.value.status == Rendered && w.row.value.custody.None? && w.ledger.terminals == [i]
    requires RequestId(d, w.row.value.packageHash, w.row.value.artifactSha256.value) == Some(o.requestId)
    requires Truth(w.ledger, w.archive, o.requestId, o)
    ensures RowOk(d, Some(InCustody(w.row.value, AsCustody(o), now)),
                  w.ledger.(custodians := w.ledger.custodians + [i]), w.archive)
  {
  }

  lemma RecordedOk(
    d: Deployment, row: Option<Job>, l: Ledger, archive: Records, i: nat, a: Attempt, job: Job, bytes: Bytes)
    requires a.claim.Some? ==> AttemptOk(d, row, l, archive, i, Leave(a, Raised(STORE_FAULT)))
    requires a.claim.Some? && Sound(d, bytes)
    requires job.status == Rendered && job.artifactSha256 == Some(Tagged(d.sha256(bytes)))
    ensures AttemptOk(d, row, l, archive, i, Leave(a, Responded(job, Some(bytes))))
  {
    TagIsTransparent(d.sha256(bytes));
  }

  lemma RecordSteps(d: Deployment, w: World, i: nat, now: Instant, fault: Fault)
    requires Here(d, w, i) && w.attempts[i].pc.Recording?
    requires Sound(d, w.attempts[i].pc.bytes)
    ensures Steps(d, w, RecordStep(w, i, w.attempts[i], now, fault), i)
  {
    var a := w.attempts[i];
    var w' := RecordStep(w, i, a, now, fault);
    var id := WinnerFacts(d, w, i);
    RecordedOk(d, w.row, w.ledger, w.archive, i, a, a.pc.stored, a.pc.bytes);
    if fault != Lost && w.row.value.generation == a.pc.stored.generation {
      var job := InCustody(w.row.value, AsCustody(a.pc.outcome), now);
      CustodyRow(d, w, i, a.pc.outcome, now);
      RecordedOk(d, w'.row, w'.ledger, w'.archive, i, a, job, a.pc.bytes);
      RecordedOk(d, w'.row, w'.ledger, w'.archive, i, a, a.pc.stored, a.pc.bytes);
    } else {
      MovesOnly(d, w, w', i);
    }
  }
}
