/** What holds in every interleaving: the invariant over whole runs, and the claims it yields. */
module RenderSafety {
  import opened Wrappers
  import opened RenderStore
  import opened ArchiveHandoff
  import opened RenderExecution
  import opened RenderProtocol
  import opened RenderInvariant

  /** The deployment's digest really is a hex digest of whatever bytes it is given. */
  ghost predicate Healthy(d: Deployment) {
    forall b: Bytes :: Sound(d, b)
  }

  // -- One event ------------------------------------------------------------

  /** Slot accounting across a step that leaves the semaphores alone. */
  lemma SlotsStay(d: Deployment, w: World, w': World, i: nat)
    requires SlotsOk(d, w) && w'.slots == w.slots
    requires i in w'.attempts && w'.attempts == w.attempts[i := w'.attempts[i]]
    requires if i in w.attempts
             then w'.attempts[i].slot == w.attempts[i].slot && w'.attempts[i].process == w.attempts[i].process
             else !w'.attempts[i].slot
    ensures SlotsOk(d, w')
  {
    forall p, k | p in w'.slots && k in w'.slots[p].holders
      ensures k in w'.attempts && w'.attempts[k].slot && w'.attempts[k].process == p
    {
      assert k in w.attempts;
    }
  }

  lemma AcquireSlots(d: Deployment, w: World, i: nat)
    requires SlotsOk(d, w) && i in w.attempts && w.attempts[i].pc.Cleared? && !w.attempts[i].slot
    ensures SlotsOk(d, AcquireStep(d, w, i, w.attempts[i]))
  {
    var a := w.attempts[i];
    var w' := AcquireStep(d, w, i, a);
    var s := SlotsOf(d, w, a.process);
    if s.free == 0 {
      SlotsStay(d, w, w', i);
    } else {
      assert i !in s.holders;
      assert Conserved(s, d.limit);
      assert Conserved(w'.slots[a.process], d.limit);
    }
  }

  lemma ReleaseSlots(d: Deployment, w: World, i: nat)
    requires SlotsOk(d, w) && i in w.attempts && w.attempts[i].slot
    ensures SlotsOk(d, ReleaseStep(d, w, i, w.attempts[i]))
  {
    var a := w.attempts[i];
    var w' := ReleaseStep(d, w, i, a);
    var s := SlotsOf(d, w, a.process);
    assert i in s.holders;
    assert |s.holders - {i}| == |s.holders| - 1;
    assert Conserved(w'.slots[a.process], d.limit);
  }

  lemma DrainSlots(d: Deployment, w: World, process: nat)
    requires SlotsOk(d, w)
    ensures SlotsOk(d, DrainStep(d, w, process))
  {
    var s := SlotsOf(d, w, process);
    assert Conserved(s, d.limit);
  }

  function Actor(e: Event): Option<nat> {
    if e.DrainSlot? then None else Some(e.i)
  }

  /** The events up to the engine's result. */
  predicate Opening(e: Event) {
    e.Create? || e.Admit? || e.Acquire? || e.Claim? || e.Render?
  }

  lemma OpeningSteps(d: Deployment, w: World, e: Event)
    requires Inv(d, w) && Enabled(d, w, e) && Opening(e)
    ensures Steps(d, w, Next(d, w, e), e.i)
  {
    assert Here(d, w, e.i);
    match e {
      case Create(i, now, fault) => CreateSteps(d, w, i, now, fault);
      case Admit(i) => AdmitSteps(d, w, i);
      case Acquire(i) => AcquireSteps(d, w, i);
      case Claim(i, now, fault) => ClaimSteps(d, w, i, now, fault);
      case Render(i, result) => RenderSteps(d, w, i, result);
    }
  }

  /** The hand-off of a landed completion. */
  predicate HandingEvent(e: Event) {
    e.Deliver? || e.HandoffBreaks? || e.Record?
  }

  lemma HandingSteps(d: Deployment, w: World, e: Event)
    requires Inv(d, w) && Healthy(d) && Enabled(d, w, e) && HandingEvent(e)
    ensures Steps(d, w, Next(d, w, e), e.i)
  {
    assert Here(d, w, e.i);
    assert Sound(d, w.attempts[e.i].pc.bytes);
    match e {
      case Deliver(i, delivery, minted) => DeliverSteps(d, w, i, delivery, minted);
      case HandoffBreaks(i, sent, committed, minted) => HandoffBreaksSteps(d, w, i, sent, committed, minted);
      case Record(i, now, fault) => RecordSteps(d, w, i, now, fault);
    }
  }

  /** The terminal writes, what follows a refused one, and the slot's return. */
  predicate Closing(e: Event) {
    e.Complete? || e.Fail? || e.Reread? || e.Release?
  }

  lemma ClosingSteps(d: Deployment, w: World, e: Event)
    requires Inv(d, w) && Healthy(d) && Enabled(d, w, e) && Closing(e)
    ensures Steps(d, w, Next(d, w, e), e.i)
  {
    assert Here(d, w, e.i);
    match e {
      case Complete(i, now, fault) => assert Sound(d, w.attempts[i].pc.bytes); CompleteSteps(d, w, i, now, fault);
      case Fail(i, now, fault) => FailSteps(d, w, i, now, fault);
      case Reread(i, unreadable) => RereadSteps(d, w, i, unreadable);
      case Release(i) => ReleaseSteps(d, w, i);
    }
  }

  /** Every enabled event of an attempt is a `Steps`. */
  lemma EventSteps(d: Deployment, w: World, e: Event)
    requires Inv(d, w) && Healthy(d) && Enabled(d, w, e) && !e.DrainSlot? && !e.Spawn?
    ensures Steps(d, w, Next(d, w, e), e.i)
  {
    if Opening(e) {
      OpeningSteps(d, w, e);
    } else if Closing(e) {
      ClosingSteps(d, w, e);
    } else {
      HandingSteps(d, w, e);
    }
  }

  /** No event touches another attempt, and none but a claim changes whose generation is held. */
  lemma NextContinues(d: Deployment, w: World, e: Event, i: nat)
    requires i in w.attempts && (w.attempts[i].pc.Slotted? ==> w.attempts[i].claim.None?)
    ensures i in Next(d, w, e).attempts
    ensures Continues(w.attempts[i], Next(d, w, e).attempts[i])
  {
  }

  /** An event moves no attempt but its own. */
  lemma OthersStay(d: Deployment, w: World, e: Event, i: nat)
    requires i in w.attempts && Actor(e) != Some(i)
    ensures i in Next(d, w, e).attempts && Next(d, w, e).attempts[i] == w.attempts[i]
  {
  }

  lemma EventSlots(d: Deployment, w: World, e: Event)
    requires Inv(d, w) && Enabled(d, w, e)
    ensures SlotsOk(d, Next(d, w, e))
  {
    var w' := Next(d, w, e);
    match e {
      case DrainSlot(process) => DrainSlots(d, w, process);
      case Spawn(i, _, _, _) => SlotsStay(d, w, w', i);
      case Acquire(i) =>
        assert AttemptOk(d, w.row, w.ledger, w.archive, i, w.attempts[i]);
        AcquireSlots(d, w, i);
      case Release(i) => ReleaseSlots(d, w, i);
      case _ =>
        SlotsStay(d, w, w', e.i);
    }
  }

  lemma SpawnSteps(d: Deployment, w: World, e: Event)
    requires Inv(d, w) && e.Spawn? && Enabled(d, w, e)
    ensures Steps(d, w, Next(d, w, e), e.i)
  {
  }

  lemma DrainKeeps(d: Deployment, w: World, process: nat)
    requires Inv(d, w)
    ensures Inv(d, DrainStep(d, w, process)) && Grows(w, DrainStep(d, w, process))
  {
    DrainSlots(d, w, process);
  }

  lemma OwnKeeps(d: Deployment, w: World, e: Event)
    requires Inv(d, w) && Healthy(d) && Enabled(d, w, e) && !e.DrainSlot?
    ensures Inv(d, Next(d, w, e)) && Grows(w, Next(d, w, e))
  {
    EventSlots(d, w, e);
    if e.Spawn? { SpawnSteps(d, w, e); } else { EventSteps(d, w, e); }
    StepKeeps(d, w, Next(d, w, e), e.i);
  }

  /** The inductive step. */
  lemma NextKeeps(d: Deployment, w: World, e: Event)
    requires Inv(d, w) && Healthy(d)
    ensures Inv(d, Next(d, w, e)) && Grows(w, Next(d, w, e))
  {
    if !Enabled(d, w, e) {
      assert Next(d, w, e) == w;
    } else if e.DrainSlot? {
      assert Next(d, w, e) == DrainStep(d, w, e.process);
      DrainKeeps(d, w, e.process);
    } else {
      OwnKeeps(d, w, e);
    }
  }

  // -- Whole runs -----------------------------------------------------------

  /** Every run keeps the invariant and takes nothing back that was once recorded. */
  lemma {:induction false} RunKeeps(d: Deployment, w: World, es: seq<Event>)
    requires Inv(d, w) && Healthy(d)
    ensures Inv(d, Run(d, w, es)) && Grows(w, Run(d, w, es))
    decreases |es|
  {
    if es != [] {
      var w1 := Next(d, w, es[0]);
      NextKeeps(d, w, es[0]);
      RunKeeps(d, w1, es[1..]);
    }
  }

  /** A world some interleaving reaches from an empty store. */
  ghost predicate Reached(d: Deployment, w: World) {
    Healthy(d) && exists w0, es :: Initial(w0) && w == Run(d, w0, es)
  }

  lemma ReachedInv(d: Deployment, w: World)
    requires Reached(d, w)
    ensures Inv(d, w)
  {
    var w0, es :| Initial(w0) && w == Run(d, w0, es);
    RunKeeps(d, w0, es);
  }

  lemma {:induction false} RunAppends(d: Deployment, w: World, es: seq<Event>, fs: seq<Event>)
    ensures Run(d, w, es + fs) == Run(d, Run(d, w, es), fs)
    decreases |es|
  {
    if es == [] {
      assert es + fs == fs;
    } else {
      assert (es + fs)[1..] == es[1..] + fs;
      RunAppends(d, Next(d, w, es[0]), es[1..], fs);
    }
  }

  lemma ReachedOn(d: Deployment, w: World, es: seq<Event>)
    requires Reached(d, w)
    ensures Reached(d, Run(d, w, es))
  {
    var w0, ds :| Initial(w0) && w == Run(d, w0, ds);
    RunAppends(d, w0, ds, es);
  }

  lemma ReachedNext(d: Deployment, w: World, e: Event)
    requires Reached(d, w)
    ensures Reached(d, Next(d, w, e))
  {
    ReachedOn(d, w, [e]);
    assert [e][1..] == [];
    assert Run(d, Next(d, w, e), []) == Next(d, w, e);
  }

  lemma {:induction false} RunContinues(d: Deployment, w: World, es: seq<Event>, i: nat)
    requires Inv(d, w) && Healthy(d) && i in w.attempts
    ensures i in Run(d, w, es).attempts && Continues(w.attempts[i], Run(d, w, es).attempts[i])
    decreases |es|
  {
    if es != [] {
      var e := es[0];
      assert AttemptOk(d, w.row, w.ledger, w.archive, i, w.attempts[i]);
      NextContinues(d, w, e, i);
      NextKeeps(d, w, e);
      RunContinues(d, Next(d, w, e), es[1..], i);
    }
  }

  // -- Ownership ------------------------------------------------------------

  /** No two attempts ever hold the same generation. */
  lemma GenerationsAreExclusive(d: Deployment, w: World, i: nat, j: nat)
    requires Reached(d, w) && i in w.attempts && j in w.attempts
    requires w.attempts[i].claim.Some? && w.attempts[i].claim == w.attempts[j].claim
    ensures i == j
  {
    ReachedInv(d, w);
    assert AttemptOk(d, w.row, w.ledger, w.archive, i, w.attempts[i]);
    assert AttemptOk(d, w.row, w.ledger, w.archive, j, w.attempts[j]);
  }

  /**
   Between any two moments of any run: the generation never falls, a settled job keeps its status,
   digest, failure and completion time, a generation granted stays with whom it was granted to,
   and at most one terminal write has landed.
   */
  lemma SettledStaysSettled(d: Deployment, w: World, es: seq<Event>)
    requires Reached(d, w)
    ensures var w' := Run(d, w, es);
            && (w.row.Some? ==> w'.row.Some? && Evolves(w.row.value, w'.row.value))
            && (forall g :: g in w.ledger.grants ==> g in w'.ledger.grants && w'.ledger.grants[g] == w.ledger.grants[g])
            && |w'.ledger.terminals| == (if w'.row.Some? && w'.row.value.Terminal() then 1 else 0)
  {
    ReachedInv(d, w);
    RunKeeps(d, w, es);
  }

  /** What a superseded attempt can still come to: nothing that writes without a fence. */
  lemma StaleStanding(d: Deployment, w: World, i: nat)
    requires Inv(d, w) && i in w.attempts
    requires w.row.Some? && w.attempts[i].claim.Some? && w.attempts[i].claim.value < w.row.value.generation
    ensures var pc := w.attempts[i].pc;
            && !pc.Intake? && !pc.Slotted? && !Handing(w.attempts[i])
            && (pc.Failing? ==> pc.expected == w.attempts[i].claim.value)
  {
    assert AttemptOk(d, w.row, w.ledger, w.archive, i, w.attempts[i]);
  }

  lemma StaleTerminalWrite(d: Deployment, w: World, e: Event)
    requires (e.Complete? || e.Fail?) && Enabled(d, w, e)
    requires w.row.Some? && w.attempts[e.i].claim.Some? && w.attempts[e.i].claim.value < w.row.value.generation
    requires e.Fail? ==> w.attempts[e.i].pc.expected == w.attempts[e.i].claim.value
    ensures Next(d, w, e).row == w.row
    ensures Next(d, w, e).archive == w.archive && Next(d, w, e).ledger == w.ledger
  {
  }

  /** The step lemma behind the takeover guarantee. */
  lemma StaleClaimIsInert(d: Deployment, w: World, e: Event, i: nat)
    requires Inv(d, w) && Actor(e) == Some(i) && i in w.attempts
    requires w.row.Some? && w.attempts[i].claim.Some? && w.attempts[i].claim.value < w.row.value.generation
    ensures Next(d, w, e).row == w.row
    ensures Next(d, w, e).archive == w.archive && Next(d, w, e).ledger == w.ledger
  {
    StaleStanding(d, w, i);
    if Enabled(d, w, e) && (e.Complete? || e.Fail?) {
      StaleTerminalWrite(d, w, e);
    }
  }

  /**
   After a takeover, however the run goes on and whenever the superseded attempt wakes up, its next
   step changes no column of the row, sends nothing to Archive and records nothing.
   */
  lemma SupersededStaysInert(d: Deployment, w: World, es: seq<Event>, e: Event, i: nat)
    requires Reached(d, w) && Actor(e) == Some(i) && i in w.attempts
    requires w.row.Some? && w.attempts[i].claim.Some? && w.attempts[i].claim.value < w.row.value.generation
    ensures var w' := Run(d, w, es);
            Next(d, w', e).row == w'.row && Next(d, w', e).archive == w'.archive && Next(d, w', e).ledger == w'.ledger
  {
    ReachedInv(d, w);
    RunKeeps(d, w, es);
    RunContinues(d, w, es, i);
    StaleClaimIsInert(d, Run(d, w, es), e, i);
  }

  // -- Custody and bytes ----------------------------------------------------

  /**
   Only the attempt whose completion landed ever posts or records custody, under the claim the
   settled row carries, and every post names the one id derived from the stored digest.
   */
  lemma OnlyTheWinnerHandsOff(d: Deployment, w: World, k: nat)
    requires Reached(d, w) && k < |w.ledger.posts|
    ensures w.row.Some? && w.row.value.status == Rendered && w.row.value.artifactSha256.Some?
    ensures w.ledger.terminals == [w.ledger.posts[k].attempt]
    ensures w.ledger.posts[k].generation == w.row.value.generation
    ensures RequestId(d, w.row.value.packageHash, w.row.value.artifactSha256.value)
            == Some(w.ledger.posts[k].requestId)
    ensures w.row.value.generation in w.ledger.grants
            && w.ledger.grants[w.row.value.generation] == w.ledger.posts[k].attempt
    ensures w.ledger.custodians == [] || w.ledger.custodians == [w.ledger.posts[k].attempt]
  {
    ReachedInv(d, w);
    assert PostOk(d, w.row.value, w.ledger, w.ledger.posts[k]);
    assert w.ledger.terminals == [w.ledger.terminals[0]];
  }

  /** Only it records custody, whether or not a post ever left, and at most once. */
  lemma OnlyTheWinnerRecords(d: Deployment, w: World)
    requires Reached(d, w) && w.ledger.custodians != []
    ensures w.row.Some? && w.row.value.status == Rendered && w.row.value.custody.Some?
    ensures w.ledger.custodians == w.ledger.terminals == [w.ledger.terminals[0]]
    ensures w.row.value.generation in w.ledger.grants
            && w.ledger.grants[w.row.value.generation] == w.ledger.custodians[0]
  {
    ReachedInv(d, w);
  }

  /** A custody write is never refused as stale: whoever stands at it holds the row's generation. */
  lemma CustodyWriteIsNeverStale(d: Deployment, w: World, i: nat)
    requires Reached(d, w) && i in w.attempts && w.attempts[i].pc.Recording?
    ensures w.row.Some? && w.row.value.status == Rendered
    ensures w.row.value.generation == w.attempts[i].pc.stored.generation
    ensures w.attempts[i].claim == Some(w.row.value.generation)
  {
    ReachedInv(d, w);
    assert AttemptOk(d, w.row, w.ledger, w.archive, i, w.attempts[i]);
  }

  /** Bytes never travel beside a digest they do not hash to, for the winner and for an adopting loser. */
  lemma ReturnedBytesHashToTheirDigest(d: Deployment, w: World, i: nat)
    requires Reached(d, w) && i in w.attempts && w.attempts[i].pc.Done?
    requires w.attempts[i].pc.exit.Responded? && w.attempts[i].pc.exit.bytes.Some?
    ensures var exit := w.attempts[i].pc.exit;
            && exit.job.status == Rendered && exit.job.artifactSha256.Some?
            && Normalize(exit.job.artifactSha256.value) == d.sha256(exit.bytes.value)
  {
    ReachedInv(d, w);
    assert AttemptOk(d, w.row, w.ledger, w.archive, i, w.attempts[i]);
  }

  /** The custody columns speak the truth about Archive for as long as they stand. */
  lemma CustodyTellsTheTruth(d: Deployment, w: World)
    requires Reached(d, w) && w.row.Some? && w.row.value.custody.Some?
    ensures var c := w.row.value.custody.value;
            && w.row.value.status == Rendered
            && c.requestId.Some? && w.row.value.artifactSha256.Some?
            && c.requestId == RequestId(d, w.row.value.packageHash, w.row.value.artifactSha256.value)
            && (c.state == ArchivedVerified ==>
                  c.requestId.value in w.archive && c.documentId == Some(w.archive[c.requestId.value]))
            && (c.state == ArchiveFailed ==> !w.ledger.committed)
  {
    ReachedInv(d, w);
  }

  /** Every record not there from the start was put there by a post of this job. */
  ghost predicate Sourced(w0: World, w: World) {
    forall id :: id in w.archive && id !in w0.archive ==>
      w.ledger.committed && exists k :: 0 <= k < |w.ledger.posts| && w.ledger.posts[k].requestId == id
  }

  lemma PostedSourced(w0: World, w: World, i: nat, g: nat, id: string, minted: string, delivery: Delivery)
    requires Sourced(w0, w)
    ensures Sourced(w0, Posted(w, i, g, id, minted, delivery))
  {
    var posts := Posted(w, i, g, id, minted, delivery).ledger.posts;
    assert posts[|w.ledger.posts|].requestId == id;
    assert forall k :: 0 <= k < |w.ledger.posts| ==> posts[k] == w.ledger.posts[k];
  }

  lemma NextSourced(d: Deployment, w0: World, w: World, e: Event)
    requires Sourced(w0, w)
    ensures Sourced(w0, Next(d, w, e))
  {
    if Enabled(d, w, e) {
      match e {
        case Deliver(i, delivery, minted) =>
          var id := RequestId(d, w.attempts[i].package, d.sha256(w.attempts[i].pc.bytes)).value;
          PostedSourced(w0, w, i, w.attempts[i].claim.value, id, minted, delivery);
        case HandoffBreaks(i, sent, committed, minted) =>
          var id := RequestId(d, w.attempts[i].package, d.sha256(w.attempts[i].pc.bytes)).value;
          PostedSourced(w0, w, i, w.attempts[i].claim.value, id, minted, Unobserved(false, "", committed));
        case _ =>
          assert NothingSent(w, Next(d, w, e));
      }
    }
  }

  lemma {:induction false} RunSourced(d: Deployment, w0: World, w: World, es: seq<Event>)
    requires Sourced(w0, w)
    ensures Sourced(w0, Run(d, w, es))
    decreases |es|
  {
    if es != [] {
      NextSourced(d, w0, w, es[0]);
      RunSourced(d, w0, Next(d, w, es[0]), es[1..]);
    }
  }

  /**
   A whole run, with any number of retries, crashes and takeovers, leaves at most one new record in
   Archive: the one its stored digest names. If custody says failed there is none.
   */
  lemma AtMostOneRecord(d: Deployment, w0: World, es: seq<Event>, id: string)
    requires Healthy(d) && Initial(w0)
    requires var w := Run(d, w0, es); id in w.archive && id !in w0.archive
    ensures var w := Run(d, w0, es);
            && w.row.Some? && w.row.value.artifactSha256.Some?
            && Some(id) == RequestId(d, w.row.value.packageHash, w.row.value.artifactSha256.value)
            && (w.row.value.custody.Some? ==> w.row.value.custody.value.state != ArchiveFailed)
  {
    var w := Run(d, w0, es);
    RunSourced(d, w0, w0, es);
    var k :| 0 <= k < |w.ledger.posts| && w.ledger.posts[k].requestId == id;
    OnlyTheWinnerHandsOff(d, w, k);
    if w.row.value.custody.Some? {
      CustodyTellsTheTruth(d, w);
    }
  }

  // -- Draining -------------------------------------------------------------

  ghost predicate Drained(d: Deployment, w: World, process: nat) {
    process in w.slots && w.slots[process].drained == d.limit
  }

  lemma DrainOnlyGrows(d: Deployment, w: World, e: Event, process: nat)
    requires process in w.slots
    ensures process in Next(d, w, e).slots && Next(d, w, e).slots[process].drained >= w.slots[process].drained
  {
  }

  lemma {:induction false} DrainedForGood(d: Deployment, w: World, es: seq<Event>, process: nat)
    requires Inv(d, w) && Healthy(d) && Drained(d, w, process)
    ensures Drained(d, Run(d, w, es), process)
    decreases |es|
  {
    if es != [] {
      DrainOnlyGrows(d, w, es[0], process);
      NextKeeps(d, w, es[0]);
      assert Conserved(Next(d, w, es[0]).slots[process], d.limit);
      DrainedForGood(d, Next(d, w, es[0]), es[1..], process);
    }
  }

  lemma IdleNow(d: Deployment, w: World, process: nat, i: nat)
    requires Inv(d, w) && Drained(d, w, process) && i in w.attempts && w.attempts[i].process == process
    ensures var a := w.attempts[i];
            && !a.slot
            && !a.pc.Slotted? && !a.pc.Engine? && !a.pc.Produced? && !a.pc.Adopting? && !Handing(a)
            && (a.pc.Failing? ==> a.claim.None?)
            && (a.pc.Cleared? ==> Next(d, w, Acquire(i)).attempts[i].pc == Done(Raised(CAPACITY)))
  {
    DrainedIsFinal(w.slots[process], d.limit);
    assert AttemptOk(d, w.row, w.ledger, w.archive, i, w.attempts[i]);
  }

  /**
   Once a drain has taken every slot of a process, then and in every continuation no attempt of
   that process is between its claim and its exit, and none can start: an acquire only refuses.
   */
  lemma DrainedMeansIdle(d: Deployment, w: World, es: seq<Event>, process: nat, i: nat)
    requires Reached(d, w) && Drained(d, w, process)
    requires i in Run(d, w, es).attempts && Run(d, w, es).attempts[i].process == process
    ensures var a := Run(d, w, es).attempts[i];
            && !a.slot
            && !a.pc.Slotted? && !a.pc.Engine? && !a.pc.Produced? && !a.pc.Adopting? && !Handing(a)
            && (a.pc.Failing? ==> a.claim.None?)
            && (a.pc.Cleared? ==>
                  Next(d, Run(d, w, es), Acquire(i)).attempts[i].pc == Done(Raised(CAPACITY)))
  {
    ReachedInv(d, w);
    RunKeeps(d, w, es);
    DrainedForGood(d, w, es, process);
    IdleNow(d, Run(d, w, es), process, i);
  }
}
