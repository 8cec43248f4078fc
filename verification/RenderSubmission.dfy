/**
 The submission service as it is written: store calls, slot and exception paths in sequence,
 against a store other workers keep changing between any two of them. Each method takes exactly the
 protocol's own course, so whatever holds in every interleaving holds of what it returns.
 */
module RenderSubmission {
  import opened Wrappers
  import opened Timestamps
  import opened RenderStore
  import opened ArchiveHandoff
  import opened RenderExecution
  import opened RenderProtocol
  import opened RenderInvariant
  import opened RenderSafety
  import opened RenderFailClosed
  import opened RenderCourse

  /** Why a terminal write did not land: another attempt owns the job, or the store broke. */
  datatype Unfinished = FenceLost | Unwritten

  /** Where the retry loop stands with so many attempts left. */
  function Standing(stored: Job, bytes: Bytes, requestId: string, left: nat, progress: Progress): Pc {
    if left == 0 then Recording(stored, bytes, Exhausted(progress, requestId))
    else Posting(stored, bytes, left, progress)
  }

  /** Where one turn with attempts left leads. */
  function AfterTurn(stored: Job, bytes: Bytes, requestId: string, left: nat, observed: Observation): Pc
    requires left > 0
  {
    match observed
    case Settled(outcome) => Recording(stored, bytes, outcome)
    case Again(p) => Standing(stored, bytes, requestId, left - 1, p)
  }

  lemma OnwardIsAfterTurn(a: Attempt, requestId: string, observed: Observation)
    requires a.pc.Posting? && a.pc.left > 0
    ensures Onward(a, requestId, observed)
            == a.(pc := AfterTurn(a.pc.stored, a.pc.bytes, requestId, a.pc.left, observed))
  {
  }

  /** A step of one attempt leaves these as they are. */
  ghost predicate Same(a: Attempt, b: Attempt) {
    b.process == a.process && b.package == a.package && b.tenant == a.tenant && b.slot == a.slot
  }

  class RenderSubmissionService {
    const store: Store
    const limiter: RenderExecutionLimiter
    const process: nat
    const jobId: string
    const d: Deployment
    // The shared world this worker is part of; its own code reads only Archive's answers from it.
    var world: World

    constructor (
      store: Store, limiter: RenderExecutionLimiter, process: nat, jobId: string, d: Deployment, world: World)
      ensures this.store == store && this.limiter == limiter && this.process == process
      ensures this.jobId == jobId && this.d == d && this.world == world
    {
      this.store, this.limiter, this.process := store, limiter, process;
      this.jobId, this.d, this.world := jobId, d, world;
    }

    /** The row is the world's. */
    ghost predicate RowLinked()
      reads this, store
    {
      && (jobId in store.rows <==> world.row.Some?)
      && (world.row.Some? ==> store.rows[jobId] == world.row.value)
    }

    /** And so is the semaphore. */
    ghost predicate SlotsLinked()
      reads this, limiter
    {
      limiter.Valid() && limiter.limit == d.limit && limiter.View() == SlotsOf(d, world, process)
    }

    ghost predicate Linked()
      reads this, store, limiter
    {
      RowLinked() && SlotsLinked() && Reached(d, world)
    }

    ghost predicate At(i: nat, pc: Pc)
      reads this
    {
      i in world.attempts && world.attempts[i].pc == pc && world.attempts[i].process == process
    }

    /** Anything other workers do, in any order; this attempt does not move. */
    method Meanwhile(i: nat, events: seq<Event>)
      requires Linked() && i in world.attempts
      modifies this, store, limiter
      ensures Linked() && i in world.attempts && world.attempts[i] == old(world.attempts[i])
      ensures world == Others(d, old(world), i, events)
    {
      for k := 0 to |events|
        invariant Linked() && i in world.attempts && world.attempts[i] == old(world.attempts[i])
        invariant Others(d, world, i, events[k..]) == Others(d, old(world), i, events)
      {
        assert events[k..][1..] == events[k + 1..];
        if Actor(events[k]) != Some(i) {
          OthersStay(d, world, events[k], i);
          Elsewhere(events[k]);
        }
      }
    }

    /** One move of somebody else; the store and the semaphore are shared with them. */
    method Elsewhere(e: Event)
      requires Linked()
      modifies this, store, limiter
      ensures Linked() && world == Next(d, old(world), e)
    {
      RowStays(e);
      Advance(e);
      Mirror();
    }

    /** The store and the semaphore catch up with what the others did. */
    method Mirror()
      requires Reached(d, world)
      requires limiter.Valid() && limiter.limit == d.limit && (jobId in store.rows ==> world.row.Some?)
      modifies store, limiter
      ensures Linked()
    {
      SlotsAddUp();
      var slots := SlotsOf(d, world, process);
      limiter.free, limiter.holders, limiter.drained := slots.free, slots.holders, slots.drained;
      if world.row.Some? {
        store.rows := store.rows[jobId := world.row.value];
      }
    }

    /** One event of the shared world. */
    method Advance(e: Event)
      requires Reached(d, world)
      modifies this
      ensures world == Next(d, old(world), e) && Reached(d, world)
    {
      ReachedNext(d, world, e);
      world := Next(d, world, e);
    }

    // -- The service ----------------------------------------------------------

    /** `submit`: admit the key, answer what is settled, otherwise try to render. */
    method Submit(i: nat, package: string, tenant: Option<string>, x: Weather) returns (exit: Exit)
      requires Linked() && i !in world.attempts && Fair(d, x)
      modifies this, store, limiter
      ensures Linked() && At(i, Done(exit)) && !world.attempts[i].slot
      ensures world == Submission(d, old(world), i, process, package, tenant, x) && Leads(d, old(world), world)
      ensures Grows(old(world), world)
      ensures old(world).row.Some? && x.fault(0) == Fine ==> Answers(old(world).row.value, package, tenant, exit)
      ensures exit.Responded? && exit.bytes.Some? ==>
                && exit.job.status == Rendered && exit.job.artifactSha256.Some?
                && Normalize(exit.job.artifactSha256.value) == d.sha256(exit.bytes.value)
      ensures x.fault(1) != LandedLost && x.fault(4) == Fine ==>
                forall g :: Granted(world, g, i) ==>
                  jobId in store.rows && (store.rows[jobId].Terminal() || store.rows[jobId].generation > g)
    {
      ghost var before := world;
      Arrive(i, package, tenant);
      ghost var arrived := world;
      LeadsNext(d, before, Spawn(i, process, package, tenant));
      LeadsKeeps(d, before, arrived);
      exit := SubmitArrived(i, package, tenant, x);
      SubmissionLeads(d, before, i, process, package, tenant, x);
      LeadsKeeps(d, before, world);
      Promises(i, exit);
      Explain(before, arrived, i, package, tenant, x);
    }

    method SubmitArrived(i: nat, package: string, tenant: Option<string>, x: Weather) returns (exit: Exit)
      requires Linked() && i in world.attempts && Fair(d, x)
      requires world.attempts[i] == Attempt(process, package, tenant, Intake, None, false, false)
      modifies this, store, limiter
      ensures Linked() && At(i, Done(exit)) && !world.attempts[i].slot
      ensures var c := Course(d, old(world), i, x); i in c.attempts && world == GivenBack(d, c, i, x)
      ensures old(world).row.Some? && x.fault(0) == Fine ==> Answers(old(world).row.value, package, tenant, exit)
    {
      ghost var before := world;
      Meanwhile(i, x.others(0));
      KeyEvolves(before, world, i, x);
      var created := CreateKey(i, package, tenant, x.clock(0), x.fault(0));
      CourseGoesOn(d, before, i, x, Event.Create(i, x.clock(0), x.fault(0)));
      match created {
        case Err(failure) =>
          exit := Raised(failure);
        case Ok(existing) =>
          if existing.status == Rendered || existing.status == Failed {
            exit := Responded(existing, None);
          } else {
            exit := ExecuteRender(i, package, existing, x);
          }
      }
    }

    /** How a key already stored answers: a conflict, or what is settled as it then stands. */
    ghost predicate Answers(job: Job, package: string, tenant: Option<string>, exit: Exit) {
      && (Conflicts(job, package, tenant) ==> exit == Raised(CONFLICT))
      && (!Conflicts(job, package, tenant) && job.Terminal() ==>
            exit.Responded? && exit.bytes.None? && Evolves(job, exit.job))
    }

    /** Refusals first, since their point is not to spend a slot; then the slot, held to the end. */
    method ExecuteRender(i: nat, package: string, current: Job, x: Weather) returns (exit: Exit)
      requires Linked() && At(i, Admitted(current)) && Fair(d, x)
      requires world.attempts[i].package == package && !world.attempts[i].slot
      modifies this, store, limiter
      ensures Linked() && At(i, Done(exit)) && !world.attempts[i].slot
      ensures var c := Course(d, old(world), i, x); i in c.attempts && world == GivenBack(d, c, i, x)
      ensures d.refusal(package).Some? ==> world.attempts[i].claim == old(world).attempts[i].claim
    {
      ghost var before := world;
      Meanwhile(i, x.others(1));
      Judge(i);
      CourseGoesOn(d, before, i, x, Admit(i));
      var refusal := d.refusal(package);
      if refusal.Some? {
        exit := FailSubmit(i, refusal.value, current.generation, x);
        return;
      }
      ghost var cleared := world;
      Meanwhile(i, x.others(2));
      var granted := TakeSlot(i);
      CourseGoesOn(d, cleared, i, x, Acquire(i));
      if !granted {
        exit := Raised(CAPACITY);
        return;
      }
      exit := ClaimAndRender(i, current, x);
      Meanwhile(i, x.others(9));
      GiveSlotBack(i, exit);
    }

    /** The claim and the fail-closed handlers are one invariant and one method. */
    method ClaimAndRender(i: nat, current: Job, x: Weather) returns (exit: Exit)
      requires Linked() && At(i, Slotted(current)) && Fair(d, x) && world.attempts[i].slot
      modifies this, store, limiter
      ensures Linked() && At(i, Done(exit)) && world.attempts[i].slot
      ensures world == Course(d, old(world), i, x)
      ensures x.fault(1) == Fine && world.attempts[i].claim.None? ==> exit == Responded(current, None)
    {
      ghost var before := world;
      Meanwhile(i, x.others(3));
      var claimed := TakeClaim(i, x.clock(1), x.fault(1));
      CourseGoesOn(d, before, i, x, Event.Claim(i, x.clock(1), x.fault(1)));
      match claimed {
        case Err(failure) =>
          exit := Raised(failure);
        case Ok(None) =>
          exit := Responded(current, None);
        case Ok(Some(generation)) =>
          exit := RenderClaimed(i, generation, x);
      }
    }

    /** The engine, and both endings. */
    method RenderClaimed(i: nat, generation: nat, x: Weather) returns (exit: Exit)
      requires Linked() && At(i, Engine) && Fair(d, x)
      requires world.attempts[i].claim == Some(generation) && world.attempts[i].slot
      modifies this, store, limiter
      ensures Linked() && At(i, Done(exit)) && world.attempts[i].slot
      ensures world == Course(d, old(world), i, x)
      ensures world.attempts[i].claim == Some(generation)
    {
      ghost var before := world;
      Meanwhile(i, x.others(4));
      RunEngine(i, x.engine);
      CourseGoesOn(d, before, i, x, Event.Render(i, x.engine));
      match x.engine {
        case Broke(failure) => exit := FailSubmit(i, failure, generation, x);
        case Made(bytes) => exit := RecordRenderResult(i, bytes, generation, x);
      }
    }

    /** Losing the fence means the stored row is another attempt's truth. */
    method RecordRenderResult(i: nat, bytes: Bytes, generation: nat, x: Weather) returns (exit: Exit)
      requires Linked() && At(i, Produced(bytes)) && Fair(d, x)
      requires world.attempts[i].claim == Some(generation) && world.attempts[i].slot
      modifies this, store, limiter
      ensures Linked() && At(i, Done(exit)) && world.attempts[i].slot
      ensures world == Course(d, old(world), i, x)
      ensures world.attempts[i].claim == Some(generation)
      ensures x.fault(2) == Fine && x.fault(3) == Fine ==>
                exit.Responded? && exit.bytes in {None, Some(bytes)}
                && (exit.bytes.None? ==> world.row.Some? && exit.job == world.row.value
                                         && AdoptedBytes(d, exit.job, bytes).None?)
    {
      ghost var before := world;
      Meanwhile(i, x.others(5));
      var marked := MarkRendered(i, bytes, generation, x.clock(2), x.fault(2));
      CourseGoesOn(d, before, i, x, Complete(i, x.clock(2), x.fault(2)));
      match marked {
        case Err(FenceLost) =>
          exit := AdoptStoredTruth(i, bytes, x);
        case Err(Unwritten) =>
          exit := FailSubmit(i, UNRECORDED, generation, x);
        case Ok(stored) =>
          var latest := HandOffAndRecord(i, bytes, stored, x);
          exit := Responded(latest, Some(bytes));
      }
    }

    /** No Archive call here: the winner owns custody. */
    method AdoptStoredTruth(i: nat, bytes: Bytes, x: Weather) returns (exit: Exit)
      requires Linked() && At(i, Adopting(bytes))
      modifies this, store, limiter
      ensures Linked() && At(i, Done(exit)) && Same(old(world).attempts[i], world.attempts[i])
      ensures world == Course(d, old(world), i, x)
      ensures world.attempts[i].claim == old(world).attempts[i].claim
      ensures world.row.Some?
      ensures exit == if x.fault(3) != Fine then Raised(STORE_FAULT)
                      else Responded(world.row.value, AdoptedBytes(d, world.row.value, bytes))
    {
      ghost var before := world;
      Meanwhile(i, x.others(6));
      var stored := RereadRow(i, x.fault(3) != Fine);
      CourseGoesOn(d, before, i, x, Reread(i, x.fault(3) != Fine));
      if stored.None? {
        exit := Raised(STORE_FAULT);
        return;
      }
      var artifact: Option<Bytes> := None;
      if stored.value.status == Rendered && stored.value.artifactSha256.Some? {
        if Normalize(stored.value.artifactSha256.value) == d.sha256(bytes) {
          artifact := Some(bytes);
        }
      }
      exit := Responded(stored.value, artifact);
    }

    /** Persist the failure and raise it, unless a racing writer already holds the truth. */
    method FailSubmit(i: nat, failure: Failure, generation: nat, x: Weather) returns (exit: Exit)
      requires Linked() && At(i, Failing(failure, generation))
      modifies this, store, limiter
      ensures Linked() && At(i, Done(exit)) && Same(old(world).attempts[i], world.attempts[i])
      ensures world == Course(d, old(world), i, x)
      ensures world.attempts[i].claim == old(world).attempts[i].claim
      ensures x.fault(4) != Fine ==> exit == Raised(STORE_FAULT)
      ensures x.fault(4) == Fine && x.fault(5) == Fine ==>
                world.row.Some?
                && (|| (exit == Raised(failure) && world.row.value.status == Failed
                        && world.row.value.failure == Some(failure))
                    || exit == Truth(world.row.value))
    {
      ghost var before := world;
      Meanwhile(i, x.others(7));
      var marked := MarkFailed(i, failure, generation, x.clock(3), x.fault(4));
      CourseGoesOn(d, before, i, x, Fail(i, x.clock(3), x.fault(4)));
      match marked {
        case Err(Unwritten) =>
          exit := Raised(STORE_FAULT);
        case Ok(_) =>
          exit := Raised(failure);
        case Err(FenceLost) =>
          exit := CurrentTruth(i, x);
      }
    }

    /** How a stored row answers a submission that could not write its own. */
    function Truth(job: Job): Exit {
      if job.status == Failed then Raised(if job.failure.Some? then job.failure.value else UNRECORDED)
      else Responded(job, None)
    }

    method CurrentTruth(i: nat, x: Weather) returns (exit: Exit)
      requires Linked() && At(i, Yielding)
      modifies this, store, limiter
      ensures Linked() && At(i, Done(exit)) && Same(old(world).attempts[i], world.attempts[i])
      ensures world == Course(d, old(world), i, x)
      ensures world.attempts[i].claim == old(world).attempts[i].claim
      ensures world.row.Some?
      ensures exit == if x.fault(5) != Fine then Raised(STORE_FAULT) else Truth(world.row.value)
    {
      ghost var before := world;
      Meanwhile(i, x.others(8));
      var stored := RereadRow(i, x.fault(5) != Fine);
      CourseGoesOn(d, before, i, x, Reread(i, x.fault(5) != Fine));
      if stored.None? {
        exit := Raised(STORE_FAULT);
      } else if stored.value.status != Failed {
        exit := Responded(stored.value, None);
      } else {
        exit := Raised(if stored.value.failure.Some? then stored.value.failure.value else UNRECORDED);
      }
    }

    /** Deliver the exact bytes, then record what is true of them; never fail the render doing it. */
    method HandOffAndRecord(i: nat, bytes: Bytes, stored: Job, x: Weather) returns (latest: Job)
      requires Linked() && Fair(d, x) && i in world.attempts && world.attempts[i].process == process
      requires world.attempts[i] == AfterCompletion(d, world.attempts[i].(pc := Produced(bytes)), stored, bytes)
      modifies this, store, limiter
      ensures Linked() && At(i, Done(Responded(latest, Some(bytes))))
      ensures Same(old(world).attempts[i], world.attempts[i])
      ensures world.attempts[i].claim == old(world).attempts[i].claim
      ensures world == Course(d, old(world), i, x)
      ensures !d.handoff || RequestId(d, old(world).attempts[i].package, d.sha256(bytes)).None? ==> latest == stored
      ensures d.handoff && RequestId(d, old(world).attempts[i].package, d.sha256(bytes)).Some? && x.fault(6) == Fine ==>
                world.row == Some(latest) && latest.custody.Some?
    {
      if !d.handoff {
        return stored;
      }
      var requestId := ReconciliationRequestId(d.sha, d.context(world.attempts[i].package), d.sha256(bytes));
      if requestId.None? {
        return stored;
      }
      var outcome, _ := DeliverUntilSettled(i, bytes, stored, requestId.value, x);
      ghost var before := world;
      Meanwhile(i, x.others(10));
      latest := RecordOutcome(i, bytes, stored, outcome, x.clock(4), x.fault(6));
      CourseGoesOn(d, before, i, x, Record(i, x.clock(4), x.fault(6)));
    }

    /** The retry loop, with the rest of the world moving between posts. */
    method DeliverUntilSettled(i: nat, bytes: Bytes, stored: Job, requestId: string, x: Weather)
      returns (outcome: Outcome, ghost heard: seq<Delivery>)
      requires Linked() && Fair(d, x)
      requires At(i, Standing(stored, bytes, requestId, d.maxAttempts, FRESH))
      requires Some(requestId) == RequestId(d, world.attempts[i].package, d.sha256(bytes))
      modifies this, store, limiter
      ensures Linked() && At(i, Recording(stored, bytes, outcome))
      ensures Same(old(world).attempts[i], world.attempts[i])
      ensures world.attempts[i].claim == old(world).attempts[i].claim
      ensures Course(d, world, i, x) == Course(d, old(world), i, x)
      ensures x.breaksAt.None? ==> Concludes(d.maxAttempts, requestId, heard, outcome)
    {
      var progress := FRESH;
      var left: nat := d.maxAttempts;
      heard := [];
      while left > 0
        invariant Linked()
        invariant At(i, Standing(stored, bytes, requestId, left, progress))
        invariant Same(old(world).attempts[i], world.attempts[i])
        invariant world.attempts[i].claim == old(world).attempts[i].claim
        invariant Course(d, world, i, x) == Course(d, old(world), i, x)
        invariant |heard| + left == d.maxAttempts
        invariant x.breaksAt.None? ==> ProgressAfter(requestId, heard) == Some(progress)
        decreases left
      {
        var observed, delivery := PostOnce(i, requestId, left, progress, bytes, stored, x);
        match observed {
          case Settled(o) =>
            outcome := o;
            if x.breaksAt.None? {
              ConcludesSettled(d.maxAttempts, requestId, heard, progress, delivery, o);
            }
            heard := heard + [delivery];
            return;
          case Again(p) =>
            if x.breaksAt.None? {
              OneMoreHeard(requestId, heard, progress, delivery, p);
            }
            heard := heard + [delivery];
            left, progress := left - 1, p;
        }
      }
      if x.breaksAt.None? {
        ConcludesExhausted(requestId, heard, progress);
      }
      outcome := Exhausted(progress, requestId);
    }

    /** One turn of the retry loop; an unexpected error settles it as pending under the same id. */
    method PostOnce(
      i: nat, requestId: string, left: nat, progress: Progress, bytes: Bytes, stored: Job, x: Weather)
      returns (observed: Observation, ghost delivery: Delivery)
      requires Linked() && At(i, Posting(stored, bytes, left, progress)) && left > 0 && Fair(d, x)
      requires Some(requestId) == RequestId(d, world.attempts[i].package, d.sha256(bytes))
      modifies this, store, limiter
      ensures Linked() && i in world.attempts && Same(old(world).attempts[i], world.attempts[i])
      ensures world.attempts[i].claim == old(world).attempts[i].claim
      ensures observed.Settled? ==> At(i, Recording(stored, bytes, observed.outcome))
      ensures observed.Again? ==> At(i, Standing(stored, bytes, requestId, left - 1, observed.progress))
      ensures Course(d, world, i, x) == Course(d, old(world), i, x)
      ensures x.breaksAt.None? ==> observed == Observe(progress, requestId, delivery)
    {
      ghost var before := world;
      Meanwhile(i, x.others(10 + left));
      if x.breaksAt == Some(left) {
        observed, delivery := BreakOnce(i, requestId, left, before, x);
      } else {
        observed, delivery := HearOnce(i, requestId, left, before, x);
      }
    }

    /** What a turn relies on: the others have moved, and the loop stands at its post. */
    ghost predicate AtPost(i: nat, requestId: string, left: nat, before: World, x: Weather)
      reads this
    {
      && i in world.attempts && i in before.attempts && before.attempts[i] == world.attempts[i]
      && world.attempts[i].pc.Posting? && world.attempts[i].pc.left == left > 0
      && Some(requestId) == RequestId(d, world.attempts[i].package, d.sha256(world.attempts[i].pc.bytes))
      && world == Others(d, before, i, x.others(10 + left))
    }

    method HearOnce(i: nat, requestId: string, left: nat, ghost before: World, x: Weather)
      returns (observed: Observation, delivery: Delivery)
      requires Linked() && AtPost(i, requestId, left, before, x) && Fair(d, x)
      requires x.breaksAt != Some(left)
      modifies this
      ensures Linked() && i in world.attempts
      ensures var a := old(world.attempts[i]);
              world.attempts[i] == a.(pc := AfterTurn(a.pc.stored, a.pc.bytes, requestId, left, observed))
      ensures Course(d, world, i, x) == Course(d, before, i, x)
      ensures observed == Observe(old(world.attempts[i]).pc.progress, requestId, delivery)
    {
      var progress := world.attempts[i].pc.progress;
      delivery := x.transport(left, requestId, world.archive);
      FairAnswer(x, left, requestId);
      OwnPost(d, world, i, x, left, requestId);
      OnwardIsAfterTurn(world.attempts[i], requestId, Observe(progress, requestId, delivery));
      Post(i, requestId, delivery, x.minted(left));
      CourseGoesOn(d, before, i, x, Deliver(i, delivery, x.minted(left)));
      observed := Observe(progress, requestId, delivery);
    }

    method BreakOnce(i: nat, requestId: string, left: nat, ghost before: World, x: Weather)
      returns (observed: Observation, ghost delivery: Delivery)
      requires Linked() && AtPost(i, requestId, left, before, x) && Fair(d, x)
      requires x.breaksAt == Some(left)
      modifies this
      ensures Linked() && i in world.attempts
      ensures var a := old(world.attempts[i]);
              world.attempts[i] == a.(pc := AfterTurn(a.pc.stored, a.pc.bytes, requestId, left, observed))
      ensures Course(d, world, i, x) == Course(d, before, i, x)
    {
      delivery := x.transport(left, requestId, world.archive);
      var committed := x.breaksSent && Commits(x.transport(left, requestId, world.archive));
      FairAnswer(x, left, requestId);
      OwnPost(d, world, i, x, left, requestId);
      var outcome := BreakHandoff(i, requestId, x.breaksSent, committed, x.minted(left));
      CourseGoesOn(d, before, i, x, HandoffBreaks(i, x.breaksSent, committed, x.minted(left)));
      observed := Settled(outcome);
    }

    lemma FairAnswer(x: Weather, left: nat, requestId: string)
      requires Fair(d, x)
      ensures var delivery := x.transport(left, requestId, world.archive);
              Truthful(world.archive, requestId, x.minted(left), delivery) && Judged(d.rejects(requestId), delivery)
    {
      var delivery := x.transport(left, requestId, world.archive);
      assert Judged(d.rejects(requestId), delivery);
    }

    // -- One atomic call, and the protocol step it is -------------------------

    method Arrive(i: nat, package: string, tenant: Option<string>)
      requires Linked() && i !in world.attempts
      modifies this
      ensures Linked() && i in world.attempts
      ensures world == Next(d, old(world), Spawn(i, process, package, tenant))
      ensures world.attempts[i] == Attempt(process, package, tenant, Intake, None, false, false)
    {
      Advance(Spawn(i, process, package, tenant));
    }

    method CreateKey(i: nat, package: string, tenant: Option<string>, now: Instant, fault: Fault)
      returns (r: Result<Job, Failure>)
      requires Linked() && At(i, Intake) && world.attempts[i].package == package && world.attempts[i].tenant == tenant
      modifies this, store
      ensures Linked() && i in world.attempts
      ensures Enabled(d, old(world), Event.Create(i, now, fault))
      ensures world == Next(d, old(world), Event.Create(i, now, fault))
      ensures r.Ok? ==> world.attempts[i] == Received(old(world.attempts[i]), r.value, Fine)
                        && !Conflicts(r.value, package, tenant)
      ensures r.Err? ==> world.attempts[i] == Leave(old(world.attempts[i]), Raised(r.error))
      ensures fault == Fine && old(world).row.Some? ==>
                var job := old(world).row.value;
                r == if Conflicts(job, package, tenant) then Err(CONFLICT) else Ok(job)
    {
      r := Err(STORE_FAULT);
      if fault != Lost {
        var created := store.CreateOrGet(jobId, package, tenant, now);
        if fault == Fine {
          r := if created.Ok? then Ok(created.value.0) else Err(CONFLICT);
        }
      }
      Advance(Event.Create(i, now, fault));
    }

    method Judge(i: nat)
      requires Linked() && i in world.attempts && world.attempts[i].pc.Admitted?
      modifies this
      ensures Linked() && i in world.attempts
      ensures Enabled(d, old(world), Admit(i)) && world == Next(d, old(world), Admit(i))
      ensures var a := old(world.attempts[i]);
              var refusal := d.refusal(a.package);
              world.attempts[i] == a.(pc := if refusal.Some? then Failing(refusal.value, a.pc.current.generation)
                                            else Cleared(a.pc.current))
    {
      Advance(Admit(i));
    }

    method TakeSlot(i: nat) returns (granted: bool)
      requires Linked() && i in world.attempts && world.attempts[i].pc.Cleared?
      requires !world.attempts[i].slot && world.attempts[i].process == process
      modifies this, limiter
      ensures Linked() && i in world.attempts
      ensures Enabled(d, old(world), Acquire(i)) && world == Next(d, old(world), Acquire(i))
      ensures var a := old(world.attempts[i]);
              world.attempts[i] == if granted then a.(pc := Slotted(a.pc.current), slot := true)
                                   else Leave(a, Raised(CAPACITY))
    {
      HoldsNoSlot(i);
      granted := limiter.Acquire(i);
      Advance(Acquire(i));
    }

    method GiveSlotBack(i: nat, exit: Exit)
      requires Linked() && At(i, Done(exit)) && world.attempts[i].slot
      modifies this, limiter
      ensures Linked() && i in world.attempts && world.attempts[i] == old(world.attempts[i]).(slot := false)
      ensures world == Next(d, old(world), Release(i))
    {
      HoldsASlot(i);
      limiter.Release(i);
      Advance(Release(i));
    }

    method TakeClaim(i: nat, now: Instant, fault: Fault) returns (r: Result<Option<nat>, Failure>)
      requires Linked() && i in world.attempts && world.attempts[i].pc.Slotted?
      modifies this, store
      ensures Linked() && i in world.attempts && Same(old(world).attempts[i], world.attempts[i])
      ensures Enabled(d, old(world), Event.Claim(i, now, fault))
      ensures world == Next(d, old(world), Event.Claim(i, now, fault))
      ensures fault == Fine ==> r.Ok?
      ensures var a := world.attempts[i];
              match r
              case Err(failure) => a.pc == Done(Raised(failure))
              case Ok(None) => a.pc == Done(Responded(old(world.attempts[i]).pc.current, None))
              case Ok(Some(generation)) => a.pc == Engine && a.claim == Some(generation)
    {
      AttemptFacts(i);
      ClaimFacts(d, world, i, now, fault);
      r := Err(STORE_FAULT);
      if fault != Lost {
        var claimed := store.ClaimForRendering(jobId, d.staleSeconds, now);
        if fault == Fine && claimed.Ok? {
          r := Ok(if claimed.value.Some? then Some(claimed.value.value.generation) else None);
        }
      }
      Advance(Event.Claim(i, now, fault));
    }

    method RunEngine(i: nat, result: EngineResult)
      requires Linked() && i in world.attempts && world.attempts[i].pc.Engine? && world.attempts[i].claim.Some?
      modifies this
      ensures Linked() && i in world.attempts
      ensures Enabled(d, old(world), Event.Render(i, result)) && world == Next(d, old(world), Event.Render(i, result))
      ensures var a := old(world.attempts[i]);
              world.attempts[i] == a.(pc := match result
                                            case Made(bytes) => Produced(bytes)
                                            case Broke(failure) => Failing(failure, a.claim.value))
    {
      Advance(Event.Render(i, result));
    }

    method MarkRendered(i: nat, bytes: Bytes, generation: nat, now: Instant, fault: Fault)
      returns (r: Result<Job, Unfinished>)
      requires Linked() && At(i, Produced(bytes)) && world.attempts[i].claim == Some(generation)
      modifies this, store
      ensures Linked() && i in world.attempts
      ensures Enabled(d, old(world), Complete(i, now, fault)) && world == Next(d, old(world), Complete(i, now, fault))
      ensures fault == Fine ==> r != Err(Unwritten)
      ensures var a := old(world.attempts[i]);
              world.attempts[i] ==
                match r
                case Ok(stored) => AfterCompletion(d, a, stored, bytes)
                case Err(FenceLost) => a.(pc := Adopting(bytes))
                case Err(Unwritten) => a.(pc := Failing(UNRECORDED, generation))
    {
      AttemptFacts(i);
      CompleteFacts(d, world, i, now, fault);
      r := Err(Unwritten);
      if fault != Lost {
        var marked := store.MarkRendered(jobId, d.sha256(bytes), generation, now);
        if fault == Fine {
          r := if marked.Ok? then Ok(marked.value) else Err(FenceLost);
        }
      }
      Advance(Complete(i, now, fault));
    }

    method MarkFailed(i: nat, failure: Failure, generation: nat, now: Instant, fault: Fault)
      returns (r: Result<Job, Unfinished>)
      requires Linked() && At(i, Failing(failure, generation))
      modifies this, store
      ensures Linked() && i in world.attempts
      ensures Enabled(d, old(world), Fail(i, now, fault)) && world == Next(d, old(world), Fail(i, now, fault))
      ensures r == Err(Unwritten) <==> fault != Fine
      ensures r.Ok? ==> world.row == Some(r.value) && r.value.status == Failed && r.value.failure == Some(failure)
      ensures var a := old(world.attempts[i]);
              world.attempts[i] ==
                match r
                case Ok(_) => Leave(a, Raised(failure))
                case Err(FenceLost) => a.(pc := Yielding)
                case Err(Unwritten) => Leave(a, Raised(STORE_FAULT)).(faulted := true)
    {
      AttemptFacts(i);
      r := Err(Unwritten);
      if fault != Lost {
        var marked := store.MarkFailed(jobId, failure, generation, now);
        if fault == Fine {
          r := if marked.Ok? then Ok(marked.value) else Err(FenceLost);
        }
      }
      Advance(Fail(i, now, fault));
    }

    /** The unscoped re-read of a row this request was already admitted to. */
    method RereadRow(i: nat, unreadable: bool) returns (r: Option<Job>)
      requires Linked() && i in world.attempts && (world.attempts[i].pc.Adopting? || world.attempts[i].pc.Yielding?)
      modifies this
      ensures Linked() && i in world.attempts
      ensures Enabled(d, old(world), Event.Reread(i, unreadable))
      ensures world == Next(d, old(world), Event.Reread(i, unreadable))
      ensures world.row.Some? && r == if unreadable then None else world.row
      ensures var a := old(world.attempts[i]);
              world.attempts[i] == Leave(a,
                if r.None? then Raised(STORE_FAULT)
                else if a.pc.Adopting? then Responded(r.value, AdoptedBytes(d, r.value, a.pc.bytes))
                else Truth(r.value))
    {
      AttemptFacts(i);
      var stored := store.Get(jobId, None);
      r := if unreadable || stored.Err? then None else Some(stored.value);
      Advance(Event.Reread(i, unreadable));
    }

    method Post(i: nat, requestId: string, delivery: Delivery, minted: string)
      requires Linked() && i in world.attempts && world.attempts[i].pc.Posting?
      requires Some(requestId) == RequestId(d, world.attempts[i].package, d.sha256(world.attempts[i].pc.bytes))
      requires Truthful(world.archive, requestId, minted, delivery) && Judged(d.rejects(requestId), delivery)
      modifies this
      ensures Linked() && i in world.attempts
      ensures Enabled(d, old(world), Deliver(i, delivery, minted))
      ensures world == Next(d, old(world), Deliver(i, delivery, minted))
      ensures world.attempts[i] == Heard(old(world.attempts[i]), requestId, delivery)
    {
      AttemptFacts(i);
      Advance(Deliver(i, delivery, minted));
    }

    method BreakHandoff(i: nat, requestId: string, sent: bool, committed: bool, minted: string)
      returns (outcome: Outcome)
      requires Linked() && i in world.attempts && world.attempts[i].pc.Posting?
      requires Some(requestId) == RequestId(d, world.attempts[i].package, d.sha256(world.attempts[i].pc.bytes))
      requires committed ==> sent && !d.rejects(requestId)
      modifies this
      ensures Linked() && i in world.attempts
      ensures Enabled(d, old(world), HandoffBreaks(i, sent, committed, minted))
      ensures world == Next(d, old(world), HandoffBreaks(i, sent, committed, minted))
      ensures var a := old(world.attempts[i]);
              world.attempts[i] == a.(pc := Recording(a.pc.stored, a.pc.bytes, outcome))
    {
      AttemptFacts(i);
      outcome := Pending(requestId, Unexpected);
      Advance(HandoffBreaks(i, sent, committed, minted));
    }

    method RecordOutcome(i: nat, bytes: Bytes, stored: Job, outcome: Outcome, now: Instant, fault: Fault)
      returns (latest: Job)
      requires Linked() && At(i, Recording(stored, bytes, outcome))
      modifies this, store
      ensures Linked() && i in world.attempts
      ensures Enabled(d, old(world), Record(i, now, fault)) && world == Next(d, old(world), Record(i, now, fault))
      ensures world.attempts[i] == Leave(old(world.attempts[i]), Responded(latest, Some(bytes)))
      ensures fault == Fine ==> world.row == Some(latest) && latest.custody == Some(AsCustody(outcome))
    {
      AttemptFacts(i);
      latest := stored;
      if fault != Lost {
        var recorded := store.RecordArchiveOutcome(jobId, AsCustody(outcome), stored.generation, now);
        if fault == Fine && recorded.Ok? {
          latest := recorded.value;
        }
      }
      Advance(Record(i, now, fault));
    }

    // -- Facts the protocol supplies ------------------------------------------

    lemma AttemptFacts(i: nat)
      requires Reached(d, world) && i in world.attempts
      ensures var a := world.attempts[i];
              && (a.pc.Slotted? ==> a.claim.None? && world.row.Some?)
              && (a.pc.Engine? || a.pc.Produced? ==> a.claim.Some? && world.row.Some?)
              && (a.pc.Failing? || a.pc.Adopting? || a.pc.Yielding? ==> world.row.Some?)
              && (a.pc.Posting? ==> a.claim.Some? && a.pc.left > 0)
              && (a.pc.Recording? ==> world.row.Some? && world.row.value.generation == a.pc.stored.generation)
    {
      ReachedInv(d, world);
      assert AttemptOk(d, world.row, world.ledger, world.archive, i, world.attempts[i]);
    }

    lemma HoldsNoSlot(i: nat)
      requires Linked() && i in world.attempts && !world.attempts[i].slot
      ensures i !in limiter.holders
    {
      ReachedInv(d, world);
    }

    lemma HoldsASlot(i: nat)
      requires Linked() && i in world.attempts && world.attempts[i].slot && world.attempts[i].process == process
      ensures i in limiter.holders && process in world.slots
    {
      ReachedInv(d, world);
    }

    lemma SlotsAddUp()
      requires Reached(d, world)
      ensures Conserved(SlotsOf(d, world, process), d.limit)
    {
      ReachedInv(d, world);
    }

    lemma RowStays(e: Event)
      requires Reached(d, world)
      ensures world.row.Some? ==> Next(d, world, e).row.Some?
    {
      ReachedInv(d, world);
      NextKeeps(d, world, e);
    }

    /** A key once stored keeps its package and tenant, and what is settled stays so. */
    lemma KeyEvolves(before: World, now: World, i: nat, x: Weather)
      requires Reached(d, before) && i in before.attempts && now == Others(d, before, i, x.others(0))
      ensures before.row.Some? ==> now.row.Some? && Evolves(before.row.value, now.row.value)
    {
      OthersLead(d, before, i, x.others(0));
      LeadsKeeps(d, before, now);
    }

    /** The promises a finished attempt has from the protocol. */
    lemma Promises(i: nat, exit: Exit)
      requires Linked() && At(i, Done(exit))
      ensures exit.Responded? && exit.bytes.Some? ==> Matches(d, exit.job, exit.bytes.value)
    {
      ReachedInv(d, world);
      assert AttemptOk(d, world.row, world.ledger, world.archive, i, world.attempts[i]);
    }

    /** Without those two faults no generation granted to the attempt is left behind. */
    lemma Explain(before: World, arrived: World, i: nat, package: string, tenant: Option<string>, x: Weather)
      requires Reached(d, world) && Reached(d, arrived) && i in world.attempts && world.attempts[i].pc.Done?
      requires i in arrived.attempts && !arrived.attempts[i].faulted
      requires var c := Course(d, arrived, i, x); i in c.attempts && world == GivenBack(d, c, i, x)
      ensures x.fault(1) != LandedLost && x.fault(4) == Fine ==>
                forall g :: Granted(world, g, i) ==> Superseded(world.row, g)
    {
      CourseExplained(d, arrived, i, x);
      GivenBackKeepsTheMarks(d, Course(d, arrived, i, x), i, x);
      if x.fault(1) != LandedLost && x.fault(4) == Fine {
        forall g | Granted(world, g, i) ensures Superseded(world.row, g) {
          ReachedTraced(d, world);
          ExitedGrantIsSettled(d, world, i, g);
        }
      }
    }
  }

  /** What the claim step does, call by call. */
  lemma ClaimFacts(d: Deployment, w: World, i: nat, now: Instant, fault: Fault)
    requires i in w.attempts && w.attempts[i].pc.Slotted? && w.attempts[i].claim.None? && w.row.Some?
    ensures var w', a := Next(d, w, Event.Claim(i, now, fault)), w.attempts[i];
            var landed := fault != Lost && Claimable(w.row.value, now, d.staleSeconds);
            && w'.row == (if landed then Some(Claimed(w.row.value, now)) else w.row) && w'.slots == w.slots
            && i in w'.attempts && Same(a, w'.attempts[i])
            && (fault != Fine ==> w'.attempts[i].pc == Done(Raised(STORE_FAULT)))
            && (fault == Fine && !landed ==> w'.attempts[i].pc == Done(Responded(a.pc.current, None)))
            && (fault == Fine && landed ==>
                  w'.attempts[i].pc == Engine && w'.attempts[i].claim == Some(w.row.value.generation + 1))
  {
  }

  /** What the completion step does, call by call. */
  lemma CompleteFacts(d: Deployment, w: World, i: nat, now: Instant, fault: Fault)
    requires i in w.attempts && w.attempts[i].pc.Produced? && w.attempts[i].claim.Some? && w.row.Some?
    ensures var w', a := Next(d, w, Complete(i, now, fault)), w.attempts[i];
            var landed := fault != Lost && MayComplete(w.row.value, a.claim.value);
            var job := Completed(w.row.value, d.sha256(a.pc.bytes), now);
            && w'.row == (if landed then Some(job) else w.row) && w'.slots == w.slots && i in w'.attempts
            && w'.attempts[i] == (if fault != Fine then a.(pc := Failing(UNRECORDED, a.claim.value))
                                  else if landed then AfterCompletion(d, a, job, a.pc.bytes)
                                  else a.(pc := Adopting(a.pc.bytes)))
  {
  }

  lemma GivenBackKeepsTheMarks(d: Deployment, w: World, i: nat, x: Weather)
    requires i in w.attempts
    ensures var w' := GivenBack(d, w, i, x);
            && i in w'.attempts && w'.attempts[i].faulted == w.attempts[i].faulted
            && w'.attempts[i].claim == w.attempts[i].claim
  {
  }
}
