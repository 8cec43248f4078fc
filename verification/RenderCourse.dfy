/**
 One submission amid everyone else's moves, as a run of the protocol: what each of its steps is, and
 where it ends for a given course of the clock, the faults, the engine, Archive and the others. The
 course is a function of the world it starts in, so a method proved to take it has no step left to
 skip and no branch left to choose.
 */
module RenderCourse {
  import opened Wrappers
  import opened Timestamps
  import opened RenderStore
  import opened ArchiveHandoff
  import opened RenderProtocol
  import opened RenderInvariant
  import opened RenderSafety

  /** What one submission meets: clocks, faults, the engine's result, Archive's answers, everyone else. */
  datatype Weather = Weather(
    clock: nat -> Instant,
    fault: nat -> Fault,
    engine: EngineResult,
    transport: (nat, string, Records) -> Delivery,
    minted: nat -> string,
    breaksAt: Option<nat>,
    breaksSent: bool,
    others: nat -> seq<Event>)

  /** Archive answers truthfully and judges content consistently; how it answers is its own affair. */
  ghost predicate Fair(d: Deployment, x: Weather) {
    forall k: nat, id: string, records: Records ::
      var delivery := x.transport(k, id, records);
      Truthful(records, id, x.minted(k), delivery) && Judged(d.rejects(id), delivery)
  }

  // -- Steps ----------------------------------------------------------------

  /** Anything other workers do, in any order; this attempt does not move. */
  function Others(d: Deployment, w: World, i: nat, es: seq<Event>): (w': World)
    requires i in w.attempts
    ensures i in w'.attempts && w'.attempts[i] == w.attempts[i]
    decreases |es|
  {
    if es == [] then w
    else if Actor(es[0]) == Some(i) then Others(d, w, i, es[1..])
    else OthersStay(d, w, es[0], i); Others(d, Next(d, w, es[0]), i, es[1..])
  }

  /** Which of the others' intervals comes before the attempt's next step. */
  function Interval(pc: Pc): nat {
    match pc
    case Intake => 0
    case Admitted(_) => 1
    case Cleared(_) => 2
    case Slotted(_) => 3
    case Engine => 4
    case Produced(_) => 5
    case Adopting(_) => 6
    case Failing(_, _) => 7
    case Yielding => 8
    case Done(_) => 9
    case Recording(_, _, _) => 10
    case Posting(_, _, left, _) => 10 + left
  }

  function IdOf(d: Deployment, a: Attempt, bytes: Bytes): string {
    var id := RequestId(d, a.package, d.sha256(bytes));
    if id.Some? then id.value else ""
  }

  /** The turn of the retry loop: a post, unless the hand-off breaks there. */
  function PostEvent(d: Deployment, w: World, i: nat, a: Attempt, x: Weather): Event
    requires a.pc.Posting?
  {
    var left := a.pc.left;
    var delivery := x.transport(left, IdOf(d, a, a.pc.bytes), w.archive);
    if x.breaksAt == Some(left)
    then HandoffBreaks(i, x.breaksSent, x.breaksSent && Commits(delivery), x.minted(left))
    else Deliver(i, delivery, x.minted(left))
  }

  /** The attempt's own next step. */
  function OwnEvent(d: Deployment, w: World, i: nat, x: Weather): Event
    requires i in w.attempts
  {
    var a := w.attempts[i];
    match a.pc
    case Intake => Create(i, x.clock(0), x.fault(0))
    case Admitted(_) => Admit(i)
    case Cleared(_) => Acquire(i)
    case Slotted(_) => Claim(i, x.clock(1), x.fault(1))
    case Engine => Render(i, x.engine)
    case Produced(_) => Complete(i, x.clock(2), x.fault(2))
    case Adopting(_) => Reread(i, x.fault(3) != Fine)
    case Failing(_, _) => Fail(i, x.clock(3), x.fault(4))
    case Yielding => Reread(i, x.fault(5) != Fine)
    case Posting(_, _, _, _) => PostEvent(d, w, i, a, x)
    case Recording(_, _, _) => Record(i, x.clock(4), x.fault(6))
    case Done(_) => Release(i)
  }

  /** At the point of posting, with the id spelled out. */
  lemma OwnPost(d: Deployment, w: World, i: nat, x: Weather, left: nat, requestId: string)
    requires i in w.attempts && w.attempts[i].pc.Posting? && w.attempts[i].pc.left == left
    requires Some(requestId) == RequestId(d, w.attempts[i].package, d.sha256(w.attempts[i].pc.bytes))
    ensures var delivery := x.transport(left, requestId, w.archive);
            OwnEvent(d, w, i, x)
            == if x.breaksAt == Some(left)
               then HandoffBreaks(i, x.breaksSent, x.breaksSent && Commits(delivery), x.minted(left))
               else Deliver(i, delivery, x.minted(left))
  {
  }

  // -- Courses --------------------------------------------------------------

  /** How far an attempt can still be from its end. */
  function Rank(d: Deployment, pc: Pc): nat {
    match pc
    case Intake => d.maxAttempts + 9
    case Admitted(_) => d.maxAttempts + 8
    case Cleared(_) => d.maxAttempts + 7
    case Slotted(_) => d.maxAttempts + 6
    case Engine => d.maxAttempts + 5
    case Produced(_) => d.maxAttempts + 4
    case Posting(_, _, left, _) => left + 2
    case Failing(_, _) => 2
    case Adopting(_) => 1
    case Yielding => 1
    case Recording(_, _, _) => 1
    case Done(_) => 0
  }

  lemma CreateFalls(d: Deployment, w: World, i: nat, a: Attempt, now: Instant, fault: Fault)
    requires a.pc.Intake?
    ensures Rank(d, CreateStep(w, i, a, now, fault).attempts[i].pc) < Rank(d, a.pc)
  {
  }

  lemma AdmitFalls(d: Deployment, w: World, i: nat, a: Attempt)
    requires a.pc.Admitted?
    ensures Rank(d, AdmitStep(d, w, i, a).attempts[i].pc) < Rank(d, a.pc)
  {
  }

  lemma RenderFalls(d: Deployment, w: World, i: nat, a: Attempt, result: EngineResult)
    requires a.pc.Engine? && a.claim.Some?
    ensures Rank(d, RenderStep(w, i, a, result).attempts[i].pc) < Rank(d, a.pc)
  {
  }

  lemma AcquireFalls(d: Deployment, w: World, i: nat, a: Attempt)
    requires a.pc.Cleared?
    ensures Rank(d, AcquireStep(d, w, i, a).attempts[i].pc) < Rank(d, a.pc)
  {
  }

  lemma ClaimFalls(d: Deployment, w: World, i: nat, a: Attempt, now: Instant, fault: Fault)
    requires a.pc.Slotted?
    ensures Rank(d, ClaimStep(d, w, i, a, now, fault).attempts[i].pc) < Rank(d, a.pc)
  {
  }

  lemma CompletionFalls(d: Deployment, a: Attempt, stored: Job, bytes: Bytes)
    ensures Rank(d, AfterCompletion(d, a, stored, bytes).pc) <= d.maxAttempts + 2
  {
  }

  lemma CompleteFalls(d: Deployment, w: World, i: nat, a: Attempt, now: Instant, fault: Fault)
    requires a.pc.Produced? && a.claim.Some?
    ensures Rank(d, CompleteStep(d, w, i, a, now, fault).attempts[i].pc) < Rank(d, a.pc)
  {
    if fault == Fine && w.row.Some? && MayComplete(w.row.value, a.claim.value) {
      CompletionFalls(d, a, Completed(w.row.value, d.sha256(a.pc.bytes), now), a.pc.bytes);
    }
  }

  lemma FailFalls(d: Deployment, w: World, i: nat, a: Attempt, now: Instant, fault: Fault)
    requires a.pc.Failing?
    ensures Rank(d, FailStep(w, i, a, now, fault).attempts[i].pc) < Rank(d, a.pc)
  {
  }

  lemma RereadFalls(d: Deployment, w: World, i: nat, a: Attempt, unreadable: bool)
    requires a.pc.Adopting? || a.pc.Yielding?
    ensures Rank(d, RereadStep(d, w, i, a, unreadable).attempts[i].pc) < Rank(d, a.pc)
  {
  }

  lemma HeardFalls(d: Deployment, a: Attempt, id: string, observed: Observation)
    requires a.pc.Posting?
    ensures Rank(d, Onward(a, id, observed).pc) < Rank(d, a.pc)
  {
  }

  lemma BreaksFalls(d: Deployment, w: World, i: nat, a: Attempt, sent: bool, committed: bool, minted: string)
    requires a.pc.Posting? && a.claim.Some?
    ensures Rank(d, HandoffBreaksStep(d, w, i, a, sent, committed, minted).attempts[i].pc) < Rank(d, a.pc)
  {
  }

  lemma RecordFalls(d: Deployment, w: World, i: nat, a: Attempt, now: Instant, fault: Fault)
    requires a.pc.Recording?
    ensures Rank(d, RecordStep(w, i, a, now, fault).attempts[i].pc) < Rank(d, a.pc)
  {
  }

  lemma PostFalls(d: Deployment, w: World, i: nat, x: Weather)
    requires i in w.attempts && w.attempts[i].pc.Posting? && Enabled(d, w, PostEvent(d, w, i, w.attempts[i], x))
    ensures var w' := Next(d, w, PostEvent(d, w, i, w.attempts[i], x));
            i in w'.attempts && Rank(d, w'.attempts[i].pc) < Rank(d, w.attempts[i].pc)
  {
    var a := w.attempts[i];
    match PostEvent(d, w, i, a, x) {
      case HandoffBreaks(_, sent, committed, minted) => BreaksFalls(d, w, i, a, sent, committed, minted);
      case Deliver(_, delivery, minted) =>
        HeardFalls(d, a, IdOf(d, a, a.pc.bytes), Observe(a.pc.progress, IdOf(d, a, a.pc.bytes), delivery));
    }
  }

  lemma RankFalls(d: Deployment, w: World, i: nat, x: Weather)
    requires i in w.attempts && !w.attempts[i].pc.Done? && Enabled(d, w, OwnEvent(d, w, i, x))
    ensures var w' := Next(d, w, OwnEvent(d, w, i, x));
            i in w'.attempts && Rank(d, w'.attempts[i].pc) < Rank(d, w.attempts[i].pc)
  {
    var a := w.attempts[i];
    match a.pc {
      case Posting(_, _, _, _) => PostFalls(d, w, i, x);
      case Recording(_, _, _) => RecordFalls(d, w, i, a, x.clock(4), x.fault(6));
      case Produced(_) => CompleteFalls(d, w, i, a, x.clock(2), x.fault(2));
      case Failing(_, _) => FailFalls(d, w, i, a, x.clock(3), x.fault(4));
      case Adopting(_) => RereadFalls(d, w, i, a, x.fault(3) != Fine);
      case Yielding => RereadFalls(d, w, i, a, x.fault(5) != Fine);
      case Intake => CreateFalls(d, w, i, a, x.clock(0), x.fault(0));
      case Cleared(_) => AcquireFalls(d, w, i, a);
      case Slotted(_) => ClaimFalls(d, w, i, a, x.clock(1), x.fault(1));
      case Admitted(_) => AdmitFalls(d, w, i, a);
      case Engine => RenderFalls(d, w, i, a, x.engine);
    }
  }

  /** Where the attempt is taken: its own steps in turn, the others moving before each, to its end. */
  function Course(d: Deployment, w: World, i: nat, x: Weather): World
    requires i in w.attempts
    decreases Rank(d, w.attempts[i].pc)
  {
    if w.attempts[i].pc.Done? then w
    else
      var u := Others(d, w, i, x.others(Interval(w.attempts[i].pc)));
      var e := OwnEvent(d, u, i, x);
      if !Enabled(d, u, e) then u
      else RankFalls(d, u, i, x); Course(d, Next(d, u, e), i, x)
  }

  /** One step on, the course is the same. */
  lemma CourseGoesOn(d: Deployment, w: World, i: nat, x: Weather, e: Event)
    requires i in w.attempts && !w.attempts[i].pc.Done?
    requires var u := Others(d, w, i, x.others(Interval(w.attempts[i].pc)));
             e == OwnEvent(d, u, i, x) && Enabled(d, u, e)
    ensures var w' := Next(d, Others(d, w, i, x.others(Interval(w.attempts[i].pc))), e);
            i in w'.attempts && Course(d, w, i, x) == Course(d, w', i, x)
  {
    RankFalls(d, Others(d, w, i, x.others(Interval(w.attempts[i].pc))), i, x);
  }

  /** The slot goes back after the others have moved once more. */
  function GivenBack(d: Deployment, w: World, i: nat, x: Weather): World
    requires i in w.attempts
  {
    if w.attempts[i].slot then Next(d, Others(d, w, i, x.others(9)), Release(i)) else w
  }

  /** A whole submission. */
  function Submission(
    d: Deployment, w: World, i: nat, process: nat, package: string, tenant: Option<string>, x: Weather): World
    requires i !in w.attempts
  {
    var c := Course(d, Next(d, w, Spawn(i, process, package, tenant)), i, x);
    if i in c.attempts then GivenBack(d, c, i, x) else c
  }

  // -- A course is a run ----------------------------------------------------

  /** The protocol leads from one world to another. */
  ghost predicate Leads(d: Deployment, w: World, w': World) {
    exists es :: w' == Run(d, w, es)
  }

  lemma LeadsOn(d: Deployment, a: World, b: World, c: World)
    requires Leads(d, a, b) && Leads(d, b, c)
    ensures Leads(d, a, c)
  {
    var es :| b == Run(d, a, es);
    var fs :| c == Run(d, b, fs);
    RunAppends(d, a, es, fs);
  }

  lemma LeadsNowhere(d: Deployment, w: World)
    ensures Leads(d, w, w)
  {
    assert Run(d, w, []) == w;
  }

  lemma LeadsNext(d: Deployment, w: World, e: Event)
    ensures Leads(d, w, Next(d, w, e))
  {
    assert [e][1..] == [];
    assert Run(d, Next(d, w, e), []) == Next(d, w, e);
    assert Run(d, w, [e]) == Next(d, w, e);
  }

  lemma {:induction false} OthersLead(d: Deployment, w: World, i: nat, es: seq<Event>)
    requires i in w.attempts
    ensures Leads(d, w, Others(d, w, i, es))
    decreases |es|
  {
    if es == [] {
      LeadsNowhere(d, w);
    } else if Actor(es[0]) == Some(i) {
      OthersLead(d, w, i, es[1..]);
    } else {
      OthersStay(d, w, es[0], i);
      OthersLead(d, Next(d, w, es[0]), i, es[1..]);
      LeadsNext(d, w, es[0]);
      LeadsOn(d, w, Next(d, w, es[0]), Others(d, w, i, es));
    }
  }

  lemma {:induction false} CourseLeads(d: Deployment, w: World, i: nat, x: Weather)
    requires i in w.attempts
    ensures i in Course(d, w, i, x).attempts && Leads(d, w, Course(d, w, i, x))
    decreases Rank(d, w.attempts[i].pc)
  {
    if w.attempts[i].pc.Done? {
      LeadsNowhere(d, w);
    } else {
      var u := Others(d, w, i, x.others(Interval(w.attempts[i].pc)));
      var e := OwnEvent(d, u, i, x);
      OthersLead(d, w, i, x.others(Interval(w.attempts[i].pc)));
      if Enabled(d, u, e) {
        RankFalls(d, u, i, x);
        CourseLeads(d, Next(d, u, e), i, x);
        LeadsNext(d, u, e);
        LeadsOn(d, w, u, Next(d, u, e));
        LeadsOn(d, w, Next(d, u, e), Course(d, w, i, x));
      }
    }
  }

  /** Every submission is a run of the protocol. */
  lemma SubmissionLeads(
    d: Deployment, w: World, i: nat, process: nat, package: string, tenant: Option<string>, x: Weather)
    requires i !in w.attempts
    ensures Leads(d, w, Submission(d, w, i, process, package, tenant, x))
  {
    var w1 := Next(d, w, Spawn(i, process, package, tenant));
    var c := Course(d, w1, i, x);
    LeadsNext(d, w, Spawn(i, process, package, tenant));
    CourseLeads(d, w1, i, x);
    LeadsOn(d, w, w1, c);
    if c.attempts[i].slot {
      var u := Others(d, c, i, x.others(9));
      OthersLead(d, c, i, x.others(9));
      LeadsNext(d, u, Release(i));
      LeadsOn(d, c, u, Next(d, u, Release(i)));
      LeadsOn(d, w, c, Next(d, u, Release(i)));
    }
  }

  /** What leads anywhere keeps the invariant and takes nothing back. */
  lemma LeadsKeeps(d: Deployment, w: World, w': World)
    requires Reached(d, w) && Leads(d, w, w')
    ensures Reached(d, w') && Grows(w, w')
  {
    var es :| w' == Run(d, w, es);
    ReachedOn(d, w, es);
    ReachedInv(d, w);
    RunKeeps(d, w, es);
  }

  // -- Which calls can lose a claim -----------------------------------------

  /** A fault mark on an attempt that holds a claim comes from one of two calls. */
  ghost predicate Explained(a: Attempt, x: Weather) {
    a.faulted && a.claim.Some? ==> x.fault(1) == LandedLost || x.fault(4) != Fine
  }

  lemma ClaimExplained(d: Deployment, w: World, i: nat, a: Attempt, now: Instant, x: Weather)
    requires a.pc.Slotted? && a.claim.None? && !a.faulted
    ensures Explained(ClaimStep(d, w, i, a, now, x.fault(1)).attempts[i], x)
  {
  }

  lemma FailureExplained(d: Deployment, w: World, i: nat, a: Attempt, now: Instant, x: Weather)
    requires a.pc.Failing? && !a.faulted && w.row.Some?
    ensures Explained(FailStep(w, i, a, now, x.fault(4)).attempts[i], x)
  {
  }

  /** Every other call leaves no mark. */
  lemma OwnStepIsFaultless(d: Deployment, w: World, i: nat, x: Weather)
    requires i in w.attempts && !w.attempts[i].faulted && Enabled(d, w, OwnEvent(d, w, i, x))
    requires !w.attempts[i].pc.Slotted? && !w.attempts[i].pc.Failing?
    ensures var w' := Next(d, w, OwnEvent(d, w, i, x)); i in w'.attempts && !w'.attempts[i].faulted
  {
    assert NoFault(Next(d, w, OwnEvent(d, w, i, x)), i, w.attempts[i]);
  }

  lemma StepExplained(d: Deployment, w: World, i: nat, x: Weather)
    requires Inv(d, w) && i in w.attempts && !w.attempts[i].pc.Done? && Enabled(d, w, OwnEvent(d, w, i, x))
    ensures var w' := Next(d, w, OwnEvent(d, w, i, x)); i in w'.attempts && Explained(w'.attempts[i], x)
  {
    var a := w.attempts[i];
    assert AttemptOk(d, w.row, w.ledger, w.archive, i, a);
    match a.pc {
      case Slotted(_) => ClaimExplained(d, w, i, a, x.clock(1), x);
      case Failing(_, _) => FailureExplained(d, w, i, a, x.clock(3), x);
      case _ => OwnStepIsFaultless(d, w, i, x);
    }
  }

  lemma {:induction false} CourseExplained(d: Deployment, w: World, i: nat, x: Weather)
    requires Reached(d, w) && i in w.attempts && Explained(w.attempts[i], x)
    ensures i in Course(d, w, i, x).attempts && Explained(Course(d, w, i, x).attempts[i], x)
    decreases Rank(d, w.attempts[i].pc)
  {
    if !w.attempts[i].pc.Done? {
      var u := Others(d, w, i, x.others(Interval(w.attempts[i].pc)));
      var e := OwnEvent(d, u, i, x);
      OthersLead(d, w, i, x.others(Interval(w.attempts[i].pc)));
      LeadsKeeps(d, w, u);
      if Enabled(d, u, e) {
        ReachedInv(d, u);
        StepExplained(d, u, i, x);
        RankFalls(d, u, i, x);
        ReachedNext(d, u, e);
        CourseExplained(d, Next(d, u, e), i, x);
      }
    }
  }
}
