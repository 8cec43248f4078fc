/** Fail closed: when an attempt's exit leaves its claim settled, when not, and how such a job comes free. */
module RenderFailClosed {
  import opened Wrappers
  import opened Timestamps
  import opened RenderStore
  import opened RenderExecution
  import opened RenderProtocol
  import opened RenderInvariant
  import opened RenderSafety

  // -- What the ledger says of an attempt -----------------------------------

  predicate Granted(w: World, g: nat, i: nat) {
    g in w.ledger.grants && w.ledger.grants[g] == i
  }

  /** Whoever holds a claim, or submits a package that is refused, may write a terminal state. */
  ghost predicate MaySettle(d: Deployment, a: Attempt) {
    a.claim.Some? || d.refusal(a.package).Some?
  }

  /** Every grant and every terminal write is that of an attempt entitled to it. */
  ghost predicate Traced(d: Deployment, w: World) {
    && (forall g :: g in w.ledger.grants ==>
          w.ledger.grants[g] in w.attempts && w.attempts[w.ledger.grants[g]].claim == Some(g))
    && (forall k :: 0 <= k < |w.ledger.terminals| ==>
          w.ledger.terminals[k] in w.attempts && MaySettle(d, w.attempts[w.ledger.terminals[k]]))
  }

  /** An event adds to the ledger only in the name of its own attempt. */
  lemma LedgerStep(d: Deployment, w: World, e: Event)
    ensures var l, l' := w.ledger, Next(d, w, e).ledger;
            && (l'.grants == l.grants
                || (e.Claim? && Enabled(d, w, e) && w.row.Some?
                    && Next(d, w, e).row == Some(Claimed(w.row.value, e.now))
                    && l'.grants == l.grants[w.row.value.generation + 1 := e.i]
                    && Next(d, w, e).attempts[e.i].claim == Some(w.row.value.generation + 1)))
            && (l'.terminals == l.terminals
                || ((e.Complete? || e.Fail?) && Enabled(d, w, e) && l'.terminals == l.terminals + [e.i]))
  {
  }

  /** An attempt that has ended only gives its slot back. */
  lemma DoneRests(d: Deployment, w: World, e: Event, i: nat)
    requires i in w.attempts && w.attempts[i].pc.Done?
    ensures i in Next(d, w, e).attempts
    ensures Next(d, w, e).attempts[i] in {w.attempts[i], w.attempts[i].(slot := false)}
  {
    if Actor(e) == Some(i) {
      assert Enabled(d, w, e) ==> e.Release?;
    } else {
      OthersStay(d, w, e, i);
    }
  }

  /** A holder stays one whatever happens, and a terminal write is a holder's. */
  lemma HoldersStay(d: Deployment, w: World, e: Event, j: nat)
    requires Inv(d, w) && j in w.attempts && MaySettle(d, w.attempts[j])
    ensures j in Next(d, w, e).attempts && MaySettle(d, Next(d, w, e).attempts[j])
  {
    assert AttemptOk(d, w.row, w.ledger, w.archive, j, w.attempts[j]);
    NextContinues(d, w, e, j);
  }

  lemma WriterMaySettle(d: Deployment, w: World, e: Event)
    requires Inv(d, w) && (e.Complete? || e.Fail?) && Enabled(d, w, e)
    ensures MaySettle(d, w.attempts[e.i])
  {
    assert AttemptOk(d, w.row, w.ledger, w.archive, e.i, w.attempts[e.i]);
  }

  lemma NextTraced(d: Deployment, w: World, e: Event)
    requires Inv(d, w) && Traced(d, w)
    ensures Traced(d, Next(d, w, e))
  {
    var w' := Next(d, w, e);
    LedgerStep(d, w, e);
    forall g | g in w'.ledger.grants
      ensures w'.ledger.grants[g] in w'.attempts && w'.attempts[w'.ledger.grants[g]].claim == Some(g)
    {
      if g in w.ledger.grants && w'.ledger.grants[g] == w.ledger.grants[g] {
        var j := w.ledger.grants[g];
        assert AttemptOk(d, w.row, w.ledger, w.archive, j, w.attempts[j]);
        NextContinues(d, w, e, j);
      }
    }
    forall k | 0 <= k < |w'.ledger.terminals|
      ensures w'.ledger.terminals[k] in w'.attempts && MaySettle(d, w'.attempts[w'.ledger.terminals[k]])
    {
      if k == |w.ledger.terminals| {
        WriterMaySettle(d, w, e);
      }
      HoldersStay(d, w, e, w'.ledger.terminals[k]);
    }
  }

  lemma {:induction false} RunTraced(d: Deployment, w: World, es: seq<Event>)
    requires Inv(d, w) && Healthy(d) && Traced(d, w)
    ensures Traced(d, Run(d, w, es))
    decreases |es|
  {
    if es != [] {
      NextTraced(d, w, es[0]);
      NextKeeps(d, w, es[0]);
      RunTraced(d, Next(d, w, es[0]), es[1..]);
    }
  }

  lemma ReachedTraced(d: Deployment, w: World)
    requires Reached(d, w)
    ensures Traced(d, w)
  {
    var w0, es :| Initial(w0) && w == Run(d, w0, es);
    RunTraced(d, w0, es);
  }

  // -- Exits ----------------------------------------------------------------

  /**
   A generation granted is never stranded by an attempt that ends, unless the attempt left through
   a claim or a failure call that raised: the job is settled, or belongs to a later claim.
   */
  lemma ExitedGrantIsSettled(d: Deployment, w: World, i: nat, g: nat)
    requires Reached(d, w) && i in w.attempts && w.attempts[i].pc.Done?
    requires Granted(w, g, i) && !w.attempts[i].faulted
    ensures Superseded(w.row, g)
  {
    ReachedInv(d, w);
    ReachedTraced(d, w);
    assert AttemptOk(d, w.row, w.ledger, w.archive, i, w.attempts[i]);
  }

  /** A claim that landed but raised to the claimant, or a failure write that never reached the row. */
  predicate LosesTheClaim(w: World, e: Event) {
    || (e.Claim? && e.fault == LandedLost)
    || (e.Fail? && e.fault == Lost && e.i in w.attempts && w.attempts[e.i].pc.Failing?
        && w.row.Some? && MayFail(w.row.value, w.attempts[e.i].pc.expected))
  }

  /** What an exit through the claim leaves. */
  lemma ClaimExits(d: Deployment, w: World, i: nat, now: Instant, fault: Fault, g: nat)
    requires Inv(d, w) && Traced(d, w) && i in w.attempts && w.attempts[i].pc.Slotted?
    requires var w' := ClaimStep(d, w, i, w.attempts[i], now, fault); w'.attempts[i].pc.Done? && Granted(w', g, i)
    ensures fault == LandedLost
    ensures !Superseded(ClaimStep(d, w, i, w.attempts[i], now, fault).row, g)
  {
    assert AttemptOk(d, w.row, w.ledger, w.archive, i, w.attempts[i]);
  }

  /** What an exit through the failure write leaves. */
  lemma FailureExits(d: Deployment, w: World, i: nat, now: Instant, fault: Fault, g: nat)
    requires Inv(d, w) && Traced(d, w) && i in w.attempts && w.attempts[i].pc.Failing? && Granted(w, g, i)
    ensures Superseded(FailStep(w, i, w.attempts[i], now, fault).row, g)
            <==> !(fault == Lost && w.row.Some? && MayFail(w.row.value, w.attempts[i].pc.expected))
  {
    assert AttemptOk(d, w.row, w.ledger, w.archive, i, w.attempts[i]);
  }

  lemma OtherExits(d: Deployment, w: World, e: Event)
    requires Inv(d, w) && Enabled(d, w, e) && !e.Spawn? && !e.DrainSlot? && !e.Claim? && !e.Fail?
    requires !w.attempts[e.i].pc.Done?
    ensures e.i in Next(d, w, e).attempts && !Next(d, w, e).attempts[e.i].faulted
  {
    assert AttemptOk(d, w.row, w.ledger, w.archive, e.i, w.attempts[e.i]);
    assert NoFault(Next(d, w, e), e.i, w.attempts[e.i]);
  }

  lemma ClaimExitStrands(d: Deployment, w: World, e: Event, g: nat)
    requires Inv(d, w) && Traced(d, w) && Enabled(d, w, e) && e.Claim?
    requires Next(d, w, e).attempts[e.i].pc.Done? && Granted(Next(d, w, e), g, e.i)
    ensures e.fault == LandedLost && !Superseded(Next(d, w, e).row, g)
  {
    ClaimExits(d, w, e.i, e.now, e.fault, g);
  }

  lemma FailureExitStrands(d: Deployment, w: World, e: Event, g: nat)
    requires Inv(d, w) && Traced(d, w) && Enabled(d, w, e) && e.Fail? && Granted(Next(d, w, e), g, e.i)
    ensures Superseded(Next(d, w, e).row, g) <==> !LosesTheClaim(w, e)
  {
    LedgerStep(d, w, e);
    FailureExits(d, w, e.i, e.now, e.fault, g);
  }

  lemma OtherExitsSettle(d: Deployment, w: World, e: Event, g: nat)
    requires Reached(d, w) && Inv(d, w) && Enabled(d, w, e)
    requires !e.Spawn? && !e.DrainSlot? && !e.Claim? && !e.Fail? && !w.attempts[e.i].pc.Done?
    requires Next(d, w, e).attempts[e.i].pc.Done? && Granted(Next(d, w, e), g, e.i)
    ensures Superseded(Next(d, w, e).row, g)
  {
    OtherExits(d, w, e);
    ReachedNext(d, w, e);
    ExitedGrantIsSettled(d, Next(d, w, e), e.i, g);
  }

  /** Exactly these two calls end an attempt with its generation neither settled nor taken over. */
  lemma ExitStrandsExactly(d: Deployment, w: World, e: Event, g: nat)
    requires Reached(d, w) && Enabled(d, w, e) && !e.Spawn? && !e.DrainSlot?
    requires !w.attempts[e.i].pc.Done? && Next(d, w, e).attempts[e.i].pc.Done?
    requires Granted(Next(d, w, e), g, e.i)
    ensures Superseded(Next(d, w, e).row, g) <==> !LosesTheClaim(w, e)
  {
    ReachedInv(d, w);
    ReachedTraced(d, w);
    match e {
      case Claim(_, _, _) => ClaimExitStrands(d, w, e, g);
      case Fail(_, _, _) => FailureExitStrands(d, w, e, g);
      case _ => OtherExitsSettle(d, w, e, g);
    }
  }

  /** While its holder is gone, a job still rendering under a generation waits. */
  ghost predicate Waits(w: World, i: nat, g: nat) {
    && i in w.attempts && w.attempts[i].pc.Done? && Granted(w, g, i)
    && w.row.Some? && w.row.value.generation == g && w.row.value.status == Rendering
  }

  lemma NobodyCompletes(d: Deployment, w: World, e: Event, i: nat, g: nat)
    requires Inv(d, w) && Waits(w, i, g) && e.Complete? && Enabled(d, w, e)
    ensures Next(d, w, e).row == w.row
  {
    assert AttemptOk(d, w.row, w.ledger, w.archive, e.i, w.attempts[e.i]);
  }

  lemma NobodyFails(d: Deployment, w: World, e: Event, i: nat, g: nat)
    requires Inv(d, w) && Waits(w, i, g) && e.Fail? && Enabled(d, w, e)
    ensures Next(d, w, e).row == w.row
  {
    assert AttemptOk(d, w.row, w.ledger, w.archive, e.i, w.attempts[e.i]);
  }

  lemma NobodyHandsOff(d: Deployment, w: World, i: nat, g: nat, j: nat)
    requires Inv(d, w) && Waits(w, i, g) && j in w.attempts
    ensures !Handing(w.attempts[j])
  {
    assert AttemptOk(d, w.row, w.ledger, w.archive, j, w.attempts[j]);
  }

  /** The events that write no terminal state and no custody. */
  lemma OthersMoveTheRowOn(d: Deployment, w: World, e: Event)
    requires w.row.Some? && Enabled(d, w, e) && !e.Complete? && !e.Fail? && !e.Record?
    ensures var row := Next(d, w, e).row; row == w.row || (row.Some? && row.value.generation > w.row.value.generation)
  {
  }

  /** The row of a job nobody holds moves only by a claim. */
  lemma RowWaits(d: Deployment, w: World, e: Event, i: nat, g: nat)
    requires Inv(d, w) && Waits(w, i, g)
    ensures var row := Next(d, w, e).row; row == w.row || (row.Some? && row.value.generation > g)
  {
    if Enabled(d, w, e) {
      match e {
        case Complete(_, _, _) => NobodyCompletes(d, w, e, i, g);
        case Fail(_, _, _) => NobodyFails(d, w, e, i, g);
        case Record(j, _, _) => NobodyHandsOff(d, w, i, g, j);
        case _ => OthersMoveTheRowOn(d, w, e);
      }
    }
  }

  lemma NextWaits(d: Deployment, w: World, e: Event, i: nat, g: nat)
    requires Inv(d, w) && Waits(w, i, g)
    ensures Waits(Next(d, w, e), i, g) || (Next(d, w, e).row.Some? && Next(d, w, e).row.value.generation > g)
  {
    DoneRests(d, w, e, i);
    RowWaits(d, w, e, i, g);
    LedgerStep(d, w, e);
  }

  /**
   However the run goes on, only a takeover frees a stranded job: it is settled or taken over at a
   later moment exactly if a later claim was granted by then.
   */
  lemma {:induction false} OnlyATakeoverFrees(d: Deployment, w: World, es: seq<Event>, i: nat, g: nat)
    requires Inv(d, w) && Healthy(d) && Waits(w, i, g)
    ensures var row := Run(d, w, es).row; row.Some? && (Superseded(row, g) <==> row.value.generation > g)
    decreases |es|
  {
    if es != [] {
      var w1 := Next(d, w, es[0]);
      NextWaits(d, w, es[0], i, g);
      NextKeeps(d, w, es[0]);
      if Waits(w1, i, g) {
        OnlyATakeoverFrees(d, w1, es[1..], i, g);
      } else {
        RunKeeps(d, w1, es[1..]);
      }
    }
  }

  // -- The two runs ---------------------------------------------------------

  /** A submission up to its claim, alone in its process. */
  function UpToTheClaim(package: string, tenant: Option<string>, now: Instant, fault: Fault): seq<Event> {
    [Spawn(0, 0, package, tenant), Create(0, now, Fine), Admit(0), Acquire(0), Claim(0, now, fault)]
  }

  function Claimant(package: string, tenant: Option<string>, pc: Pc, faulted: bool): Attempt {
    Attempt(0, package, tenant, pc, Some(1), true, faulted)
  }

  lemma RunOne(d: Deployment, w: World, e: Event, es: seq<Event>)
    ensures Run(d, w, [e] + es) == Run(d, Next(d, w, e), es)
  {
    assert ([e] + es)[1..] == es;
  }

  /** Up to the slot. */
  lemma SlottedFromNothing(d: Deployment, w0: World, package: string, tenant: Option<string>, now: Instant)
    requires Initial(w0) && d.limit > 0 && d.refusal(package).None?
    ensures var job := NewJob(package, tenant, now);
            var w := Run(d, w0, [Spawn(0, 0, package, tenant), Create(0, now, Fine), Admit(0), Acquire(0)]);
            && w.row == Some(job) && w.ledger == w0.ledger
            && w.attempts == map[0 := Attempt(0, package, tenant, Slotted(job), None, true, false)]
  {
    var job := NewJob(package, tenant, now);
    var w1 := Next(d, w0, Spawn(0, 0, package, tenant));
    var w2 := Next(d, w1, Create(0, now, Fine));
    var w3 := Next(d, w2, Admit(0));
    assert w1.attempts == map[0 := Attempt(0, package, tenant, Intake, None, false, false)];
    assert w2.row == Some(job);
    assert w2.attempts == map[0 := Attempt(0, package, tenant, Admitted(job), None, false, false)];
    assert w3.attempts == map[0 := Attempt(0, package, tenant, Cleared(job), None, false, false)];
    RunOne(d, w3, Acquire(0), []);
    RunOne(d, w2, Admit(0), [Acquire(0)]);
    RunOne(d, w1, Create(0, now, Fine), [Admit(0), Acquire(0)]);
    RunOne(d, w0, Spawn(0, 0, package, tenant), [Create(0, now, Fine), Admit(0), Acquire(0)]);
  }

  lemma ClaimedFromNothing(
    d: Deployment, w0: World, package: string, tenant: Option<string>, now: Instant, fault: Fault)
    requires Initial(w0) && d.limit > 0 && d.refusal(package).None? && fault != Lost
    ensures var w := Run(d, w0, UpToTheClaim(package, tenant, now, fault));
            && w.row == Some(Claimed(NewJob(package, tenant, now), now))
            && w.ledger == Ledger(map[1 := 0], [], [], [], false)
            && w.attempts == map[0 := if fault == Fine then Claimant(package, tenant, Engine, false)
                                      else Claimant(package, tenant, Done(Raised(STORE_FAULT)), true)]
  {
    var first := [Spawn(0, 0, package, tenant), Create(0, now, Fine), Admit(0), Acquire(0)];
    SlottedFromNothing(d, w0, package, tenant, now);
    assert UpToTheClaim(package, tenant, now, fault) == first + [Claim(0, now, fault)];
    RunAppends(d, w0, first, [Claim(0, now, fault)]);
    RunOne(d, Run(d, w0, first), Claim(0, now, fault), []);
  }

  /** The claim lands and its call raises: the submission ends, the job is left rendering. */
  lemma LostClaimStrands(d: Deployment, w0: World, package: string, tenant: Option<string>, now: Instant)
    requires Initial(w0) && d.limit > 0 && d.refusal(package).None?
    ensures var w := Run(d, w0, UpToTheClaim(package, tenant, now, LandedLost));
            Waits(w, 0, 1) && !Superseded(w.row, 1)
  {
    ClaimedFromNothing(d, w0, package, tenant, now, LandedLost);
  }

  /** The engine breaks and the failure write never reaches the store: likewise. */
  lemma LostFailureStrands(
    d: Deployment, w0: World, package: string, tenant: Option<string>, now: Instant, failure: Failure)
    requires Initial(w0) && d.limit > 0 && d.refusal(package).None?
    ensures var breaks := [Render(0, Broke(failure)), Fail(0, now, Lost)];
            var w := Run(d, w0, UpToTheClaim(package, tenant, now, Fine) + breaks);
            Waits(w, 0, 1) && !Superseded(w.row, 1)
  {
    var es := UpToTheClaim(package, tenant, now, Fine);
    var w5 := Run(d, w0, es);
    ClaimedFromNothing(d, w0, package, tenant, now, Fine);
    RunAppends(d, w0, es, [Render(0, Broke(failure)), Fail(0, now, Lost)]);
    RunOne(d, w5, Render(0, Broke(failure)), [Fail(0, now, Lost)]);
    RunOne(d, Next(d, w5, Render(0, Broke(failure))), Fail(0, now, Lost), []);
    assert Next(d, w5, Render(0, Broke(failure))).attempts[0] == Claimant(package, tenant, Failing(failure, 1), false);
  }

  // -- Refusals before the claim --------------------------------------------

  lemma NextRests(d: Deployment, w: World, e: Event, i: nat)
    requires i in w.attempts && w.attempts[i].pc.Done? && !w.attempts[i].slot
    ensures i in Next(d, w, e).attempts && Next(d, w, e).attempts[i] == w.attempts[i]
    ensures Actor(e) == Some(i) ==> Next(d, w, e) == w
  {
    if Actor(e) != Some(i) {
      OthersStay(d, w, e, i);
    }
  }

  /** Nothing in the ledger bears the attempt's name. */
  ghost predicate Unmarked(w: World, i: nat) {
    && (forall g :: g in w.ledger.grants ==> w.ledger.grants[g] != i)
    && i !in w.ledger.terminals
  }

  lemma {:induction false} UnmarkedForGood(d: Deployment, w: World, es: seq<Event>, i: nat)
    requires i in w.attempts && w.attempts[i].pc.Done? && !w.attempts[i].slot && Unmarked(w, i)
    ensures var w' := Run(d, w, es); i in w'.attempts && w'.attempts[i] == w.attempts[i] && Unmarked(w', i)
    decreases |es|
  {
    if es != [] {
      NextRests(d, w, es[0], i);
      LedgerStep(d, w, es[0]);
      UnmarkedForGood(d, Next(d, w, es[0]), es[1..], i);
    }
  }

  lemma CapacityStep(d: Deployment, w: World, i: nat)
    requires Inv(d, w) && Traced(d, w) && i in w.attempts && w.attempts[i].pc.Cleared?
    requires SlotsOf(d, w, w.attempts[i].process).free == 0
    ensures var w1 := Next(d, w, Acquire(i));
            && w1.row == w.row && i in w1.attempts && w1.attempts[i] == Leave(w.attempts[i], Raised(CAPACITY))
            && !w1.attempts[i].slot && Unmarked(w1, i)
  {
    assert AttemptOk(d, w.row, w.ledger, w.archive, i, w.attempts[i]);
  }

  /** Only who wrote the terminal state posts or records. */
  lemma UnmarkedNeverHandsOff(d: Deployment, w: World, i: nat)
    requires Inv(d, w) && Unmarked(w, i)
    ensures i !in w.ledger.custodians && forall k :: 0 <= k < |w.ledger.posts| ==> w.ledger.posts[k].attempt != i
  {
    forall k | 0 <= k < |w.ledger.posts| ensures w.ledger.posts[k].attempt != i {
      assert PostOk(d, w.row.value, w.ledger, w.ledger.posts[k]);
    }
  }

  /**
   A submission refused for want of a slot changes no column, and however the run goes on it never
   holds a slot or a generation, never writes a terminal state, never posts and never records.
   */
  lemma CapacityRejectionIsTheEnd(d: Deployment, w: World, es: seq<Event>, i: nat)
    requires Reached(d, w) && i in w.attempts && w.attempts[i].pc.Cleared?
    requires SlotsOf(d, w, w.attempts[i].process).free == 0
    ensures Next(d, w, Acquire(i)).row == w.row
    ensures var w' := Run(d, Next(d, w, Acquire(i)), es);
            && i in w'.attempts && w'.attempts[i].pc == Done(Raised(CAPACITY)) && !w'.attempts[i].slot
            && Unmarked(w', i) && i !in w'.ledger.custodians
            && (forall k :: 0 <= k < |w'.ledger.posts| ==> w'.ledger.posts[k].attempt != i)
  {
    var w1 := Next(d, w, Acquire(i));
    ReachedInv(d, w);
    ReachedTraced(d, w);
    CapacityStep(d, w, i);
    UnmarkedForGood(d, w1, es, i);
    NextKeeps(d, w, Acquire(i));
    RunKeeps(d, w1, es);
    UnmarkedNeverHandsOff(d, Run(d, w1, es), i);
  }

  /**
   A package refused at admission is never claimed by anyone, so the failure written before any
   claim cannot land on a job somebody is rendering.
   */
  lemma RefusedPackageIsNeverClaimed(d: Deployment, w: World)
    requires Reached(d, w) && w.row.Some? && d.refusal(w.row.value.packageHash).Some?
    ensures w.row.value.generation == 0 && w.row.value.status in {Accepted, Failed}
    ensures forall j :: j in w.attempts ==> w.attempts[j].claim.None?
  {
    ReachedInv(d, w);
    forall j | j in w.attempts
      ensures w.attempts[j].claim.None?
    {
      assert AttemptOk(d, w.row, w.ledger, w.archive, j, w.attempts[j]);
    }
  }

  /** The converse fence: a failure about to be written without a claim is such a package's. */
  lemma UnclaimedFailureIsARefusal(d: Deployment, w: World, i: nat)
    requires Reached(d, w) && i in w.attempts && w.attempts[i].pc.Failing? && w.attempts[i].claim.None?
    ensures w.row.Some? && d.refusal(w.row.value.packageHash).Some? && w.attempts[i].pc.expected == 0
    ensures forall j :: j in w.attempts ==> !w.attempts[j].pc.Engine? && !w.attempts[j].pc.Produced?
  {
    ReachedInv(d, w);
    assert AttemptOk(d, w.row, w.ledger, w.archive, i, w.attempts[i]);
    RefusedPackageIsNeverClaimed(d, w);
    forall j | j in w.attempts
      ensures !w.attempts[j].pc.Engine? && !w.attempts[j].pc.Produced?
    {
      assert AttemptOk(d, w.row, w.ledger, w.archive, j, w.attempts[j]);
    }
  }
}
