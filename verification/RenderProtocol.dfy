/**
 Every interleaving of submissions for one job: threads, restarted processes and workers that
 stall and wake up late. Each store call, engine result, post and slot operation is one event;
 a crashed attempt is one that is never scheduled again, so every prefix of a run is a run.
 */
module RenderProtocol {
  import opened Wrappers
  import opened Timestamps
  import opened RenderStore
  import opened ArchiveHandoff
  import opened RenderExecution

  /**
   One deployment. A package is identified with its hash; the admission refusals are predicates
   of the package alone, and so are the parts of it that custody reads. `rejects` is Archive's
   judgement of the content a request id stands for.
   */
  datatype Deployment = Deployment(
    sha256: Bytes -> string,
    sha: string -> string,
    refusal: string -> Option<Failure>,
    context: string -> Context,
    rejects: string -> bool,
    handoff: bool,
    staleSeconds: nat,
    limit: nat,
    maxAttempts: nat)

  predicate Sound(d: Deployment, b: Bytes) {
    IsHexDigest(d.sha256(b))
  }

  function RequestId(d: Deployment, package: string, artifactSha256: string): Option<string> {
    ReconciliationRequestId(d.sha, d.context(package), artifactSha256)
  }

  // -- Attempts -------------------------------------------------------------

  datatype Exit = Responded(job: Job, bytes: Option<Bytes>) | Raised(failure: Failure)

  const STORE_FAULT := Failure("store_fault", "store_fault")
  const CONFLICT := Failure("render_job_conflict", "render_job_conflict")
  const CAPACITY := Failure("capacity", "render_execution_capacity_exhausted")
  const UNRECORDED := Failure("unexpected_render_error", "Render execution failed in the governed runtime envelope.")

  /** Where an attempt stands between two atomic steps, with the locals it carries there. */
  datatype Pc =
    | Intake
    | Admitted(current: Job)
    | Cleared(current: Job)
    | Slotted(current: Job)
    | Engine
    | Produced(bytes: Bytes)
    | Failing(failure: Failure, expected: nat)
    | Adopting(bytes: Bytes)
    | Yielding
    | Posting(stored: Job, bytes: Bytes, left: nat, progress: Progress)
    | Recording(stored: Job, bytes: Bytes, outcome: Outcome)
    | Done(exit: Exit)

  /**
   `claim` is the generation the store granted the attempt, whether or not the grant came back to
   it; `faulted` says that it left through a claim or a failure call that raised.
   */
  datatype Attempt = Attempt(
    process: nat, package: string, tenant: Option<string>, pc: Pc,
    claim: Option<nat>, slot: bool, faulted: bool)

  /** One post of an artifact: who sent it, under which claim, under which id. */
  datatype Post = Post(attempt: nat, generation: nat, requestId: string)

  /** What really happened, kept for the statements only: no transition reads it. */
  datatype Ledger = Ledger(
    grants: map<nat, nat>,
    terminals: seq<nat>,
    posts: seq<Post>,
    custodians: seq<nat>,
    committed: bool)

  datatype World = World(
    row: Option<Job>,
    attempts: map<nat, Attempt>,
    slots: map<nat, Slots>,
    archive: Records,
    ledger: Ledger)

  /** A store call may raise without landing, or raise after it landed. */
  datatype Fault = Fine | Lost | LandedLost

  datatype EngineResult = Made(bytes: Bytes) | Broke(failure: Failure)

  datatype Event =
    | Spawn(i: nat, process: nat, package: string, tenant: Option<string>)
    | Create(i: nat, now: Instant, fault: Fault)
    | Admit(i: nat)
    | Acquire(i: nat)
    | Claim(i: nat, now: Instant, fault: Fault)
    | Render(i: nat, result: EngineResult)
    | Complete(i: nat, now: Instant, fault: Fault)
    | Fail(i: nat, now: Instant, fault: Fault)
    | Reread(i: nat, unreadable: bool)
    | Deliver(i: nat, delivery: Delivery, minted: string)
    | HandoffBreaks(i: nat, sent: bool, committed: bool, minted: string)
    | Record(i: nat, now: Instant, fault: Fault)
    | Release(i: nat)
    | DrainSlot(process: nat)

  // -- Steps ----------------------------------------------------------------

  function Put(w: World, i: nat, a: Attempt): World {
    w.(attempts := w.attempts[i := a])
  }

  function Leave(a: Attempt, exit: Exit): Attempt {
    a.(pc := Done(exit))
  }

  function SlotsOf(d: Deployment, w: World, process: nat): Slots {
    if process in w.slots then w.slots[process] else Slots(d.limit, {}, 0)
  }

  /** An attempt keeps its identity, and a claim once held is held for good. */
  ghost predicate Continues(a: Attempt, b: Attempt) {
    && b.process == a.process && b.package == a.package && b.tenant == a.tenant
    && (a.claim.Some? ==> b.claim == a.claim)
  }

  /** A step of attempt `i`, then standing as `a`, moves that attempt and no other. */
  ghost predicate Moves(w: World, w': World, i: nat, a: Attempt) {
    i in w'.attempts && w'.attempts == w.attempts[i := w'.attempts[i]] && Continues(a, w'.attempts[i])
  }

  /** The step is no claim or failure call that raised. */
  ghost predicate NoFault(w': World, i: nat, a: Attempt) {
    i in w'.attempts && w'.attempts[i].faulted == a.faulted
  }

  ghost predicate SlotsKept(w: World, w': World, i: nat, a: Attempt) {
    w'.slots == w.slots && i in w'.attempts && w'.attempts[i].slot == a.slot
  }

  ghost predicate NothingSent(w: World, w': World) {
    w'.archive == w.archive && w'.ledger.posts == w.ledger.posts && w'.ledger.committed == w.ledger.committed
  }

  /** How a submission goes on once its key is stored as `job`. */
  function Received(a: Attempt, job: Job, fault: Fault): Attempt {
    if fault != Fine then Leave(a, Raised(STORE_FAULT))
    else if Conflicts(job, a.package, a.tenant) then Leave(a, Raised(CONFLICT))
    else if job.Terminal() then Leave(a, Responded(job, None))
    else a.(pc := Admitted(job))
  }

  function CreateStep(w: World, i: nat, a: Attempt, now: Instant, fault: Fault): (w': World)
    ensures Moves(w, w', i, a) && SlotsKept(w, w', i, a) && NoFault(w', i, a)
    ensures NothingSent(w, w')
  {
    if fault == Lost then Put(w, i, Leave(a, Raised(STORE_FAULT)))
    else
      var job := if w.row.None? then NewJob(a.package, a.tenant, now) else w.row.value;
      Put(w.(row := Some(job)), i, Received(a, job, fault))
  }

  function AdmitStep(d: Deployment, w: World, i: nat, a: Attempt): (w': World)
    requires a.pc.Admitted?
    ensures Moves(w, w', i, a) && SlotsKept(w, w', i, a) && NoFault(w', i, a)
    ensures NothingSent(w, w')
  {
    match d.refusal(a.package)
    case Some(failure) => Put(w, i, a.(pc := Failing(failure, a.pc.current.generation)))
    case None => Put(w, i, a.(pc := Cleared(a.pc.current)))
  }

  function AcquireStep(d: Deployment, w: World, i: nat, a: Attempt): (w': World)
    requires a.pc.Cleared?
    ensures Moves(w, w', i, a) && NoFault(w', i, a)
    ensures NothingSent(w, w')
  {
    var s := SlotsOf(d, w, a.process);
    if s.free == 0 then Put(w, i, Leave(a, Raised(CAPACITY)))
    else Put(w.(slots := w.slots[a.process := Slots(s.free - 1, s.holders + {i}, s.drained)]), i,
             a.(pc := Slotted(a.pc.current), slot := true))
  }

  function ClaimStep(d: Deployment, w: World, i: nat, a: Attempt, now: Instant, fault: Fault): (w': World)
    requires a.pc.Slotted?
    ensures (a.claim.None? ==> Moves(w, w', i, a)) && SlotsKept(w, w', i, a)
    ensures NothingSent(w, w')
  {
    var lost := Leave(a, Raised(STORE_FAULT)).(faulted := true);
    if fault == Lost || w.row.None? then Put(w, i, lost)
    else if !Claimable(w.row.value, now, d.staleSeconds) then
      Put(w, i, if fault == Fine then Leave(a, Responded(a.pc.current, None)) else lost)
    else
      var job := Claimed(w.row.value, now);
      var u := w.(row := Some(job), ledger := w.ledger.(grants := w.ledger.grants[job.generation := i]));
      Put(u, i, (if fault == LandedLost then lost else a.(pc := Engine)).(claim := Some(job.generation)))
  }

  function RenderStep(w: World, i: nat, a: Attempt, result: EngineResult): (w': World)
    requires a.claim.Some?
    ensures Moves(w, w', i, a) && SlotsKept(w, w', i, a) && NoFault(w', i, a)
    ensures NothingSent(w, w')
  {
    match result
    case Made(bytes) => Put(w, i, a.(pc := Produced(bytes)))
    case Broke(failure) => Put(w, i, a.(pc := Failing(failure, a.claim.value)))
  }

  /** The program point after a completion that landed: hand off, or answer at once. */
  function AfterCompletion(d: Deployment, a: Attempt, stored: Job, bytes: Bytes): Attempt {
    var requestId := RequestId(d, a.package, d.sha256(bytes));
    if !d.handoff || requestId.None? then Leave(a, Responded(stored, Some(bytes)))
    else if d.maxAttempts == 0 then a.(pc := Recording(stored, bytes, Exhausted(FRESH, requestId.value)))
    else a.(pc := Posting(stored, bytes, d.maxAttempts, FRESH))
  }

  function CompleteStep(d: Deployment, w: World, i: nat, a: Attempt, now: Instant, fault: Fault): (w': World)
    requires a.pc.Produced? && a.claim.Some?
    ensures Moves(w, w', i, a) && SlotsKept(w, w', i, a) && NoFault(w', i, a)
    ensures NothingSent(w, w')
  {
    var g, bytes := a.claim.value, a.pc.bytes;
    var gaveUp := a.(pc := Failing(UNRECORDED, g));
    if fault == Lost || w.row.None? then Put(w, i, gaveUp)
    else if !MayComplete(w.row.value, g) then
      Put(w, i, if fault == Fine then a.(pc := Adopting(bytes)) else gaveUp)
    else
      var job := Completed(w.row.value, d.sha256(bytes), now);
      var u := w.(row := Some(job), ledger := w.ledger.(terminals := w.ledger.terminals + [i]));
      Put(u, i, if fault == Fine then AfterCompletion(d, a, job, bytes) else gaveUp)
  }

  function FailStep(w: World, i: nat, a: Attempt, now: Instant, fault: Fault): (w': World)
    requires a.pc.Failing?
    ensures Moves(w, w', i, a) && SlotsKept(w, w', i, a)
    ensures NothingSent(w, w')
    ensures w'.attempts[i].pc.Done? || w'.attempts[i].pc.Yielding?
  {
    var lost := Leave(a, Raised(STORE_FAULT)).(faulted := true);
    if fault == Lost || w.row.None? then Put(w, i, lost)
    else if !MayFail(w.row.value, a.pc.expected) then
      Put(w, i, if fault == Fine then a.(pc := Yielding) else lost)
    else
      var job := FailedWith(w.row.value, a.pc.failure, now);
      var u := w.(row := Some(job), ledger := w.ledger.(terminals := w.ledger.terminals + [i]));
      Put(u, i, if fault == Fine then Leave(a, Raised(a.pc.failure)) else lost)
  }

  /** The loser's bytes travel only when they hash to the digest stored beside them. */
  function AdoptedBytes(d: Deployment, stored: Job, bytes: Bytes): Option<Bytes> {
    if stored.status == Rendered && stored.artifactSha256.Some?
       && Normalize(stored.artifactSha256.value) == d.sha256(bytes)
    then Some(bytes) else None
  }

  function RereadStep(d: Deployment, w: World, i: nat, a: Attempt, unreadable: bool): (w': World)
    requires a.pc.Adopting? || a.pc.Yielding?
    ensures Moves(w, w', i, a) && SlotsKept(w, w', i, a) && NoFault(w', i, a)
    ensures NothingSent(w, w')
    ensures w'.attempts[i].pc.Done?
  {
    if unreadable || w.row.None? then Put(w, i, Leave(a, Raised(STORE_FAULT)))
    else
      var stored := w.row.value;
      Put(w, i, Leave(a,
        if a.pc.Adopting? then Responded(stored, AdoptedBytes(d, stored, a.pc.bytes))
        else if stored.status == Failed then Raised(if stored.failure.Some? then stored.failure.value else UNRECORDED)
        else Responded(stored, None)))
  }

  /** A post leaves its mark in Archive and in the ledger. */
  function Posted(w: World, i: nat, generation: nat, requestId: string, minted: string, delivery: Delivery): World {
    w.(archive := After(w.archive, requestId, minted, delivery),
       ledger := w.ledger.(posts := w.ledger.posts + [Post(i, generation, requestId)],
                           committed := w.ledger.committed || Commits(delivery)))
  }

  /** The retry loop's next program point after one observation. */
  function Onward(a: Attempt, id: string, observed: Observation): Attempt
    requires a.pc.Posting?
  {
    match observed
    case Settled(outcome) => a.(pc := Recording(a.pc.stored, a.pc.bytes, outcome))
    case Again(p) =>
      if a.pc.left <= 1 then a.(pc := Recording(a.pc.stored, a.pc.bytes, Exhausted(p, id)))
      else a.(pc := Posting(a.pc.stored, a.pc.bytes, a.pc.left - 1, p))
  }

  function Heard(a: Attempt, id: string, delivery: Delivery): Attempt
    requires a.pc.Posting?
  {
    Onward(a, id, Observe(a.pc.progress, id, delivery))
  }

  function DeliverStep(d: Deployment, w: World, i: nat, a: Attempt, delivery: Delivery, minted: string): (w': World)
    requires a.pc.Posting? && a.claim.Some? && RequestId(d, a.package, d.sha256(a.pc.bytes)).Some?
    ensures Moves(w, w', i, a) && SlotsKept(w, w', i, a) && NoFault(w', i, a)
  {
    var id := RequestId(d, a.package, d.sha256(a.pc.bytes)).value;
    var u := Posted(w, i, a.claim.value, id, minted, delivery);
    Put(u, i, Heard(a, id, delivery))
  }

  /** An unexpected error inside the hand-off, possibly after a post was written and even kept. */
  function HandoffBreaksStep(
    d: Deployment, w: World, i: nat, a: Attempt, sent: bool, committed: bool, minted: string): (w': World)
    requires a.pc.Posting? && a.claim.Some?
    ensures Moves(w, w', i, a) && SlotsKept(w, w', i, a) && NoFault(w', i, a)
    ensures w'.attempts[i].pc.Done? || w'.attempts[i].pc.Recording?
  {
    var requestId := RequestId(d, a.package, d.sha256(a.pc.bytes));
    match UnexpectedOutcome(requestId)
    case None => Put(w, i, Leave(a, Responded(a.pc.stored, Some(a.pc.bytes))))
    case Some(outcome) =>
      var u := if sent then Posted(w, i, a.claim.value, requestId.value, minted, Unobserved(false, "", committed))
               else w;
      Put(u, i, a.(pc := Recording(a.pc.stored, a.pc.bytes, outcome)))
  }

  /** Recording is best effort: whatever happens the caller gets the rendered bytes. */
  function RecordStep(w: World, i: nat, a: Attempt, now: Instant, fault: Fault): (w': World)
    requires a.pc.Recording?
    ensures Moves(w, w', i, a) && SlotsKept(w, w', i, a) && NoFault(w', i, a)
    ensures NothingSent(w, w')
    ensures w'.attempts[i].pc.Done?
  {
    var unrecorded := Leave(a, Responded(a.pc.stored, Some(a.pc.bytes)));
    if fault == Lost || w.row.None? || w.row.value.generation != a.pc.stored.generation then Put(w, i, unrecorded)
    else
      var job := InCustody(w.row.value, AsCustody(a.pc.outcome), now);
      var u := w.(row := Some(job), ledger := w.ledger.(custodians := w.ledger.custodians + [i]));
      Put(u, i, if fault == Fine then Leave(a, Responded(job, Some(a.pc.bytes))) else unrecorded)
  }

  function ReleaseStep(d: Deployment, w: World, i: nat, a: Attempt): (w': World)
    ensures Moves(w, w', i, a) && NoFault(w', i, a)
    ensures NothingSent(w, w')
  {
    var s := SlotsOf(d, w, a.process);
    Put(w.(slots := w.slots[a.process := Slots(s.free + 1, s.holders - {i}, s.drained)]), i, a.(slot := false))
  }

  function DrainStep(d: Deployment, w: World, process: nat): (w': World)
    ensures NothingSent(w, w')
  {
    var s := SlotsOf(d, w, process);
    if s.free == 0 then w
    else w.(slots := w.slots[process := Slots(s.free - 1, s.holders, s.drained + 1)])
  }

  /** Deliveries Archive could really give at this moment. */
  predicate Possible(d: Deployment, w: World, a: Attempt, delivery: Delivery, minted: string) {
    var id := RequestId(d, a.package, d.sha256(if a.pc.Posting? then a.pc.bytes else []));
    id.Some? && Truthful(w.archive, id.value, minted, delivery) && Judged(d.rejects(id.value), delivery)
  }

  /** Whether the event's attempt stands at the event's program point. */
  predicate Enabled(d: Deployment, w: World, e: Event) {
    match e
    case Spawn(i, _, _, _) => i !in w.attempts
    case DrainSlot(_) => true
    case Create(i, _, _) => i in w.attempts && w.attempts[i].pc.Intake?
    case Admit(i) => i in w.attempts && w.attempts[i].pc.Admitted?
    case Acquire(i) => i in w.attempts && w.attempts[i].pc.Cleared?
    case Claim(i, _, _) => i in w.attempts && w.attempts[i].pc.Slotted?
    case Render(i, _) => i in w.attempts && w.attempts[i].pc.Engine? && w.attempts[i].claim.Some?
    case Complete(i, _, _) => i in w.attempts && w.attempts[i].pc.Produced? && w.attempts[i].claim.Some?
    case Fail(i, _, _) => i in w.attempts && w.attempts[i].pc.Failing?
    case Reread(i, _) => i in w.attempts && (w.attempts[i].pc.Adopting? || w.attempts[i].pc.Yielding?)
    case Deliver(i, delivery, minted) =>
      && i in w.attempts && w.attempts[i].pc.Posting? && w.attempts[i].claim.Some?
      && Possible(d, w, w.attempts[i], delivery, minted)
    case HandoffBreaks(i, sent, committed, minted) =>
      && i in w.attempts && w.attempts[i].pc.Posting? && w.attempts[i].claim.Some? && (committed ==> sent)
      && Possible(d, w, w.attempts[i], Unobserved(false, "", committed), minted)
    case Record(i, _, _) => i in w.attempts && w.attempts[i].pc.Recording?
    case Release(i) => i in w.attempts && w.attempts[i].pc.Done? && w.attempts[i].slot
  }

  /** The world after one event; an event that is not enabled does not happen. */
  function Next(d: Deployment, w: World, e: Event): World {
    if !Enabled(d, w, e) then w
    else match e
      case Spawn(i, process, package, tenant) =>
        Put(w, i, Attempt(process, package, tenant, Intake, None, false, false))
      case Create(i, now, fault) => CreateStep(w, i, w.attempts[i], now, fault)
      case Admit(i) => AdmitStep(d, w, i, w.attempts[i])
      case Acquire(i) => AcquireStep(d, w, i, w.attempts[i])
      case Claim(i, now, fault) => ClaimStep(d, w, i, w.attempts[i], now, fault)
      case Render(i, result) => RenderStep(w, i, w.attempts[i], result)
      case Complete(i, now, fault) => CompleteStep(d, w, i, w.attempts[i], now, fault)
      case Fail(i, now, fault) => FailStep(w, i, w.attempts[i], now, fault)
      case Reread(i, unreadable) => RereadStep(d, w, i, w.attempts[i], unreadable)
      case Deliver(i, delivery, minted) => DeliverStep(d, w, i, w.attempts[i], delivery, minted)
      case HandoffBreaks(i, sent, committed, minted) =>
        HandoffBreaksStep(d, w, i, w.attempts[i], sent, committed, minted)
      case Record(i, now, fault) => RecordStep(w, i, w.attempts[i], now, fault)
      case Release(i) => ReleaseStep(d, w, i, w.attempts[i])
      case DrainSlot(process) => DrainStep(d, w, process)
  }

  function Run(d: Deployment, w: World, es: seq<Event>): World
    decreases |es|
  {
    if es == [] then w else Run(d, Next(d, w, es[0]), es[1..])
  }

  /** Before any submission: no row, no attempt; Archive may hold anything already. */
  predicate Initial(w: World) {
    && w.row.None? && w.attempts == map[] && w.slots == map[]
    && w.ledger == Ledger(map[], [], [], [], false)
  }
}
