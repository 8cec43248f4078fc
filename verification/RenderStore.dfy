/**
 The job table. Every store call is one conditional write under the store's lock; who may write
 is decided by the row's status and its claim generation, never by who asks.
 */
module RenderStore {
  import opened Wrappers
  import opened Timestamps

  type Bytes = seq<bv8>

  datatype Status = Accepted | Rendering | Rendered | Failed

  datatype ArchiveState = ArchivedVerified | ArchivePending | ArchiveFailed

  /** What the detail column says; how it is spelled is ArchiveDetail's affair. */
  datatype Detail =
    | Unreachable
    | NotSent(reason: string)
    | TimedOut
    | Unknown(reason: string)
    | NoDocument
    | Refused(status: nat, code: Option<string>, message: Option<string>)
    | Unexpected
    | Reconcile(of: Detail)

  /** The four custody columns; the row holds none of them until an outcome is recorded. */
  datatype Custody = Custody(
    state: ArchiveState, documentId: Option<string>, requestId: Option<string>, detail: Option<Detail>)

  datatype Failure = Failure(category: string, message: string)

  datatype Job = Job(
    packageHash: string,
    tenant: Option<string>,
    status: Status,
    generation: nat,
    createdAt: Instant,
    updatedAt: Instant,
    completedAt: Option<Instant>,
    artifactSha256: Option<string>,
    failure: Option<Failure>,
    custody: Option<Custody>)
  {
    predicate Terminal() {
      status == Rendered || status == Failed
    }
  }

  datatype StoreError =
    | NotFound
    | Conflict
    | StaleClaim(expected: nat, found: nat)
    | InvalidTransition(from: Status, to: Status)
    | StaleCustody(expected: nat, found: nat)

  /** The prefix the digest column carries. */
  function Tagged(digest: string): string {
    "sha256:" + digest
  }

  // -- What one call does to the one row it names ---------------------------

  function NewJob(packageHash: string, tenant: Option<string>, now: Instant): Job {
    Job(packageHash, tenant, Accepted, 0, now, now, None, None, None, None)
  }

  /** A raw key owned by another tenant, or naming another package, is one and the same conflict. */
  predicate Conflicts(job: Job, packageHash: string, tenant: Option<string>) {
    (tenant.Some? && job.tenant != tenant) || job.packageHash != packageHash
  }

  predicate Claimable(job: Job, now: Instant, staleSeconds: nat) {
    job.status == Accepted || (job.status == Rendering && StaleByText(job.updatedAt, now, staleSeconds))
  }

  function Claimed(job: Job, now: Instant): Job {
    job.(status := Rendering, updatedAt := now, generation := job.generation + 1)
  }

  function Completed(job: Job, digest: string, now: Instant): Job {
    job.(status := Rendered, failure := None, artifactSha256 := Some(Tagged(digest)),
         updatedAt := now, completedAt := Some(now))
  }

  function FailedWith(job: Job, failure: Failure, now: Instant): Job {
    job.(status := Failed, failure := Some(failure), artifactSha256 := None,
         updatedAt := now, completedAt := Some(now))
  }

  function InCustody(job: Job, custody: Custody, now: Instant): Job {
    job.(custody := Some(custody), updatedAt := now)
  }

  predicate MayComplete(job: Job, generation: nat) {
    job.generation == generation && job.status == Rendering
  }

  predicate MayFail(job: Job, generation: nat) {
    job.generation == generation && (job.status == Accepted || job.status == Rendering)
  }

  /** A stale claim leaves the status as the loser expects, so the generation names the refusal. */
  function Refusal(job: Job, to: Status, statusExpected: bool, generation: nat): StoreError {
    if statusExpected && job.generation != generation then StaleClaim(generation, job.generation)
    else InvalidTransition(job.status, to)
  }

  // -- The store ------------------------------------------------------------

  class Store {
    var rows: map<string, Job>

    constructor ()
      ensures rows == map[]
    {
      rows := map[];
    }

    /** INSERT OR IGNORE, then judge whichever row holds the key. */
    method CreateOrGet(id: string, packageHash: string, tenant: Option<string>, now: Instant)
      returns (r: Result<(Job, bool), StoreError>)
      modifies this
      ensures id !in old(rows) ==>
                var job := NewJob(packageHash, tenant, now);
                r == Ok((job, true)) && rows == old(rows)[id := job]
      ensures id in old(rows) ==> rows == old(rows)
      ensures id in old(rows) ==>
                r == if Conflicts(old(rows)[id], packageHash, tenant) then Err(Conflict) else Ok((old(rows)[id], false))
    {
      var created := id !in rows;
      if created {
        rows := rows[id := NewJob(packageHash, tenant, now)];
      }
      var job := rows[id];
      if tenant.Some? && job.tenant != tenant {
        return Err(Conflict);
      }
      if job.packageHash != packageHash {
        return Err(Conflict);
      }
      return Ok((job, created));
    }

    /** Reads are tenant scoped; another tenant's job, or an unattributed one, does not exist. */
    method Get(id: string, tenant: Option<string>) returns (r: Result<Job, StoreError>)
      ensures r.Ok? <==> id in rows && (tenant.Some? ==> rows[id].tenant == tenant)
      ensures r.Ok? ==> r.value == rows[id]
      ensures r.Err? ==> r.error == NotFound
    {
      if id !in rows || (tenant.Some? && rows[id].tenant != tenant) {
        return Err(NotFound);
      }
      return Ok(rows[id]);
    }

    method ClaimForRendering(id: string, staleSeconds: nat, now: Instant)
      returns (r: Result<Option<Job>, StoreError>)
      modifies this
      ensures id !in old(rows) ==> r == Err(NotFound) && rows == old(rows)
      ensures id in old(rows) && Claimable(old(rows)[id], now, staleSeconds) ==>
                var job := Claimed(old(rows)[id], now);
                r == Ok(Some(job)) && rows == old(rows)[id := job]
      ensures id in old(rows) && !Claimable(old(rows)[id], now, staleSeconds) ==>
                r == Ok(None) && rows == old(rows)
    {
      if id !in rows {
        return Err(NotFound);
      }
      var job := rows[id];
      if job.status == Accepted || (job.status == Rendering && StaleByText(job.updatedAt, now, staleSeconds)) {
        job := job.(status := Rendering, updatedAt := now, generation := job.generation + 1);
        rows := rows[id := job];
        return Ok(Some(job));
      }
      return Ok(None);
    }

    method MarkRendered(id: string, digest: string, generation: nat, now: Instant)
      returns (r: Result<Job, StoreError>)
      modifies this
      ensures id !in old(rows) ==> r == Err(NotFound) && rows == old(rows)
      ensures id in old(rows) && MayComplete(old(rows)[id], generation) ==>
                var job := Completed(old(rows)[id], digest, now);
                r == Ok(job) && rows == old(rows)[id := job]
      ensures id in old(rows) && !MayComplete(old(rows)[id], generation) ==>
                && r == Err(Refusal(old(rows)[id], Rendered, old(rows)[id].status == Rendering, generation))
                && rows == old(rows)
    {
      if id !in rows {
        return Err(NotFound);
      }
      var job := rows[id];
      if !MayComplete(job, generation) {
        return Err(Refusal(job, Rendered, job.status == Rendering, generation));
      }
      job := Completed(job, digest, now);
      rows := rows[id := job];
      return Ok(job);
    }

    method MarkFailed(id: string, failure: Failure, generation: nat, now: Instant)
      returns (r: Result<Job, StoreError>)
      modifies this
      ensures id !in old(rows) ==> r == Err(NotFound) && rows == old(rows)
      ensures id in old(rows) && MayFail(old(rows)[id], generation) ==>
                var job := FailedWith(old(rows)[id], failure, now);
                r == Ok(job) && rows == old(rows)[id := job]
      ensures id in old(rows) && !MayFail(old(rows)[id], generation) ==>
                && r == Err(Refusal(old(rows)[id], Failed, !old(rows)[id].Terminal(), generation))
                && rows == old(rows)
    {
      if id !in rows {
        return Err(NotFound);
      }
      var job := rows[id];
      if !MayFail(job, generation) {
        return Err(Refusal(job, Failed, job.status == Accepted || job.status == Rendering, generation));
      }
      job := FailedWith(job, failure, now);
      rows := rows[id := job];
      return Ok(job);
    }

    /** Fenced to the generation only: the render outcome and the custody outcome are different facts. */
    method RecordArchiveOutcome(id: string, custody: Custody, generation: nat, now: Instant)
      returns (r: Result<Job, StoreError>)
      modifies this
      ensures id !in old(rows) ==> r == Err(NotFound) && rows == old(rows)
      ensures id in old(rows) && old(rows)[id].generation == generation ==>
                var job := InCustody(old(rows)[id], custody, now);
                r == Ok(job) && rows == old(rows)[id := job]
      ensures id in old(rows) && old(rows)[id].generation != generation ==>
                r == Err(StaleCustody(generation, old(rows)[id].generation)) && rows == old(rows)
    {
      if id !in rows {
        return Err(NotFound);
      }
      var job := rows[id];
      if job.generation != generation {
        return Err(StaleCustody(generation, job.generation));
      }
      job := job.(custody := Some(custody), updatedAt := now);
      rows := rows[id := job];
      return Ok(job);
    }
  }

  // -- Safety of the fences, whoever calls ----------------------------------

  /** A write attempted by anybody, in any order, with any generation in hand. */
  datatype Write =
    | ClaimWrite(staleSeconds: nat)
    | CompleteWrite(digest: string, generation: nat)
    | FailWrite(failure: Failure, generation: nat)
    | ArchiveWrite(custody: Custody, generation: nat)

  predicate Lands(job: Job, w: Write, now: Instant) {
    match w
    case ClaimWrite(staleSeconds) => Claimable(job, now, staleSeconds)
    case CompleteWrite(_, g) => MayComplete(job, g)
    case FailWrite(_, g) => MayFail(job, g)
    case ArchiveWrite(_, g) => job.generation == g
  }

  function Written(job: Job, w: Write, now: Instant): Job {
    if !Lands(job, w, now) then job
    else match w
      case ClaimWrite(_) => Claimed(job, now)
      case CompleteWrite(digest, _) => Completed(job, digest, now)
      case FailWrite(failure, _) => FailedWith(job, failure, now)
      case ArchiveWrite(custody, _) => InCustody(job, custody, now)
  }

  function History(job: Job, ws: seq<(Write, Instant)>): Job
    decreases |ws|
  {
    if ws == [] then job else History(Written(job, ws[0].0, ws[0].1), ws[1..])
  }

  /** How many terminal writes land over a history. */
  function TerminalWrites(job: Job, ws: seq<(Write, Instant)>): nat
    decreases |ws|
  {
    if ws == [] then 0
    else
      (if Lands(job, ws[0].0, ws[0].1) && (ws[0].0.CompleteWrite? || ws[0].0.FailWrite?) then 1 else 0)
      + TerminalWrites(Written(job, ws[0].0, ws[0].1), ws[1..])
  }

  /** How many claims are granted over a history. */
  function Grants(job: Job, ws: seq<(Write, Instant)>): nat
    decreases |ws|
  {
    if ws == [] then 0
    else
      (if Lands(job, ws[0].0, ws[0].1) && ws[0].0.ClaimWrite? then 1 else 0)
      + Grants(Written(job, ws[0].0, ws[0].1), ws[1..])
  }

  /** What a row may become: generations never fall, identity never changes, terminal truth is kept. */
  predicate Evolves(before: Job, after: Job) {
    && before.packageHash == after.packageHash
    && before.tenant == after.tenant
    && before.generation <= after.generation
    && (before.Terminal() ==>
          && after.status == before.status
          && after.generation == before.generation
          && after.artifactSha256 == before.artifactSha256
          && after.failure == before.failure
          && after.completedAt == before.completedAt)
    && (after.status == Accepted ==> before.status == Accepted)
  }

  /**
   Over any history of writes by any callers: the row evolves, the generation counts the claims
   granted, so no generation is granted twice, and a job takes at most one terminal write.
   */
  lemma {:induction false} AnyHistoryIsFenced(job: Job, ws: seq<(Write, Instant)>)
    ensures Evolves(job, History(job, ws))
    ensures History(job, ws).generation == job.generation + Grants(job, ws)
    ensures TerminalWrites(job, ws) + (if job.Terminal() then 1 else 0)
            == (if History(job, ws).Terminal() then 1 else 0)
    decreases |ws|
  {
    if ws != [] {
      AnyHistoryIsFenced(Written(job, ws[0].0, ws[0].1), ws[1..]);
    }
  }

  /** Once a newer claim exists, nothing an older generation attempts changes any column. */
  lemma SupersededWritesAreInert(job: Job, ws: seq<(Write, Instant)>, w: Write, now: Instant)
    requires w.CompleteWrite? || w.FailWrite? || w.ArchiveWrite?
    requires w.generation < job.generation
    ensures Written(History(job, ws), w, now) == History(job, ws)
  {
    AnyHistoryIsFenced(job, ws);
  }
}
