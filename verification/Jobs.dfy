/** The `processing_jobs` table and the SQL statements of the job queue, one atomic step each.

    A statement is given row by row: which rows its WHERE clause selects (`Selects`) and what its
    SET clause writes (`Updated`).  `Apply` runs a statement over the whole table and refuses it
    when the result would break the partial unique index on the dedupe key. */
module Jobs {
  import opened Options

  /** Job ids are random UUIDs; here they are numbers. */
  type JobId = nat
  type Worker = string

  /** Timestamps count microseconds, the resolution of the database's timestamps. */
  type Time = int

  const SECOND: int := 1_000_000
  const LEASE_DURATION: int := 5 * 60 * SECOND
  const DEFAULT_MAX_ATTEMPTS: int := 3
  const KNOWN_JOB_TYPES: set<string> := {"llm_rewrite", "llm_routing", "rules_classify", "composite"}

  datatype Status = Queued | Leased | Succeeded | Failed | RetryScheduled | DeadLetter

  datatype Job = Job(
    sourceTask: string, jobType: string, status: Status, priority: int,
    dedupeKey: Option<string>, attempts: nat, maxAttempts: int,
    leasedAt: Option<Time>, leaseExpiry: Option<Time>, leasedBy: Option<Worker>,
    scheduledAt: Option<Time>, createdAt: Time, updatedAt: Time,
    errorCode: Option<string>, errorMessage: Option<string>)

  type Table = map<JobId, Job>

  datatype EnqueueParams = EnqueueParams(
    sourceTask: string, jobType: string, priority: int, dedupeKey: Option<string>, maxAttempts: int)

  /** The statements.  A lease also carries what the database decides: the rows other transactions
      hold locked (skipped) and the row it picks among equally ranked ones. */
  datatype Op =
    | Enqueue(newId: JobId, params: EnqueueParams)
    | Lease(leaser: Worker, jobTypes: seq<string>, locked: set<JobId>, pick: Option<JobId>)
    | Renew(id: JobId, worker: Worker)
    | Complete(id: JobId, worker: Worker)
    | Fail(id: JobId, worker: Worker, code: string, message: string)
    | Reclaim
    | Requeue
    | BuryUnknown(knownTypes: seq<string>)
    | Retry(id: JobId)

  datatype Step = Step(now: Time, op: Op)

  /** Delay before the next attempt after the n-th failure: 30 n² seconds. */
  function Backoff(n: nat): Time {
    n * n * 30_000_000
  }

  predicate HeldBy(row: Job, w: Worker) {
    row.status == Leased && row.leasedBy == Some(w)
  }

  /** The rows a lease may take. */
  predicate Leasable(row: Job, jobTypes: seq<string>, now: Time) {
    && row.status == Queued
    && (row.scheduledAt.None? || row.scheduledAt.value <= now)
    && row.jobType in jobTypes
  }

  /** Strictly earlier in the order "priority DESC, created_at ASC". */
  predicate Outranks(a: Job, b: Job) {
    a.priority > b.priority || (a.priority == b.priority && a.createdAt < b.createdAt)
  }

  predicate Candidate(t: Table, jobTypes: seq<string>, locked: set<JobId>, now: Time, j: JobId) {
    j in t && j !in locked && Leasable(t[j], jobTypes, now)
  }

  /** `pick` is what the lease's inner SELECT may return. */
  ghost predicate ValidPick(t: Table, jobTypes: seq<string>, locked: set<JobId>, now: Time, pick: Option<JobId>) {
    match pick
    case None => forall j :: !Candidate(t, jobTypes, locked, now, j)
    case Some(p) =>
      && Candidate(t, jobTypes, locked, now, p)
      && forall j :: Candidate(t, jobTypes, locked, now, j) ==> !Outranks(t[j], t[p])
  }

  /** The WHERE clause of the statement, on row `j`. */
  predicate Selects(row: Job, s: Step, j: JobId) {
    match s.op
    case Enqueue(_, _) => false
    case Lease(_, _, _, pick) => pick == Some(j)
    case Renew(id, w) => id == j && HeldBy(row, w)
    case Complete(id, w) => id == j && HeldBy(row, w)
    case Fail(id, w, _, _) => id == j && HeldBy(row, w)
    case Reclaim => row.status == Leased && row.leaseExpiry.Some? && row.leaseExpiry.value < s.now
    case Requeue => row.status == RetryScheduled && row.scheduledAt.Some? && row.scheduledAt.value <= s.now
    case BuryUnknown(known) => row.status == Queued && row.jobType !in known
    case Retry(id) => id == j && (row.status == Failed || row.status == DeadLetter)
  }

  /** The SET clause of the statement. */
  function Updated(row: Job, s: Step): Job {
    match s.op
    case Enqueue(_, _) => row
    case Lease(w, _, _, _) =>
      row.(status := Leased, leasedAt := Some(s.now), leaseExpiry := Some(s.now + LEASE_DURATION),
           leasedBy := Some(w), updatedAt := s.now)
    case Renew(_, _) => row.(leaseExpiry := Some(s.now + LEASE_DURATION), updatedAt := s.now)
    case Complete(_, _) => row.(status := Succeeded, leasedBy := None, updatedAt := s.now)
    case Fail(_, _, code, message) =>
      var dead := row.attempts + 1 >= row.maxAttempts;
      row.(status := if dead then DeadLetter else RetryScheduled,
           attempts := row.attempts + 1,
           leasedBy := None,
           scheduledAt := if dead then None else Some(s.now + Backoff(row.attempts + 1)),
           updatedAt := s.now, errorCode := Some(code), errorMessage := Some(message))
    case Reclaim =>
      row.(status := Queued, leasedAt := None, leaseExpiry := None, leasedBy := None, updatedAt := s.now)
    case Requeue => row.(status := Queued, updatedAt := s.now)
    case BuryUnknown(_) =>
      row.(status := DeadLetter, errorCode := Some("UNKNOWN_JOB_TYPE"),
           errorMessage := Some("job type is not recognised by any processor"), updatedAt := s.now)
    case Retry(_) => row.(status := Queued, scheduledAt := None, updatedAt := s.now)
  }

  function NewJob(p: EnqueueParams, now: Time): Job {
    Job(p.sourceTask, p.jobType, Queued, p.priority, p.dedupeKey, 0,
        if p.maxAttempts <= 0 then DEFAULT_MAX_ATTEMPTS else p.maxAttempts,
        None, None, None, None, now, now, None, None)
  }

  /** Neither succeeded nor dead-lettered: the rows the partial index covers. */
  predicate Active(row: Job) {
    row.status != Succeeded && row.status != DeadLetter
  }

  /** The index `uq_processing_jobs_dedupe`. */
  ghost predicate UniqueIndex(t: Table) {
    forall i, j {:trigger Active(t[i]), Active(t[j])} ::
      i in t && j in t && i != j && Active(t[i]) && Active(t[j]) && t[i].dedupeKey.Some?
      ==> t[i].dedupeKey != t[j].dedupeKey
  }

  /** The table a statement asks for, before the index is consulted. */
  ghost function Requested(t: Table, s: Step): Table {
    match s.op
    case Enqueue(id, p) =>
      if p.jobType in KNOWN_JOB_TYPES then t[id := NewJob(p, s.now)] else t
    case _ =>
      map j | j in t :: if Selects(t[j], s, j) then Updated(t[j], s) else t[j]
  }

  ghost predicate Refused(t: Table, s: Step) {
    !UniqueIndex(Requested(t, s))
  }

  /** One statement: a refused one changes nothing. */
  ghost function Apply(t: Table, s: Step): Table {
    if Refused(t, s) then t else Requested(t, s)
  }

  /** What the database and the UUID generator guarantee of a step. */
  ghost predicate Enabled(t: Table, s: Step) {
    match s.op
    case Enqueue(id, _) => id !in t
    case Lease(_, types, locked, pick) => ValidPick(t, types, locked, s.now, pick)
    case _ => true
  }
}
