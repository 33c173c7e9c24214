/** The queue itself: a class over the job table whose methods do what the Go methods and their SQL
    do.  The ghost field `run` records every statement, so that all that is proved about runs holds
    of every queue object. */
module JobQueue {
  import opened Options
  import opened Jobs
  import opened JobRuns
  import opened JobSafety
  import opened JobLeases

  datatype EnqueueResult = UnknownJobType | Deduplicated | Inserted(job: Job)
  datatype FailResult = FailResult(status: Status, attempts: nat, maxAttempts: int, scheduledAt: Option<Time>)
  datatype RetryResult = Retried | NoRows | KeyTaken

  // ---- What each kind of statement does to the whole table

  predicate TargetsOne(s: Step, j: JobId) {
    match s.op
    case Lease(_, _, _, pick) => pick == Some(j)
    case Renew(id, _) => id == j
    case Complete(id, _) => id == j
    case Fail(id, _, _, _) => id == j
    case Retry(id) => id == j
    case _ => false
  }

  lemma TargetedUpdate(t: Table, s: Step, j: JobId)
    requires TargetsOne(s, j)
    ensures Requested(t, s) == if j in t && Selects(t[j], s, j) then t[j := Updated(t[j], s)] else t
  {
  }

  lemma LeaseTable(t: Table, s: Step)
    requires UniqueIndex(t) && s.op.Lease? && Enabled(t, s)
    ensures match s.op.pick
            case None => Apply(t, s) == t
            case Some(j) => j in t && Apply(t, s) == t[j := Updated(t[j], s)]
  {
    OnlyEnqueueAndRetryCollide(t, s);
    if s.op.pick.Some? {
      TargetedUpdate(t, s, s.op.pick.value);
    } else {
      assert Requested(t, s) == t;
    }
  }

  lemma LeaseEffect(run: Run, s: Step)
    requires Legal(run) && NotBefore(s.now, run) && s.op.Lease? && Enabled(After(run), s)
    ensures Legal(Then(run, s))
    ensures match s.op.pick
            case None => After(Then(run, s)) == After(run)
            case Some(j) => j in After(run) && After(Then(run, s)) == After(run)[j := Updated(After(run)[j], s)]
  {
    Reachable(run, s.now);
    LeaseTable(After(run), s);
  }

  lemma WorkerEffect(run: Run, s: Step, j: JobId, w: Worker)
    requires Legal(run) && NotBefore(s.now, run) && WorkerStep(s, j, w)
    ensures Legal(Then(run, s))
    ensures var t := After(run);
            && (j in t && HeldBy(t[j], w) <==> Holder(History(run, j)) == Some(w))
            && After(Then(run, s)) == if j in t && HeldBy(t[j], w) then t[j := Updated(t[j], s)] else t
  {
    var t := After(run);
    OnlyTheHolderActs(run, s, j, w);
    Reachable(run, s.now);
    OnlyEnqueueAndRetryCollide(t, s);
    TargetedUpdate(t, s, j);
  }

  lemma RetryEffect(run: Run, s: Step)
    requires Legal(run) && NotBefore(s.now, run) && s.op.Retry?
    ensures Legal(Then(run, s))
    ensures var t, j := After(run), s.op.id;
            After(Then(run, s)) ==
              if j !in t || t[j].status != DeadLetter || Refused(t, s) then t else t[j := Updated(t[j], s)]
    ensures s.op.id in After(run) ==> After(run)[s.op.id].status != Failed
    ensures UniqueIndex(After(run))
  {
    Reachable(run, s.now);
    ReachableLease(run, s.op.id);
    TargetedUpdate(After(run), s, s.op.id);
  }

  class Queue {
    var rows: Table
    ghost var run: Run

    ghost predicate Valid()
      reads this
    {
      Legal(run) && rows == After(run)
    }

    constructor ()
      ensures Valid() && run == Start && rows == map[]
    {
      rows := map[];
      run := Start;
    }

    /** Inserts a new job unless an active job holds its dedupe key. */
    method Enqueue(id: JobId, p: EnqueueParams, now: Time) returns (r: EnqueueResult)
      requires Valid() && NotBefore(now, run) && id !in rows
      modifies this
      ensures Valid() && run == Then(old(run), Step(now, Op.Enqueue(id, p)))
      ensures r.UnknownJobType? <==>
                p.jobType !in ["llm_rewrite", "llm_routing", "rules_classify", "composite"]
      ensures r.Deduplicated? <==> !r.UnknownJobType? && p.dedupeKey.Some? && KeyInUse(old(rows), {}, p.dedupeKey)
      ensures r.Inserted? ==> rows == old(rows)[id := r.job]
      ensures r.Inserted? ==>
                r.job == Job(p.sourceTask, p.jobType, Queued, p.priority, p.dedupeKey, 0,
                             if p.maxAttempts <= 0 then 3 else p.maxAttempts,
                             None, None, None, None, now, now, None, None)
      ensures !r.Inserted? ==> rows == old(rows)
    {
      ghost var s := Step(now, Op.Enqueue(id, p));
      Reachable(run, now);
      EnqueueCollidesIff(rows, s);
      KeyInUseIsActive(rows, {}, p.dedupeKey);
      run := Then(run, s);
      if p.jobType !in KNOWN_JOB_TYPES {
        return UnknownJobType;
      }
      if p.dedupeKey.Some? {
        var taken := HoldsKey(rows, {}, p.dedupeKey);
        if taken {
          return Deduplicated;
        }
      }
      var job := NewJob(p, now);
      rows := rows[id := job];
      return Inserted(job);
    }

    /** Grants the best job that is queued, due, of a wanted type and not locked, if there is one. */
    method Lease(w: Worker, jobTypes: seq<string>, locked: set<JobId>, now: Time) returns (pick: Option<JobId>)
      requires Valid() && NotBefore(now, run)
      modifies this
      ensures Picks(old(rows), jobTypes, locked, now, pick)
      ensures Valid() && run == Then(old(run), Step(now, Op.Lease(w, jobTypes, locked, pick)))
      ensures match pick
              case None => rows == old(rows)
              case Some(j) =>
                rows == old(rows)[j := old(rows)[j].(
                  status := Leased, leasedAt := Some(now), leaseExpiry := Some(now + 300_000_000), leasedBy := Some(w),
                  updatedAt := now)]
    {
      pick := BestCandidate(rows, jobTypes, locked, now);
      var s := Step(now, Op.Lease(w, jobTypes, locked, pick));
      LeaseEffect(run, s);
      run := Then(run, s);
      if pick.Some? {
        rows := rows[pick.value := Updated(rows[pick.value], s)];
      }
    }

    /** Runs one worker statement: it changes the row only if `w` holds the job. */
    method OwnedUpdate(s: Step, j: JobId, w: Worker) returns (changed: bool)
      requires Valid() && NotBefore(s.now, run) && WorkerStep(s, j, w)
      modifies this
      ensures Valid() && run == Then(old(run), s)
      ensures changed <==> Holder(History(old(run), j)) == Some(w)
      ensures changed ==> j in old(rows) && rows == old(rows)[j := Updated(old(rows)[j], s)]
      ensures !changed ==> rows == old(rows)
    {
      WorkerEffect(run, s, j, w);
      run := Then(run, s);
      changed := j in rows && HeldBy(rows[j], w);
      if changed {
        rows := rows[j := Updated(rows[j], s)];
      }
    }

    method Complete(j: JobId, w: Worker, now: Time) returns (changed: bool)
      requires Valid() && NotBefore(now, run)
      modifies this
      ensures Valid() && run == Then(old(run), Step(now, Op.Complete(j, w)))
      ensures changed <==> Holder(History(old(run), j)) == Some(w)
      ensures changed ==>
                && j in old(rows)
                && rows == old(rows)[j := old(rows)[j].(status := Succeeded, leasedBy := None, updatedAt := now)]
      ensures !changed ==> rows == old(rows)
    {
      changed := OwnedUpdate(Step(now, Op.Complete(j, w)), j, w);
    }

    /** Counts a failed attempt, and schedules the next one or gives the job up. */
    method Fail(j: JobId, w: Worker, code: string, message: string, now: Time) returns (r: Option<FailResult>)
      requires Valid() && NotBefore(now, run)
      modifies this
      ensures Valid() && run == Then(old(run), Step(now, Op.Fail(j, w, code, message)))
      ensures r.Some? <==> Holder(History(old(run), j)) == Some(w)
      ensures r.None? ==> rows == old(rows)
      ensures r.Some? ==>
                && j in old(rows)
                && r.value.attempts == old(rows)[j].attempts + 1
                && r.value.maxAttempts == old(rows)[j].maxAttempts
                && r.value.status == (if r.value.attempts >= r.value.maxAttempts then DeadLetter else RetryScheduled)
                && r.value.scheduledAt ==
                  (if r.value.status == DeadLetter then None
                   else Some(now + 30_000_000 * (r.value.attempts * r.value.attempts)))
                && rows == old(rows)[j := old(rows)[j].(
                     status := r.value.status, attempts := r.value.attempts, scheduledAt := r.value.scheduledAt,
                     leasedBy := None, updatedAt := now, errorCode := Some(code), errorMessage := Some(message))]
    {
      var changed := OwnedUpdate(Step(now, Op.Fail(j, w, code, message)), j, w);
      if changed {
        var row := rows[j];
        r := Some(FailResult(row.status, row.attempts, row.maxAttempts, row.scheduledAt));
      } else {
        r := None;
      }
    }

    /** Extends the lease of a job that `w` still holds, and says whether it does. */
    method RenewLease(j: JobId, w: Worker, now: Time) returns (renewed: bool)
      requires Valid() && NotBefore(now, run)
      modifies this
      ensures Valid() && run == Then(old(run), Step(now, Op.Renew(j, w)))
      ensures renewed <==> Holder(History(old(run), j)) == Some(w)
      ensures renewed ==>
                && j in old(rows)
                && rows == old(rows)[j := old(rows)[j].(leaseExpiry := Some(now + 300_000_000), updatedAt := now)]
      ensures !renewed ==> rows == old(rows)
    {
      renewed := OwnedUpdate(Step(now, Op.Renew(j, w)), j, w);
    }

    /** Runs one maintenance statement over all rows. */
    method BulkUpdate(s: Step) returns (count: nat)
      requires Valid() && NotBefore(s.now, run)
      requires s.op.Reclaim? || s.op.Requeue? || s.op.BuryUnknown?
      modifies this
      ensures Valid() && run == Then(old(run), s)
      ensures rows == Requested(old(rows), s)
      ensures count == |set j | j in old(rows) && Selects(old(rows)[j], s, j)|
    {
      Reachable(run, s.now);
      OnlyEnqueueAndRetryCollide(rows, s);
      ghost var before := rows;
      run := Then(run, s);
      rows, count := UpdateAll(rows, s);
      assert rows == Requested(before, s);
    }

    /** Takes back every lease that expired before `now`. */
    method ReclaimExpiredLeases(now: Time) returns (count: nat)
      requires Valid() && NotBefore(now, run)
      modifies this
      ensures Valid() && run == Then(old(run), Step(now, Reclaim))
      ensures NoLeaseExpiredBefore(rows, now)
      ensures rows == map j | j in old(rows) ::
                if Expired(old(rows)[j], now)
                then old(rows)[j].(
                  status := Queued, leasedAt := None, leaseExpiry := None, leasedBy := None, updatedAt := now)
                else old(rows)[j]
      ensures count == |set j | j in old(rows) && Expired(old(rows)[j], now)|
    {
      assert (set j | j in rows && Selects(rows[j], Step(now, Reclaim), j))
          == set j | j in rows && Expired(rows[j], now);
      count := BulkUpdate(Step(now, Reclaim));
      ReclaimClears(run, now);
    }

    /** Queues every scheduled retry that is due at `now`. */
    method RequeueScheduledRetries(now: Time) returns (count: nat)
      requires Valid() && NotBefore(now, run)
      modifies this
      ensures Valid() && run == Then(old(run), Step(now, Requeue))
      ensures NoRetryDueBy(rows, now)
      ensures rows == map j | j in old(rows) ::
                if RetryDue(old(rows)[j], now) then old(rows)[j].(status := Queued, updatedAt := now) else old(rows)[j]
      ensures count == |set j | j in old(rows) && RetryDue(old(rows)[j], now)|
    {
      assert (set j | j in rows && Selects(rows[j], Step(now, Requeue), j))
          == set j | j in rows && RetryDue(rows[j], now);
      count := BulkUpdate(Step(now, Requeue));
      RequeueClears(run, now);
    }

    /** Dead-letters every queued job of an unknown type. */
    method FailUnknownJobTypes(knownTypes: seq<string>, now: Time) returns (count: nat)
      requires Valid() && NotBefore(now, run)
      modifies this
      ensures Valid() && run == Then(old(run), Step(now, BuryUnknown(knownTypes)))
      ensures forall j :: j in rows && rows[j].status == Queued ==> rows[j].jobType in knownTypes
      ensures rows == map j | j in old(rows) ::
                if Unknown(old(rows)[j], knownTypes)
                then old(rows)[j].(
                  status := DeadLetter, errorCode := Some("UNKNOWN_JOB_TYPE"),
                  errorMessage := Some("job type is not recognised by any processor"), updatedAt := now)
                else old(rows)[j]
      ensures count == |set j | j in old(rows) && Unknown(old(rows)[j], knownTypes)|
    {
      assert (set j | j in rows && Selects(rows[j], Step(now, BuryUnknown(knownTypes)), j))
          == set j | j in rows && Unknown(rows[j], knownTypes);
      count := BulkUpdate(Step(now, BuryUnknown(knownTypes)));
    }

    /** Queues a dead-lettered job again, by hand. */
    method Retry(j: JobId, now: Time) returns (r: RetryResult)
      requires Valid() && NotBefore(now, run)
      modifies this
      ensures Valid() && run == Then(old(run), Step(now, Op.Retry(j)))
      ensures r.NoRows? <==> j !in old(rows) || old(rows)[j].status != DeadLetter
      ensures r.KeyTaken? <==>
                && !r.NoRows? && old(rows)[j].dedupeKey.Some?
                && KeyInUse(old(rows), {j}, old(rows)[j].dedupeKey)
      ensures r.Retried? ==>
                && j in old(rows)
                && rows == old(rows)[j := old(rows)[j].(status := Queued, scheduledAt := None, updatedAt := now)]
      ensures !r.Retried? ==> rows == old(rows)
    {
      var s := Step(now, Op.Retry(j));
      RetryEffect(run, s);
      RetryCollidesIff(rows, s);
      if j in rows { KeyInUseIsActive(rows, {j}, rows[j].dedupeKey); }
      run := Then(run, s);
      if j !in rows || (rows[j].status != Failed && rows[j].status != DeadLetter) {
        return NoRows;
      }
      if rows[j].dedupeKey.Some? {
        var taken := HoldsKey(rows, {j}, rows[j].dedupeKey);
        if taken {
          return KeyTaken;
        }
      }
      rows := rows[j := Updated(rows[j], s)];
      return Retried;
    }
  }

  /** One scan of the control loop with nobody else at work. */
  method Scan(q: Queue, knownTypes: seq<string>, t0: Time, t1: Time, t2: Time)
    requires q.Valid() && NotBefore(t0, q.run) && t0 <= t1 <= t2
    modifies q
    ensures q.Valid() && q.run ==
            Then(Then(Then(old(q.run), Step(t0, Reclaim)), Step(t1, Requeue)), Step(t2, BuryUnknown(knownTypes)))
    ensures NoLeaseExpiredBefore(q.rows, t0) && NoRetryDueBy(q.rows, t0)
    ensures forall j :: j in q.rows && q.rows[j].status == Queued ==> q.rows[j].jobType in knownTypes
  {
    var _ := q.ReclaimExpiredLeases(t0);
    ghost var reclaim := q.run;
    var _ := q.RequeueScheduledRetries(t1);
    ghost var requeue := q.run;
    var _ := q.FailUnknownJobTypes(knownTypes, t2);
    ScanLeavesNothingOverdue(q.run, reclaim, requeue, t0);
  }

  /** A row outside `except` that is neither succeeded nor dead-lettered has this key. */
  ghost predicate KeyInUse(rows: Table, except: set<JobId>, key: Option<string>) {
    exists i :: i in rows && i !in except && rows[i].status != Succeeded && rows[i].status != DeadLetter
      && rows[i].dedupeKey == key
  }

  lemma KeyInUseIsActive(rows: Table, except: set<JobId>, key: Option<string>)
    ensures KeyInUse(rows, except, key) <==>
            exists i :: i in rows && i !in except && Active(rows[i]) && rows[i].dedupeKey == key
  {
    if i :| i in rows && i !in except && Active(rows[i]) && rows[i].dedupeKey == key {
      assert rows[i].status != Succeeded;
    }
    if i :| i in rows && i !in except && rows[i].status != Succeeded && rows[i].status != DeadLetter
            && rows[i].dedupeKey == key {
      assert Active(rows[i]);
    }
  }

  /** The job can be leased: queued, due, of a wanted type and not locked. */
  ghost predicate Ready(rows: Table, jobTypes: seq<string>, locked: set<JobId>, now: Time, j: JobId) {
    && j in rows && j !in locked && rows[j].status == Queued && rows[j].jobType in jobTypes
    && (rows[j].scheduledAt.Some? ==> rows[j].scheduledAt.value <= now)
  }

  /** A ready job such that no ready one has a higher priority, or the same and an earlier creation;
      none only if no job is ready. */
  ghost predicate Picks(rows: Table, jobTypes: seq<string>, locked: set<JobId>, now: Time, pick: Option<JobId>) {
    && (pick.Some? ==> Ready(rows, jobTypes, locked, now, pick.value))
    && forall j :: Ready(rows, jobTypes, locked, now, j) ==>
         && pick.Some?
         && rows[j].priority <= rows[pick.value].priority
         && (rows[j].priority == rows[pick.value].priority ==> rows[pick.value].createdAt <= rows[j].createdAt)
  }

  lemma PicksIsValid(rows: Table, jobTypes: seq<string>, locked: set<JobId>, now: Time, pick: Option<JobId>)
    ensures ValidPick(rows, jobTypes, locked, now, pick) <==> Picks(rows, jobTypes, locked, now, pick)
  {
    forall j ensures Candidate(rows, jobTypes, locked, now, j) <==> Ready(rows, jobTypes, locked, now, j) {}
    if pick.Some? && Ready(rows, jobTypes, locked, now, pick.value) {
      assert Candidate(rows, jobTypes, locked, now, pick.value);
    }
  }

  predicate Expired(row: Job, now: Time) {
    row.status == Leased && row.leaseExpiry.Some? && row.leaseExpiry.value < now
  }

  predicate RetryDue(row: Job, now: Time) {
    row.status == RetryScheduled && row.scheduledAt.Some? && row.scheduledAt.value <= now
  }

  predicate Unknown(row: Job, knownTypes: seq<string>) {
    row.status == Queued && row.jobType !in knownTypes
  }

  /** Does an active row outside `except` hold this key? */
  method HoldsKey(rows: Table, except: set<JobId>, key: Option<string>) returns (taken: bool)
    ensures taken <==> exists i :: i in rows && i !in except && Active(rows[i]) && rows[i].dedupeKey == key
  {
    var todo := rows.Keys - except;
    while todo != {}
      invariant todo <= rows.Keys - except
      invariant forall i :: i in rows && i !in except && i !in todo && Active(rows[i]) ==> rows[i].dedupeKey != key
    {
      var i :| i in todo;
      if Active(rows[i]) && rows[i].dedupeKey == key {
        return true;
      }
      todo := todo - {i};
    }
    return false;
  }

  /** The lease's inner SELECT. */
  method BestCandidate(rows: Table, jobTypes: seq<string>, locked: set<JobId>, now: Time) returns (pick: Option<JobId>)
    ensures ValidPick(rows, jobTypes, locked, now, pick) && Picks(rows, jobTypes, locked, now, pick)
  {
    pick := None;
    var todo := rows.Keys;
    while todo != {}
      invariant todo <= rows.Keys
      invariant pick.None? ==> forall j :: j !in todo ==> !Candidate(rows, jobTypes, locked, now, j)
      invariant pick.Some? ==>
                  && Candidate(rows, jobTypes, locked, now, pick.value)
                  && forall j :: j !in todo && Candidate(rows, jobTypes, locked, now, j) ==>
                    !Outranks(rows[j], rows[pick.value])
    {
      var j :| j in todo;
      if Candidate(rows, jobTypes, locked, now, j) && (pick.None? || Outranks(rows[j], rows[pick.value])) {
        pick := Some(j);
      }
      todo := todo - {j};
    }
    PicksIsValid(rows, jobTypes, locked, now, pick);
  }

  /** An UPDATE over the whole table, row by row. */
  method UpdateAll(rows: Table, s: Step) returns (rows': Table, count: nat)
    requires !s.op.Enqueue?
    ensures rows' == Requested(rows, s)
    ensures count == |set j | j in rows && Selects(rows[j], s, j)|
  {
    rows', count := rows, 0;
    var todo := rows.Keys;
    ghost var hit: set<JobId> := {};
    while todo != {}
      invariant todo <= rows.Keys == rows'.Keys
      invariant forall j :: j in todo ==> rows'[j] == rows[j]
      invariant forall j :: j in rows && j !in todo ==>
                rows'[j] == if Selects(rows[j], s, j) then Updated(rows[j], s) else rows[j]
      invariant forall j :: j in hit <==> j in rows && j !in todo && Selects(rows[j], s, j)
      invariant count == |hit|
    {
      var j :| j in todo;
      if Selects(rows[j], s, j) {
        rows' := rows'[j := Updated(rows[j], s)];
        count := count + 1;
        hit := hit + {j};
      }
      todo := todo - {j};
    }
    assert hit == set j | j in rows && Selects(rows[j], s, j);
  }
}
