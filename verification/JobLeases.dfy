/** How long leases live: what a reclaim takes, when a heartbeat keeps a lease, and what a scan of
    the control loop leaves behind. */
module JobLeases {
  import opened Options
  import opened Jobs
  import opened JobRuns
  import opened JobSafety

  // ---- Stages of a run

  lemma {:induction false} ExtendsTransitive(c: Run, b: Run, a: Run)
    requires Extends(c, b) && Extends(b, a)
    ensures Extends(c, a)
  {
    if c != b { ExtendsTransitive(c.before, b, a); }
  }

  ghost function Length(run: Run): nat {
    if run.Start? then 0 else Length(run.before) + 1
  }

  lemma {:induction false} LaterIsLonger(late: Run, early: Run)
    requires Extends(late, early)
    ensures late == early || Length(late) > Length(early)
  {
    if late != early { LaterIsLonger(late.before, early); }
  }

  lemma {:induction false} StagesComparable(run: Run, a: Run, b: Run)
    requires Extends(run, a) && Extends(run, b)
    ensures Extends(a, b) || Extends(b, a)
  {
    if run != a && run != b { StagesComparable(run.before, a, b); }
  }

  // ---- Reclaiming

  /** A reclaim takes a job exactly when somebody holds it and has been silent, neither leasing nor
      renewing it, for longer than the lease duration. */
  lemma ReclaimTakesSilentLeases(run: Run, s: Step, j: JobId)
    requires Legal(run) && NotBefore(s.now, run) && s.op.Reclaim?
    ensures Affects(After(run), s, j) <==>
              && Holder(History(run, j)).Some?
              && LastTouch(History(run, j)).Some?
              && LastTouch(History(run, j)).value + LEASE_DURATION < s.now
  {
    Reachable(run, s.now);
    OnlyEnqueueAndRetryCollide(After(run), s);
    ReachableLease(run, j);
  }

  // ---- Heartbeats

  /** The stage ends with a grant or a renewal of `j`. */
  ghost predicate Touches(stage: Run, j: JobId) {
    EndsWith(stage, j, Granted) || EndsWith(stage, j, Renewed)
  }

  /** The stage ends with a sign of life of the holder: a renewal, completion or failure. */
  ghost predicate ShowsLife(stage: Run, j: JobId) {
    EndsWith(stage, j, Renewed) || EndsWith(stage, j, Completed)
    || EndsWith(stage, j, FailedRetry) || EndsWith(stage, j, FailedDead)
  }

  /** `mid` lies strictly after `early` and at or before `run`. */
  ghost predicate Between(run: Run, mid: Run, early: Run) {
    Extends(run, mid) && Extends(mid, early) && mid != early
  }

  /** After every grant or renewal the holder shows life within the lease duration, or the run ends
      before that time is over. */
  ghost predicate KeptAlive(run: Run, j: JobId) {
    forall early :: Extends(run, early) && Touches(early, j) ==>
      NotBefore(early.last.now + LEASE_DURATION, run) || HeardInTime(run, early, j)
  }

  /** The holder shows life after `early`, within the lease duration. */
  ghost predicate HeardInTime(run: Run, early: Run, j: JobId)
    requires early.Then?
  {
    exists mid :: Between(run, mid, early) && ShowsLife(mid, j) && mid.last.now <= early.last.now + LEASE_DURATION
  }

  lemma NothingBetween(run: Run, mid: Run)
    ensures !Between(run, mid, run)
  {
    if Extends(run, mid) && Extends(mid, run) {
      LaterIsLonger(run, mid);
      LaterIsLonger(mid, run);
    }
  }

  /** Nothing of the holder is heard after `early`. */
  ghost predicate Quiet(run: Run, early: Run, j: JobId) {
    forall mid :: Between(run, mid, early) ==> !ShowsLife(mid, j)
  }

  lemma QuietLonger(run: Run, early: Run, j: JobId)
    requires run.Then? && Quiet(run.before, early, j) && !ShowsLife(run, j)
    ensures Quiet(run, early, j)
  {
    forall mid | Between(run, mid, early) ensures !ShowsLife(mid, j) {
      if mid != run { assert Between(run.before, mid, early); }
    }
  }

  lemma QuietAtOnce(run: Run, j: JobId)
    ensures Quiet(run, run, j)
  {
    forall mid ensures !Between(run, mid, run) { NothingBetween(run, mid); }
  }

  /** A step that leaves a job held without touching it shows no life either. */
  lemma UntouchedStep(run: Run, j: JobId)
    requires run.Then? && !Touches(run, j) && Holder(History(run, j)).Some?
    ensures Holder(History(run.before, j)).Some? && !ShowsLife(run, j)
    ensures LastTouch(History(run, j)) == LastTouch(History(run.before, j))
  {
    if Latest(run, j).Some? { SnocReadings(History(run.before, j), Latest(run, j).value); }
  }

  lemma EventTime(t: Table, s: Step, j: JobId)
    requires EventOf(t, s, j).Some?
    ensures EventOf(t, s, j).value.now == s.now
  {
  }

  lemma TouchTime(run: Run, j: JobId)
    requires Touches(run, j)
    ensures LastTouch(History(run, j)) == Some(run.last.now)
  {
    EventTime(After(run.before), run.last, j);
    SnocReadings(History(run.before, j), Latest(run, j).value);
  }

  /** The stage at which a held lease was last touched; nothing of its holder is heard after it. */
  lemma {:induction false} TouchStage(run: Run, j: JobId) returns (early: Run)
    requires Legal(run) && Holder(History(run, j)).Some?
    ensures Extends(run, early) && Touches(early, j)
    ensures LastTouch(History(run, j)) == Some(early.last.now)
    ensures Quiet(run, early, j)
  {
    if Touches(run, j) {
      early := run;
      TouchTime(run, j);
      QuietAtOnce(run, j);
    } else {
      UntouchedStep(run, j);
      early := TouchStage(run.before, j);
      QuietLonger(run, early, j);
    }
  }

  /** A job whose holder keeps showing life in time is never reclaimed. */
  lemma HeartbeatProtects(run: Run, j: JobId, stage: Run)
    requires Legal(run) && KeptAlive(run, j) && Extends(run, stage)
    ensures !EndsWith(stage, j, Reclaimed)
  {
    if EndsWith(stage, j, Reclaimed) {
      Earlier(run, stage);
      var r := stage.before;
      ReclaimTakesSilentLeases(r, stage.last, j);
      var early := TouchStage(r, j);
      ExtendsTransitive(stage, r, early);
      ExtendsTransitive(run, stage, early);
      SilenceIsShort(run, j, stage, early);
    }
  }

  /** When a kept-alive job is next touched by somebody other than its holder, the holder's latest
      sign of life is no older than the lease duration. */
  lemma SilenceIsShort(run: Run, j: JobId, stage: Run, early: Run)
    requires Legal(run) && KeptAlive(run, j) && Extends(run, stage) && stage.Then? && !ShowsLife(stage, j)
    requires Extends(stage.before, early) && Extends(run, early) && Touches(early, j)
    requires Quiet(stage.before, early, j)
    ensures stage.last.now <= early.last.now + LEASE_DURATION
  {
    Earlier(run, stage);
    if !NotBefore(early.last.now + LEASE_DURATION, run) {
      var mid := NextLife(run, j, early);
      AfterOrBetween(run, stage, mid, early);
      Earlier(run, mid);
      Earlier(mid, stage);
    }
  }

  lemma NextLife(run: Run, j: JobId, early: Run) returns (mid: Run)
    requires KeptAlive(run, j) && Extends(run, early) && Touches(early, j)
    requires !NotBefore(early.last.now + LEASE_DURATION, run)
    ensures Between(run, mid, early) && ShowsLife(mid, j) && mid.Then?
    ensures mid.last.now <= early.last.now + LEASE_DURATION
  {
    mid :| Between(run, mid, early) && ShowsLife(mid, j) && mid.last.now <= early.last.now + LEASE_DURATION;
  }

  lemma AfterOrBetween(run: Run, stage: Run, mid: Run, early: Run)
    requires Extends(run, stage) && stage.Then? && Between(run, mid, early)
    ensures Extends(mid, stage) || Between(stage.before, mid, early)
  {
    StagesComparable(run, mid, stage);
  }

  /** A job held by `w` is still held by `w` or has since been reclaimed, or completed or failed by
      `w` itself. */
  lemma {:induction false} HolderLasts(run: Run, early: Run, j: JobId, w: Worker)
    requires Legal(run) && Extends(run, early) && Holder(History(early, j)) == Some(w)
    ensures Holder(History(run, j)) == Some(w)
            || exists mid :: Between(run, mid, early) && Ends(mid, j, w)
    decreases run
  {
    if run != early {
      HolderLasts(run.before, early, j, w);
      if mid :| Between(run.before, mid, early) && Ends(mid, j, w) {
        assert Between(run, mid, early);
      } else {
        HeldStep(run, j, w);
        if Ends(run, j, w) { BetweenEnd(run, early); }
      }
    }
  }

  lemma BetweenEnd(run: Run, early: Run)
    requires Extends(run, early) && run != early
    ensures Between(run, run, early)
  {
  }

  /** The stage grants `j` to `w`. */
  ghost predicate GrantedTo(stage: Run, j: JobId, w: Worker) {
    EndsWith(stage, j, Granted) && Latest(stage, j).value.actor == Some(w)
  }

  lemma GrantIsHeld(stage: Run, j: JobId, w: Worker)
    requires GrantedTo(stage, j, w)
    ensures Holder(History(stage, j)) == Some(w) && LastTouch(History(stage, j)) == Some(stage.last.now)
  {
    SnocReadings(History(stage.before, j), Latest(stage, j).value);
  }

  /** Once granted to `w`, a job is still held by `w` or has since been reclaimed, or completed or
      failed by `w` itself. */
  lemma GrantLasts(run: Run, early: Run, j: JobId, w: Worker)
    requires Legal(run) && Extends(run, early) && GrantedTo(early, j, w)
    ensures Holder(History(run, j)) == Some(w)
            || exists mid :: Between(run, mid, early) && Ends(mid, j, w)
  {
    GrantIsHeld(early, j, w);
    HolderLasts(run, early, j, w);
  }

  /** The stage ends with the end of `w`'s lease on `j`: taken by a reclaim, or given up by `w`. */
  ghost predicate Ends(stage: Run, j: JobId, w: Worker) {
    Latest(stage, j).Some? && EndsLease(Latest(stage, j).value.kind)
    && (EndsWith(stage, j, Reclaimed) || Latest(stage, j).value.actor == Some(w))
  }

  lemma HeldStep(run: Run, j: JobId, w: Worker)
    requires Legal(run) && run.Then? && Holder(History(run.before, j)) == Some(w)
    ensures Holder(History(run, j)) == Some(w) || Ends(run, j, w)
  {
    ReachableLease(run.before, j);
    if Latest(run, j).Some? {
      HeldRowStep(After(run.before), run.last, j, w);
      SnocReadings(History(run.before, j), Latest(run, j).value);
    }
  }

  /** What can happen to a held job. */
  lemma HeldRowStep(t: Table, s: Step, j: JobId, w: Worker)
    requires Enabled(t, s) && j in t && HeldBy(t[j], w) && EventOf(t, s, j).Some?
    ensures var e := EventOf(t, s, j).value;
            e.kind == Renewed || e.kind == Reclaimed || (EndsLease(e.kind) && e.actor == Some(w))
  {
  }

  /** The stage ends with `w` completing or failing the job. */
  ghost predicate GivesUp(stage: Run, j: JobId, w: Worker) {
    && (EndsWith(stage, j, Completed) || EndsWith(stage, j, FailedRetry) || EndsWith(stage, j, FailedDead))
    && Latest(stage, j).value.actor == Some(w)
  }

  /** A worker that got a job, has not given it up, and keeps showing life in time is still its
      holder: its next renewal, completion or failure takes effect. */
  lemma TimelyWorkerIsHeard(run: Run, early: Run, j: JobId, w: Worker, s: Step)
    requires Legal(run) && Extends(run, early) && KeptAlive(run, j)
    requires GrantedTo(early, j, w)
    requires forall mid :: Between(run, mid, early) ==> !GivesUp(mid, j, w)
    requires WorkerStep(s, j, w) && NotBefore(s.now, run)
    ensures Affects(After(run), s, j)
  {
    HeldUntilGivenUp(run, early, j, w);
    OnlyTheHolderActs(run, s, j, w);
  }

  lemma HeldUntilGivenUp(run: Run, early: Run, j: JobId, w: Worker)
    requires Legal(run) && Extends(run, early) && KeptAlive(run, j)
    requires GrantedTo(early, j, w)
    ensures Holder(History(run, j)) == Some(w) || exists mid :: Between(run, mid, early) && GivesUp(mid, j, w)
  {
    GrantLasts(run, early, j, w);
    if mid :| Between(run, mid, early) && Ends(mid, j, w) {
      EndedByWorker(run, mid, j, w);
    }
  }

  lemma EndedByWorker(run: Run, mid: Run, j: JobId, w: Worker)
    requires Legal(run) && KeptAlive(run, j) && Extends(run, mid) && Ends(mid, j, w)
    ensures GivesUp(mid, j, w)
  {
    HeartbeatProtects(run, j, mid);
  }

  /** Between two grants of a job that is kept alive, the first worker itself completed or failed
      it: no second worker gets the job while the first still works on it. */
  lemma NoSecondWorkerMeanwhile(run: Run, late: Run, early: Run, j: JobId, w: Worker)
    requires Legal(run) && KeptAlive(run, j) && Extends(run, late) && Between(late, late, early)
    requires GrantedTo(early, j, w) && EndsWith(late, j, Granted)
    ensures exists mid :: Between(late, mid, early) && GivesUp(mid, j, w)
  {
    Earlier(run, late);
    var mid := GrantEndsBefore(late, early, j, w);
    ExtendsTransitive(run, late, mid);
    EndedByWorker(run, mid, j, w);
  }

  lemma GrantEndsBefore(late: Run, early: Run, j: JobId, w: Worker) returns (mid: Run)
    requires Legal(late) && EndsWith(late, j, Granted) && Between(late, late, early)
    requires GrantedTo(early, j, w)
    ensures Between(late, mid, early) && Ends(mid, j, w)
  {
    Earlier(late, late.before);
    GrantLasts(late.before, early, j, w);
    assert Holder(History(late.before, j)) == None by {
      ReachableLease(late.before, j);
      GrantedWasQueued(After(late.before), late.last, j);
    }
    mid :| Between(late.before, mid, early) && Ends(mid, j, w);
  }

  lemma GrantedWasQueued(t: Table, s: Step, j: JobId)
    requires Enabled(t, s) && EventOf(t, s, j).Some? && EventOf(t, s, j).value.kind == Granted
    ensures j in t && t[j].status == Queued
  {
  }

  // ---- The control loop's scan

  ghost predicate NoLeaseExpiredBefore(t: Table, from: Time) {
    forall j :: j in t ==> LeaseClear(t[j], from)
  }

  ghost predicate NoRetryDueBy(t: Table, from: Time) {
    forall j :: j in t ==> RetryClear(t[j], from)
  }

  lemma BackoffPositive(n: nat)
    ensures n > 0 ==> Backoff(n) > 0
  {
    if n > 0 { assert n * n >= 1; }
  }

  ghost predicate LeaseClear(row: Job, from: Time) {
    row.status == Leased ==> row.leaseExpiry.Some? && from <= row.leaseExpiry.value
  }

  ghost predicate RetryClear(row: Job, from: Time) {
    row.status == RetryScheduled ==> row.scheduledAt.Some? && from < row.scheduledAt.value
  }

  lemma UpdateKeepsLeaseClear(row: Job, s: Step, from: Time)
    requires LeaseClear(row, from) && from <= s.now
    ensures LeaseClear(Updated(row, s), from)
  {
  }

  lemma UpdateKeepsRetryClear(row: Job, s: Step, from: Time)
    requires RetryClear(row, from) && from <= s.now
    ensures RetryClear(Updated(row, s), from)
  {
    BackoffPositive(row.attempts + 1);
  }

  /** A row after a step is a new one, the old one, or the old one updated. */
  lemma RowAfter(t: Table, s: Step, j: JobId)
    requires Enabled(t, s) && j in Apply(t, s)
    ensures j !in t ==> Apply(t, s)[j].status == Queued
    ensures j in t ==> Apply(t, s)[j] == t[j] || Apply(t, s)[j] == Updated(t[j], s)
  {
    if j in t { RowStep(t, s, j); }
  }

  /** Later steps do not bring stale leases back. */
  lemma StepKeepsLeasesClear(t: Table, s: Step, from: Time)
    requires Enabled(t, s) && from <= s.now && NoLeaseExpiredBefore(t, from)
    ensures NoLeaseExpiredBefore(Apply(t, s), from)
  {
    forall j | j in Apply(t, s) ensures LeaseClear(Apply(t, s)[j], from) {
      RowAfter(t, s, j);
      if j in t { UpdateKeepsLeaseClear(t[j], s, from); }
    }
  }

  /** Nor overdue retries. */
  lemma StepKeepsRetriesClear(t: Table, s: Step, from: Time)
    requires Enabled(t, s) && from <= s.now && NoRetryDueBy(t, from)
    ensures NoRetryDueBy(Apply(t, s), from)
  {
    forall j | j in Apply(t, s) ensures RetryClear(Apply(t, s)[j], from) {
      RowAfter(t, s, j);
      if j in t { UpdateKeepsRetryClear(t[j], s, from); }
    }
  }

  lemma {:induction false} StaysClear(late: Run, early: Run, from: Time)
    requires Legal(late) && Extends(late, early) && early.Then? && from <= early.last.now
    ensures NoLeaseExpiredBefore(After(early), from) ==> NoLeaseExpiredBefore(After(late), from)
    ensures NoRetryDueBy(After(early), from) ==> NoRetryDueBy(After(late), from)
    decreases late
  {
    if late != early {
      StaysClear(late.before, early, from);
      Earlier(late.before, early);
      var t := After(late.before);
      if NoLeaseExpiredBefore(t, from) { StepKeepsLeasesClear(t, late.last, from); }
      if NoRetryDueBy(t, from) { StepKeepsRetriesClear(t, late.last, from); }
    }
  }

  lemma ReclaimClears(run: Run, from: Time)
    requires Legal(run) && run.Then? && run.last.op.Reclaim? && from <= run.last.now
    ensures NoLeaseExpiredBefore(After(run), from)
  {
    var t := After(run.before);
    Reachable(run.before, run.last.now);
    OnlyEnqueueAndRetryCollide(t, run.last);
    forall j | j in t
      ensures LeaseClear(After(run)[j], from)
    {
      assert RowInv(t[j], History(run.before, j), run.last.now);
      RowStep(t, run.last, j);
    }
  }

  lemma RequeueClears(run: Run, from: Time)
    requires Legal(run) && run.Then? && run.last.op.Requeue? && from <= run.last.now
    ensures NoRetryDueBy(After(run), from)
  {
    var t := After(run.before);
    Reachable(run.before, run.last.now);
    OnlyEnqueueAndRetryCollide(t, run.last);
    forall j | j in t
      ensures RetryClear(After(run)[j], from)
    {
      assert RowInv(t[j], History(run.before, j), run.last.now);
      RowStep(t, run.last, j);
    }
  }

  /** After a scan that began at `from`, whatever else ran during and after it, no lease expired
      before `from` and no retry due by `from` is left. */
  lemma ScanLeavesNothingOverdue(run: Run, reclaim: Run, requeue: Run, from: Time)
    requires Legal(run) && Extends(run, requeue) && Extends(requeue, reclaim)
    requires reclaim.Then? && reclaim.last.op.Reclaim? && from <= reclaim.last.now
    requires requeue.Then? && requeue.last.op.Requeue?
    ensures NoLeaseExpiredBefore(After(run), from) && NoRetryDueBy(After(run), from)
  {
    ExtendsTransitive(run, requeue, reclaim);
    Earlier(run, requeue);
    Earlier(requeue, reclaim);
    ReclaimClears(reclaim, from);
    RequeueClears(requeue, from);
    StaysClear(run, reclaim, from);
    StaysClear(run, requeue, from);
  }

  /** A queued job can be leased at once, by any worker that takes its type. */
  lemma QueuedIsLeasable(run: Run, now: Time, j: JobId, jobTypes: seq<string>)
    requires Legal(run) && NotBefore(now, run) && j in After(run)
    ensures Leasable(After(run)[j], jobTypes, now) <==>
            After(run)[j].status == Queued && After(run)[j].jobType in jobTypes
  {
    ReachableTime(run, now, j);
  }

  /** Only known job types ever enter the table, so the control loop's last scan step, given all
      known types, never takes a row. */
  lemma {:induction false} JobTypesAreKnown(run: Run, j: JobId)
    requires Legal(run) && j in After(run)
    ensures After(run)[j].jobType in KNOWN_JOB_TYPES
    decreases run
  {
    var t, s := After(run.before), run.last;
    if j in t {
      JobTypesAreKnown(run.before, j);
      RowStep(t, s, j);
    }
  }

  lemma NothingIsBuried(run: Run, s: Step)
    requires Legal(run) && s.op.BuryUnknown? && forall k :: k in KNOWN_JOB_TYPES ==> k in s.op.knownTypes
    ensures Apply(After(run), s) == After(run)
  {
    forall j | j in After(run) { JobTypesAreKnown(run, j); }
    assert Requested(After(run), s) == After(run);
  }
}
