/** Safety of the lease protocol over whole runs: the unique index, ownership, the attempt ledger,
    and the spacing of retries. */
module JobSafety {
  import opened Options
  import opened Jobs
  import opened JobRuns

  // ---- The unique index

  /** No statement but an enqueue or a manual retry can collide with the index. */
  lemma OnlyEnqueueAndRetryCollide(t: Table, s: Step)
    requires UniqueIndex(t) && Enabled(t, s)
    requires !s.op.Enqueue? && !s.op.Retry?
    ensures !Refused(t, s)
  {
    var t' := Requested(t, s);
    forall i, j | i in t' && j in t' && i != j && Active(t'[i]) && Active(t'[j]) && t'[i].dedupeKey.Some?
      ensures t'[i].dedupeKey != t'[j].dedupeKey
    {
      assert Active(t[i]) && Active(t[j]);
    }
  }

  /** An enqueue of a known type is turned away exactly when an active job holds its key. */
  lemma EnqueueCollidesIff(t: Table, s: Step)
    requires UniqueIndex(t) && s.op.Enqueue? && Enabled(t, s)
    ensures Refused(t, s) <==>
              && s.op.params.jobType in KNOWN_JOB_TYPES
              && s.op.params.dedupeKey.Some?
              && exists i :: i in t && Active(t[i]) && t[i].dedupeKey == s.op.params.dedupeKey
  {
    var t', id, p := Requested(t, s), s.op.newId, s.op.params;
    if p.jobType in KNOWN_JOB_TYPES {
      if i :| i in t && Active(t[i]) && t[i].dedupeKey == p.dedupeKey && p.dedupeKey.Some? {
        assert Active(t'[id]) && Active(t'[i]);
      }
      if !UniqueIndex(t') {
        var i, j :| i in t' && j in t' && i != j && Active(t'[i]) && Active(t'[j]) && t'[i].dedupeKey.Some?
                    && t'[i].dedupeKey == t'[j].dedupeKey;
        assert i != id ==> Active(t[i]);
        assert j != id ==> Active(t[j]);
      }
    }
  }

  /** A manual retry is refused exactly when another active job holds the key of the buried one. */
  lemma RetryCollidesIff(t: Table, s: Step)
    requires UniqueIndex(t) && s.op.Retry?
    ensures Refused(t, s) <==>
              && s.op.id in t && t[s.op.id].status == DeadLetter && t[s.op.id].dedupeKey.Some?
              && exists i :: i in t && i != s.op.id && Active(t[i]) && t[i].dedupeKey == t[s.op.id].dedupeKey
  {
    var t', id := Requested(t, s), s.op.id;
    if i :| id in t && t[id].status == DeadLetter && t[id].dedupeKey.Some?
            && i in t && i != id && Active(t[i]) && t[i].dedupeKey == t[id].dedupeKey {
      assert Active(t'[id]) && Active(t'[i]);
    }
    if !UniqueIndex(t') {
      var i, j :| i in t' && j in t' && i != j && Active(t'[i]) && Active(t'[j]) && t'[i].dedupeKey.Some?
                  && t'[i].dedupeKey == t'[j].dedupeKey;
      assert i != id ==> t'[i] == t[i] && Active(t[i]);
      assert j != id ==> t'[j] == t[j] && Active(t[j]);
      assert i == id || j == id;
      assert !Active(t[id]);
    }
  }

  /** In every reachable state at most one job per dedupe key is neither succeeded nor dead-lettered. */
  lemma {:induction false} DedupeHolds(run: Run, i: JobId, j: JobId)
    requires Legal(run)
    requires i in After(run) && j in After(run)
    requires After(run)[i].status != Succeeded && After(run)[i].status != DeadLetter
    requires After(run)[j].status != Succeeded && After(run)[j].status != DeadLetter
    requires After(run)[i].dedupeKey.Some? && After(run)[i].dedupeKey == After(run)[j].dedupeKey
    ensures i == j
  {
    Reachable(run, run.last.now);
    assert Active(After(run)[i]) && Active(After(run)[j]);
  }

  // ---- Ownership

  predicate EndsLease(k: Kind) {
    k.Completed? || k.FailedRetry? || k.FailedDead? || k.Reclaimed?
  }

  /** What `Holder` means: a grant to that worker after which the job was neither granted again,
      completed, failed nor reclaimed. */
  lemma {:induction false} HolderMeaning(h: seq<Event>, w: Worker)
    ensures Holder(h) == Some(w) <==>
              exists i :: 0 <= i < |h| && h[i].kind.Granted? && h[i].actor == Some(w)
                && forall k :: i < k < |h| ==> !h[k].kind.Granted? && !EndsLease(h[k].kind)
  {
    if h != [] {
      var front, e := h[..|h| - 1], h[|h| - 1];
      HolderMeaning(front, w);
      if e.kind.Granted? || EndsLease(e.kind) {
        if e.kind.Granted? && e.actor == Some(w) {
          assert h[|h| - 1].kind.Granted?;
        }
      } else if Holder(front) == Some(w) {
        var i :| 0 <= i < |front| && front[i].kind.Granted? && front[i].actor == Some(w)
                 && forall k :: i < k < |front| ==> !front[k].kind.Granted? && !EndsLease(front[k].kind);
        assert h[i] == front[i];
        assert forall k :: i < k < |front| ==> h[k] == front[k];
      } else if i :| 0 <= i < |h| && h[i].kind.Granted? && h[i].actor == Some(w)
                     && forall k :: i < k < |h| ==> !h[k].kind.Granted? && !EndsLease(h[k].kind) {
        assert front[i] == h[i];
        assert forall k :: i < k < |front| ==> front[k] == h[k];
      }
    }
  }

  /** A worker's statement about a job it may hold. */
  ghost predicate WorkerStep(s: Step, j: JobId, w: Worker) {
    (s.op.Renew? || s.op.Complete? || s.op.Fail?) && s.op.id == j && s.op.worker == w
  }

  /** In every run a renewal, completion or failure by `w` takes effect exactly when `w` is the
      holder by the job's history; otherwise the whole table is left as it was. */
  lemma OnlyTheHolderActs(run: Run, s: Step, j: JobId, w: Worker)
    requires Legal(run) && NotBefore(s.now, run) && WorkerStep(s, j, w)
    ensures Affects(After(run), s, j) <==> Holder(History(run, j)) == Some(w)
    ensures Holder(History(run, j)) != Some(w) ==> Apply(After(run), s) == After(run)
  {
    var t, h := After(run), History(run, j);
    Reachable(run, s.now);
    OnlyEnqueueAndRetryCollide(t, s);
    assert j in t ==> RowInv(t[j], h, s.now);
    if Holder(h) != Some(w) { UnselectedChangesNothing(t, s, j); }
  }

  lemma UnselectedChangesNothing(t: Table, s: Step, j: JobId)
    requires (s.op.Renew? || s.op.Complete? || s.op.Fail?) && s.op.id == j
    requires j in t ==> !Selects(t[j], s, j)
    ensures Apply(t, s) == t
  {
    assert Requested(t, s) == t;
  }

  /** A worker whose job was last granted to somebody else cannot change any row. */
  lemma StaleWorkerIsHarmless(run: Run, s: Step, j: JobId, w: Worker, i: nat)
    requires Legal(run) && NotBefore(s.now, run) && WorkerStep(s, j, w)
    requires i < |History(run, j)| && History(run, j)[i].kind.Granted? && History(run, j)[i].actor != Some(w)
    requires forall k :: i < k < |History(run, j)| ==> !History(run, j)[k].kind.Granted?
    ensures Apply(After(run), s) == After(run)
  {
    LatestGrantDecides(History(run, j), i);
    OnlyTheHolderActs(run, s, j, w);
  }

  lemma {:induction false} LatestGrantDecides(h: seq<Event>, i: nat)
    requires i < |h| && h[i].kind.Granted? && forall k :: i < k < |h| ==> !h[k].kind.Granted?
    ensures Holder(h) == None || Holder(h) == h[i].actor
  {
    if i < |h| - 1 { LatestGrantDecides(h[..|h| - 1], i); }
  }

  /** A succeeded row is never changed again, however the run goes on. */
  lemma {:induction false} SucceededIsFinal(late: Run, early: Run, j: JobId)
    requires Legal(late) && Extends(late, early)
    requires j in After(early) && After(early)[j].status == Succeeded
    ensures j in After(late) && After(late)[j] == After(early)[j]
    decreases late
  {
    if late != early {
      SucceededIsFinal(late.before, early, j);
      RowStep(After(late.before), late.last, j);
    }
  }

  // ---- The attempt ledger

  /** Every lease ends in a failure, a completion or a reclaim, or is still held; the attempt
      counter counts the failures; completions happen at most once; and the leases stay within the
      attempts allowed plus those handed back by manual retries and reclaims. */
  lemma Ledger(run: Run, j: JobId)
    requires Legal(run) && j in After(run)
    ensures var row, h := After(run)[j], History(run, j);
            && Count(h, Granted) == Failures(h) + Count(h, Completed) + Count(h, Reclaimed)
              + (if row.status == Leased then 1 else 0)
            && row.attempts == Failures(h)
            && Count(h, Completed) <= 1
            && Count(h, Granted) <= row.maxAttempts + Count(h, Revived) + Count(h, Reclaimed)
            && row.attempts <= row.maxAttempts + Count(h, Revived)
  {
    ReachableLedger(run, j);
  }

  /** The row a failure at `now` leaves behind. */
  ghost predicate FailedRow(row: Job, k: Kind, now: Time) {
    && row.status == (if k.FailedDead? then DeadLetter else RetryScheduled)
    && (k.FailedDead? <==> row.attempts >= row.maxAttempts)
    && (k.FailedRetry? ==> row.scheduledAt == Some(now + Backoff(row.attempts)))
  }

  predicate IsFailure(k: Kind) {
    k.FailedRetry? || k.FailedDead?
  }

  lemma FailureStep(t: Table, s: Step, j: JobId, k: Kind)
    requires Enabled(t, s) && IsFailure(k)
    requires EventOf(t, s, j).Some? && EventOf(t, s, j).value.kind == k
    ensures EventOf(t, s, j).value.now == s.now
    ensures j in Apply(t, s)
    ensures FailedRow(Apply(t, s)[j], k, s.now)
  {
    RowStep(t, s, j);
  }

  lemma LastFailure(run: Run, j: JobId, k: Kind)
    requires Legal(run) && IsFailure(k) && EndsWith(run, j, k)
    ensures j in After(run)
    ensures FailedRow(After(run)[j], k, run.last.now)
    ensures FailTimes(History(run, j)) != []
    ensures FailTimes(History(run, j))[|FailTimes(History(run, j))| - 1] == run.last.now
  {
    FailureStep(After(run.before), run.last, j, k);
    SnocReadings(History(run.before, j), Latest(run, j).value);
  }

  /** Without a manual retry, a failure dead-letters the job exactly at its last allowed attempt. */
  lemma DeadExactlyAtLastAttempt(run: Run, j: JobId, k: Kind)
    requires Legal(run) && IsFailure(k) && EndsWith(run, j, k)
    requires Count(History(run, j), Revived) == 0
    ensures j in After(run)
    ensures k == FailedDead <==> Failures(History(run, j)) == After(run)[j].maxAttempts
    ensures k == FailedRetry <==> Failures(History(run, j)) < After(run)[j].maxAttempts
  {
    LastFailure(run, j, k);
    ReachableLedger(run, j);
  }

  /** A manual retry can take the counter past the limit: with one attempt allowed, two failures. */
  lemma RetryPassesTheLimit(w: Worker) returns (run: Run)
    ensures Legal(run) && 0 in After(run)
    ensures After(run)[0].attempts > After(run)[0].maxAttempts
  {
    var create := Step(0, Enqueue(0, EnqueueParams("", "composite", 0, None, 1)));
    var lease := Step(0, Lease(w, ["composite"], {}, Some(0)));
    var fail, retry := Step(0, Fail(0, w, "", "")), Step(0, Retry(0));
    run := Then(Start, create);
    var row := NewJob(create.op.params, 0);
    assert After(run) == map[0 := row];
    run, row := ExtendOne(run, row, lease);
    run, row := ExtendOne(run, row, fail);
    run, row := ExtendOne(run, row, retry);
    run, row := ExtendOne(run, row, lease);
    run, row := ExtendOne(run, row, fail);
  }

  /** The first attempts below the limit only schedule retries; from the limit on, every failure
      dead-letters. */
  ghost predicate DeadFailuresCount(row: Job, h: seq<Event>) {
    if Count(h, FailedDead) == 0 then row.attempts < row.maxAttempts
    else row.attempts == row.maxAttempts - 1 + Count(h, FailedDead)
  }

  lemma SelectedKeepsDeadCount(row: Job, s: Step, j: JobId, h: seq<Event>)
    requires DeadFailuresCount(row, h) && Selects(row, s, j) && !s.op.Enqueue?
    ensures DeadFailuresCount(Updated(row, s), h + [EventFor(row, s)])
  {
    SnocReadings(h, EventFor(row, s));
  }

  lemma NewDeadCount(p: EnqueueParams, now: Time)
    ensures DeadFailuresCount(NewJob(p, now), [Event(Created, None, now)])
  {
    SnocReadings([], Event(Created, None, now));
    assert [] + [Event(Created, None, now)] == [Event(Created, None, now)];
  }

  lemma {:induction false} DeadFailuresCounted(run: Run, j: JobId)
    requires Legal(run) && j in After(run)
    ensures DeadFailuresCount(After(run)[j], History(run, j))
  {
    var t, s, h := After(run.before), run.last, History(run.before, j);
    if j in t {
      DeadFailuresCounted(run.before, j);
      RowStep(t, s, j);
      if Affects(t, s, j) { SelectedKeepsDeadCount(t[j], s, j, h); }
    } else {
      ReachableLease(run.before, j);
      NewDeadCount(s.op.params, s.now);
    }
  }

  /** Exactly when: in every run, the counter is past the limit if and only if failures have
      dead-lettered the job at least twice; from the first such failure on, the counter is one less
      than the limit plus their number. */
  lemma LimitPassedIff(run: Run, j: JobId)
    requires Legal(run) && j in After(run)
    ensures var row, dead := After(run)[j], Count(History(run, j), FailedDead);
            && (row.attempts > row.maxAttempts <==> dead >= 2)
            && (dead >= 1 ==> row.attempts == row.maxAttempts - 1 + dead)
            && (dead == 0 ==> row.attempts < row.maxAttempts)
            && dead <= Count(History(run, j), Revived) + 1
  {
    DeadFailuresCounted(run, j);
    ReachableLedger(run, j);
    DeadCountBounds(After(run)[j], History(run, j));
  }

  lemma DeadCountBounds(row: Job, h: seq<Event>)
    requires LedgerInv(row, h) && DeadFailuresCount(row, h)
    ensures var dead := Count(h, FailedDead);
            && (row.attempts > row.maxAttempts <==> dead >= 2)
            && (dead >= 1 ==> row.attempts == row.maxAttempts - 1 + dead)
            && (dead == 0 ==> row.attempts < row.maxAttempts)
            && dead <= Count(h, Revived) + 1
  {
  }

  lemma ExtendOne(run: Run, row: Job, s: Step) returns (longer: Run, row': Job)
    requires Legal(run) && NotBefore(s.now, run) && After(run) == map[0 := row]
    requires !s.op.Enqueue? && Selects(row, s, 0) && Enabled(map[0 := row], s)
    ensures row' == Updated(row, s) && Legal(longer) && longer == Then(run, s) && After(longer) == map[0 := row']
    ensures Latest(longer, 0) == Some(EventFor(row, s))
  {
    longer, row' := Then(run, s), Updated(row, s);
    assert Requested(map[0 := row], s) == map[0 := row'];
  }

  // ---- Quadratic backoff

  /** A failed job is waiting for `due`, or that time has passed. */
  ghost predicate Waiting(row: Job, due: Time, clock: Time) {
    (row.status == RetryScheduled && row.scheduledAt == Some(due)) || due <= clock
  }

  lemma WaitingStep(t: Table, s: Step, j: JobId, due: Time, clock: Time)
    requires j in t && Enabled(t, s) && clock <= s.now && Waiting(t[j], due, clock)
    ensures j in Apply(t, s) && Waiting(Apply(t, s)[j], due, s.now)
  {
    RowStep(t, s, j);
  }

  lemma {:induction false} StillWaiting(late: Run, early: Run, j: JobId, due: Time)
    requires Legal(late) && Extends(late, early) && early.Then?
    requires j in After(early) && Waiting(After(early)[j], due, early.last.now)
    ensures late.Then? && j in After(late) && Waiting(After(late)[j], due, late.last.now)
    decreases late
  {
    if late != early {
      StillWaiting(late.before, early, j, due);
      WaitingStep(After(late.before), late.last, j, due, late.before.last.now);
    }
  }

  /** After the n-th failure of a job, if it schedules a retry, no lease is granted on the job until
      30 n^2 seconds have passed, whatever happens in between. */
  lemma BackoffRespected(late: Run, early: Run, j: JobId)
    requires Legal(late) && Extends(late, early)
    requires EndsWith(early, j, FailedRetry) && EndsWith(late, j, Granted)
    ensures late.last.now >= early.last.now + Backoff(Failures(History(early, j)))
  {
    Earlier(late, early);
    CountedFailure(early, j);
    GrantedStep(After(late.before), late.last, j);
    NoLeaseWhileWaiting(late, early, j);
  }

  lemma CountedFailure(run: Run, j: JobId)
    requires Legal(run) && EndsWith(run, j, FailedRetry)
    ensures j in After(run) && FailedRow(After(run)[j], FailedRetry, run.last.now)
    ensures After(run)[j].attempts == Failures(History(run, j))
  {
    LastFailure(run, j, FailedRetry);
    ReachableLedger(run, j);
  }

  lemma NoLeaseWhileWaiting(late: Run, early: Run, j: JobId)
    requires Legal(late) && Extends(late, early) && early.Then?
    requires j in After(early) && FailedRow(After(early)[j], FailedRetry, early.last.now)
    requires j in After(late) && After(late)[j].status == Leased
    ensures late.Then? && late.last.now >= early.last.now + Backoff(After(early)[j].attempts)
  {
    var due := FailedRowWaits(After(early)[j], early.last.now);
    WaitIsOver(late, early, j, due);
  }

  lemma FailedRowWaits(row: Job, now: Time) returns (due: Time)
    requires FailedRow(row, FailedRetry, now)
    ensures due == now + Backoff(row.attempts) && Waiting(row, due, now)
  {
    due := now + Backoff(row.attempts);
  }

  lemma WaitIsOver(late: Run, early: Run, j: JobId, due: Time)
    requires Legal(late) && Extends(late, early) && early.Then?
    requires j in After(early) && Waiting(After(early)[j], due, early.last.now)
    requires j in After(late) && After(late)[j].status == Leased
    ensures late.Then? && due <= late.last.now
  {
    StillWaiting(late, early, j, due);
  }

  lemma GrantedStep(t: Table, s: Step, j: JobId)
    requires Enabled(t, s) && EventOf(t, s, j).Some? && EventOf(t, s, j).value.kind == Granted
    ensures j in Apply(t, s) && Apply(t, s)[j].status == Leased
  {
    RowStep(t, s, j);
  }

  /** Sum of the first waits: 30 (1 + 4 + ... + (n-1)^2) seconds. */
  function TotalBackoff(n: nat): Time {
    (n - 1) * n * (2 * n - 1) * 5_000_000
  }

  lemma TotalBackoffStep(n: nat)
    ensures TotalBackoff(n + 1) == TotalBackoff(n) + Backoff(n)
  {
    assert n * (n + 1) * (2 * n + 1) == (n - 1) * n * (2 * n - 1) + 6 * (n * n);
  }

  lemma {:induction false} SpacedAddsUp(times: seq<Time>, m: int, k: nat)
    requires Spaced(times, m) && 0 < k <= |times| && k <= m
    ensures times[k - 1] >= times[0] + TotalBackoff(k)
  {
    if k > 1 {
      SpacedAddsUp(times, m, k - 1);
      TotalBackoffStep(k - 1);
      assert Apart(times, k - 1);
    }
  }

  /** The k-th failure of a job, for k up to its attempt limit, comes at least 5 (k-1) k (2k-1)
      seconds after the first. */
  lemma FailuresAreSpreadOut(run: Run, j: JobId, k: nat)
    requires Legal(run) && j in After(run)
    requires 0 < k <= After(run)[j].attempts && k <= After(run)[j].maxAttempts
    ensures |FailTimes(History(run, j))| == After(run)[j].attempts
    ensures FailTimes(History(run, j))[k - 1] >= FailTimes(History(run, j))[0] + TotalBackoff(k)
  {
    ReachableLedger(run, j);
    ReachableTime(run, run.last.now, j);
    SpacedAddsUp(FailTimes(History(run, j)), After(run)[j].maxAttempts, k);
  }

  /** A job never retried by hand is not dead-lettered by a failure before 5 (m-1) m (2m-1) seconds
      have passed since its first failure, where m is its attempt limit. */
  lemma BurialTakesTime(run: Run, j: JobId)
    requires Legal(run) && EndsWith(run, j, FailedDead)
    requires Count(History(run, j), Revived) == 0
    ensures FailTimes(History(run, j)) != [] && j in After(run) && After(run)[j].maxAttempts > 0
    ensures run.last.now >= FailTimes(History(run, j))[0] + TotalBackoff(After(run)[j].maxAttempts)
  {
    LastFailure(run, j, FailedDead);
    DeadExactlyAtLastAttempt(run, j, FailedDead);
    ReachableLedger(run, j);
    FailuresAreSpreadOut(run, j, After(run)[j].maxAttempts);
  }
}
