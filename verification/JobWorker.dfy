/** The worker's heartbeat in the runs of the queue: when renewals sent at every tick keep the lease,
    and what a heartbeat that stops costs. */
module JobWorker {
  import opened Options
  import opened Jobs
  import opened JobRuns
  import opened JobSafety
  import opened JobLeases

  const HEARTBEAT_INTERVAL: int := 60 * SECOND

  /** The time of `k` heartbeat intervals. */
  function Elapsed(k: int): Time {
    k * 60_000_000
  }

  // ---- The loop

  /** What the database answers to a renewal. */
  datatype Answer = StillOwner | OwnershipLost | TransientError

  /** The tick number `i`, counted from 0, comes while the job is still being processed. */
  predicate TickDue(i: nat, work: Time) {
    Elapsed(i + 1) < work
  }

  /** The heartbeat sends a renewal at every tick until the work ends or an answer is not a renewal.
      Lost ownership also cancels the job; an error does not, but ends the heartbeat as well. */
  method Heartbeat(answers: nat -> Answer, work: Time) returns (renewals: nat, cancelled: bool)
    ensures IsHeartbeat(answers, work, renewals)
    ensures cancelled <==> TickDue(renewals, work) && answers(renewals) == OwnershipLost
  {
    renewals := 0;
    while TickDue(renewals, work)
      invariant forall i :: 0 <= i < renewals ==> TickDue(i, work) && answers(i) == StillOwner
      decreases work - Elapsed(renewals)
    {
      if answers(renewals) == TransientError {
        return renewals, false;
      }
      if answers(renewals) == OwnershipLost {
        return renewals, true;
      }
      renewals := renewals + 1;
    }
    return renewals, false;
  }

  /** `n` renewals are what the heartbeat achieves: the first `n` ticks are due and granted, and the
      next is not due or not granted. */
  ghost predicate IsHeartbeat(answers: nat -> Answer, work: Time, n: nat) {
    && (forall i: nat :: i < n ==> TickDue(i, work) && answers(i) == StillOwner)
    && (!TickDue(n, work) || answers(n) != StillOwner)
  }

  /** With every answer a renewal, the heartbeat renews once for every full minute that passes before the
      work ends. */
  lemma RenewsEveryMinute(answers: nat -> Answer, work: Time, n: nat)
    requires IsHeartbeat(answers, work, n) && forall i :: answers(i) == StillOwner
    requires work > 0
    ensures n * 60_000_000 < work <= (n + 1) * 60_000_000
  {
    if n > 0 { assert TickDue(n - 1, work); }
  }

  // ---- Statements a worker sends, whether or not they take effect

  ghost predicate SendsRenewal(stage: Run, j: JobId, w: Worker) {
    stage.Then? && stage.last.op == Renew(j, w)
  }

  ghost predicate SendsResult(stage: Run, j: JobId, w: Worker) {
    stage.Then? && (stage.last.op.Complete? || stage.last.op.Fail?) && WorkerStep(stage.last, j, w)
  }

  // ---- A steady heartbeat

  /** The tick at `tick` is served: within `delay` the worker has sent a renewal, or it has sent its
      result by then. */
  ghost predicate Served(run: Run, grant: Run, j: JobId, w: Worker, tick: Time, delay: Time) {
    exists m :: Between(run, m, grant) && m.last.now <= tick + delay
      && (SendsResult(m, j, w) || (SendsRenewal(m, j, w) && tick <= m.last.now))
  }

  /** After its grant the worker serves every tick whose time has come. */
  ghost predicate SteadyFrom(run: Run, grant: Run, j: JobId, w: Worker, delay: Time)
    requires grant.Then?
  {
    forall k: nat :: 0 < k && !NotBefore(grant.last.now + Elapsed(k) + delay, run) ==>
      Served(run, grant, j, w, grant.last.now + Elapsed(k), delay)
  }

  /** Whoever is granted the job sends a renewal at every tick until it sends its result. */
  ghost predicate Steady(run: Run, j: JobId, delay: Time) {
    forall grant, w :: Extends(run, grant) && GrantedTo(grant, j, w) ==> SteadyFrom(run, grant, j, w, delay)
  }

  /** Nothing has ended the lease since the grant. */
  ghost predicate Unended(run: Run, grant: Run, j: JobId) {
    forall mid :: Between(run, mid, grant) ==> !(Latest(mid, j).Some? && EndsLease(Latest(mid, j).value.kind))
  }

  /** The grant a held lease goes back to. */
  lemma {:induction false} GrantStage(run: Run, j: JobId) returns (grant: Run, w: Worker)
    requires Legal(run) && Holder(History(run, j)).Some?
    ensures Extends(run, grant) && GrantedTo(grant, j, w) && Unended(run, grant, j)
    ensures Holder(History(run, j)) == Some(w)
  {
    if Latest(run, j).Some? { SnocReadings(History(run.before, j), Latest(run, j).value); }
    if EndsWith(run, j, Granted) {
      grant, w := run, Latest(run, j).value.actor.value;
      forall mid ensures !Between(run, mid, run) { NothingBetween(run, mid); }
    } else {
      grant, w := GrantStage(run.before, j);
      forall mid | Between(run, mid, grant)
        ensures !(Latest(mid, j).Some? && EndsLease(Latest(mid, j).value.kind))
      {
        if mid != run { assert Between(run.before, mid, grant); }
      }
    }
  }

  lemma TouchedIsHeld(stage: Run, j: JobId)
    requires Legal(stage) && Touches(stage, j)
    ensures Holder(History(stage, j)).Some? && LastTouch(History(stage, j)) == Some(stage.last.now)
  {
    ReachableLease(stage.before, j);
    TouchStep(After(stage.before), stage.last, j);
    SnocReadings(History(stage.before, j), Latest(stage, j).value);
  }

  lemma TouchStep(t: Table, s: Step, j: JobId)
    requires Enabled(t, s) && EventOf(t, s, j).Some?
    ensures var e := EventOf(t, s, j).value;
            && e.now == s.now
            && (e.kind == Granted ==> e.actor.Some?)
            && (e.kind == Renewed ==>
                j in t && t[j].status == Leased && s.op.Renew? && s.op.id == j && HeldBy(t[j], s.op.worker))
  {
  }

  /** The latest touch only moves forward. */
  lemma {:induction false} LastTouchLater(late: Run, early: Run, j: JobId, t: Time)
    requires Legal(late) && Extends(late, early) && LastTouch(History(early, j)) == Some(t)
    ensures LastTouch(History(late, j)).Some? && t <= LastTouch(History(late, j)).value
    decreases late
  {
    if late != early {
      LastTouchLater(late.before, early, j, t);
      if Latest(late, j).Some? {
        TouchStep(After(late.before), late.last, j);
        SnocReadings(History(late.before, j), Latest(late, j).value);
        TouchInPast(late.before, j);
      }
    }
  }

  lemma {:induction false} TouchInPast(run: Run, j: JobId)
    requires Legal(run) && LastTouch(History(run, j)).Some?
    ensures run.Then? && LastTouch(History(run, j)).value <= run.last.now
  {
    var before := run.before;
    if Latest(run, j).Some? {
      TouchStep(After(before), run.last, j);
      SnocReadings(History(before, j), Latest(run, j).value);
    }
    if LastTouch(History(before, j)).Some? { TouchInPast(before, j); }
  }

  /** A result sent by the holder ends its lease. */
  lemma ResultEnds(run: Run, grant: Run, m: Run, j: JobId, w: Worker)
    requires Legal(run) && GrantedTo(grant, j, w) && Between(run, m, grant) && SendsResult(m, j, w)
    ensures !Unended(run, grant, j)
  {
    Earlier(run, m);
    GrantLasts(m.before, grant, j, w);
    if mid :| Between(m.before, mid, grant) && Ends(mid, j, w) {
      ExtendsTransitive(run, m, mid);
      assert Between(run, mid, grant);
    } else {
      OnlyTheHolderActs(m.before, m.last, j, w);
    }
  }

  /** A statement sent by the holder within the lease duration of its latest touch shows life, or
      comes after one that did. */
  lemma SentInTimeShowsLife(run: Run, early: Run, m: Run, j: JobId, w: Worker) returns (mid: Run)
    requires Legal(run) && Touches(early, j) && Holder(History(early, j)) == Some(w)
    requires Between(run, m, early) && WorkerStep(m.last, j, w) && m.last.now <= early.last.now + LEASE_DURATION
    ensures Between(run, mid, early) && ShowsLife(mid, j) && mid.last.now <= m.last.now
  {
    Earlier(run, m);
    HolderLasts(m.before, early, j, w);
    if end :| Between(m.before, end, early) && Ends(end, j, w) {
      mid := end;
      ExtendsTransitive(run, m, end);
      Earlier(m, end);
      NotReclaimedYet(early, end, j);
    } else {
      mid := m;
      OnlyTheHolderActs(m.before, m.last, j, w);
    }
  }

  /** Within the lease duration of a touch no reclaim takes the job. */
  lemma NotReclaimedYet(early: Run, end: Run, j: JobId)
    requires Legal(end) && Touches(early, j) && Between(end, end, early)
    requires end.last.now <= early.last.now + LEASE_DURATION
    ensures !EndsWith(end, j, Reclaimed)
  {
    Earlier(end, early);
    TouchedIsHeld(early, j);
    LastTouchLater(end.before, early, j, early.last.now);
    if EndsWith(end, j, Reclaimed) {
      ReclaimedMeans(After(end.before), end.last, j);
      ReclaimTooEarly(end.before, end.last, j, early.last.now);
    }
  }

  lemma ReclaimedMeans(t: Table, s: Step, j: JobId)
    requires EventOf(t, s, j).Some? && EventOf(t, s, j).value.kind == Reclaimed
    ensures s.op.Reclaim? && Affects(t, s, j)
  {
  }

  lemma ReclaimTooEarly(run: Run, s: Step, j: JobId, t: Time)
    requires Legal(run) && NotBefore(s.now, run) && s.op.Reclaim? && s.now <= t + LEASE_DURATION
    requires LastTouch(History(run, j)).Some? && t <= LastTouch(History(run, j)).value
    ensures !Affects(After(run), s, j)
  {
    ReclaimTakesSilentLeases(run, s, j);
  }

  /** The tick that follows an instant after the grant. */
  lemma NextTick(start: Time, now: Time) returns (k: nat)
    requires start <= now
    ensures 0 < k && now < start + Elapsed(k) <= now + HEARTBEAT_INTERVAL
  {
    k := (now - start) / HEARTBEAT_INTERVAL + 1;
  }

  /** A worker that serves every tick, with a delay that fits into the lease, keeps its lease alive:
      between two signs of life never more than the lease duration passes. */
  lemma SteadyHeartbeatKeepsAlive(run: Run, j: JobId, delay: Time)
    requires Legal(run) && Steady(run, j, delay) && 0 <= delay && HEARTBEAT_INTERVAL + delay <= LEASE_DURATION
    ensures KeptAlive(run, j)
  {
    forall early | Extends(run, early) && Touches(early, j) && !NotBefore(early.last.now + LEASE_DURATION, run)
      ensures HeardInTime(run, early, j)
    {
      var mid := SteadyShowsLife(run, early, j, delay);
    }
  }

  lemma SteadyShowsLife(run: Run, early: Run, j: JobId, delay: Time) returns (mid: Run)
    requires Legal(run) && Steady(run, j, delay) && 0 <= delay && HEARTBEAT_INTERVAL + delay <= LEASE_DURATION
    requires Extends(run, early) && Touches(early, j) && !NotBefore(early.last.now + LEASE_DURATION, run)
    ensures Between(run, mid, early) && ShowsLife(mid, j) && mid.last.now <= early.last.now + LEASE_DURATION
  {
    Earlier(run, early);
    TouchedIsHeld(early, j);
    var grant, w := GrantStage(early, j);
    Earlier(early, grant);
    ExtendsTransitive(run, early, grant);
    var k := NextTick(grant.last.now, early.last.now);
    var tick := grant.last.now + Elapsed(k);
    assert Served(run, grant, j, w, tick, delay);
    var m :| Between(run, m, grant) && m.last.now <= tick + delay
             && (SendsResult(m, j, w) || (SendsRenewal(m, j, w) && tick <= m.last.now));
    ServedAfterTouch(run, early, grant, m, j, w);
    mid := SentInTimeShowsLife(run, early, m, j, w);
  }

  lemma ServedAfterTouch(run: Run, early: Run, grant: Run, m: Run, j: JobId, w: Worker)
    requires Legal(run) && Extends(run, early) && Extends(early, grant) && GrantedTo(grant, j, w)
    requires early.Then? && Unended(early, grant, j) && Between(run, m, grant)
    requires SendsResult(m, j, w) || (SendsRenewal(m, j, w) && early.last.now < m.last.now)
    ensures Between(run, m, early)
  {
    StagesComparable(run, m, early);
    Earlier(run, early);
    if Extends(early, m) {
      Earlier(early, m);
      if SendsResult(m, j, w) { ResultEnds(early, grant, m, j, w); }
    }
  }

  /** A lease kept alive throughout a run is kept alive at each of its stages. */
  lemma KeptAliveEarlier(run: Run, stage: Run, j: JobId)
    requires Legal(run) && KeptAlive(run, j) && Extends(run, stage)
    ensures KeptAlive(stage, j)
  {
    forall early | Extends(stage, early) && Touches(early, j) && !NotBefore(early.last.now + LEASE_DURATION, stage)
      ensures HeardInTime(stage, early, j)
    {
      LifeWithin(run, stage, early, j);
    }
  }

  lemma LifeWithin(run: Run, stage: Run, early: Run, j: JobId)
    requires Legal(run) && KeptAlive(run, j) && Extends(run, stage) && Extends(stage, early)
    requires Touches(early, j) && !NotBefore(early.last.now + LEASE_DURATION, stage)
    ensures HeardInTime(stage, early, j)
  {
    Earlier(run, stage);
    ExtendsTransitive(run, stage, early);
    var mid := NextLife(run, j, early);
    EarlierByClock(run, stage, mid);
  }

  lemma EarlierByClock(run: Run, late: Run, early: Run)
    requires Legal(run) && Extends(run, late) && Extends(run, early)
    requires late.Then? && early.Then? && early.last.now < late.last.now
    ensures Extends(late, early)
  {
    StagesComparable(run, late, early);
    Earlier(run, early);
    if Extends(early, late) { Earlier(early, late); }
  }

  /** A steady worker that has not given the job up is always heard: none of its renewals is ever
      answered with lost ownership, and its result takes effect. */
  lemma SteadyNeverLosesOwnership(run: Run, grant: Run, m: Run, j: JobId, w: Worker, delay: Time)
    requires Legal(run) && Steady(run, j, delay) && 0 <= delay && HEARTBEAT_INTERVAL + delay <= LEASE_DURATION
    requires Extends(run, grant) && GrantedTo(grant, j, w) && Between(run, m, grant) && WorkerStep(m.last, j, w)
    requires forall mid :: Between(m.before, mid, grant) ==> !GivesUp(mid, j, w)
    ensures Affects(After(m.before), m.last, j)
  {
    SteadyHeartbeatKeepsAlive(run, j, delay);
    Earlier(run, m);
    ExtendsTransitive(run, m, m.before);
    KeptAliveEarlier(run, m.before, j);
    TimelyWorkerIsHeard(m.before, grant, j, w, m.last);
  }

  // ---- A heartbeat that stops

  /** The times of the renewals sent since the grant. */
  ghost function RenewalsSince(run: Run, grant: Run, j: JobId, w: Worker): seq<Time> {
    if run == grant || run.Start? then []
    else RenewalsSince(run.before, grant, j, w) + (if SendsRenewal(run, j, w) then [run.last.now] else [])
  }

  /** The latest of the times, or the start if there are none. */
  ghost function LastSent(start: Time, times: seq<Time>): Time {
    if times == [] then start else times[|times| - 1]
  }

  /** The first `n` ticks after `start`. */
  ghost function Ticks(start: Time, n: nat): seq<Time> {
    seq(n, i => start + Elapsed(i + 1))
  }

  /** A lease that nothing has ended is held by its worker, and was last touched by its grant or by
      the last renewal sent. */
  lemma {:induction false} TouchedByRenewals(run: Run, grant: Run, j: JobId, w: Worker)
    requires Legal(run) && Extends(run, grant) && GrantedTo(grant, j, w) && Unended(run, grant, j)
    ensures Holder(History(run, j)) == Some(w)
    ensures LastTouch(History(run, j)) == Some(LastSent(grant.last.now, RenewalsSince(run, grant, j, w)))
    decreases run
  {
    if run == grant {
      GrantIsHeld(run, j, w);
    } else {
      UnendedEarlier(run, grant, j);
      TouchedByRenewals(run.before, grant, j, w);
      BetweenEnd(run, grant);
      UnendedStep(run, j, w);
    }
  }

  lemma UnendedEarlier(run: Run, grant: Run, j: JobId)
    requires Unended(run, grant, j) && run.Then?
    ensures Unended(run.before, grant, j)
  {
    forall mid | Between(run.before, mid, grant)
      ensures !(Latest(mid, j).Some? && EndsLease(Latest(mid, j).value.kind))
    {
      assert Between(run, mid, grant);
    }
  }

  lemma UnendedStep(run: Run, j: JobId, w: Worker)
    requires Legal(run) && run.Then? && Holder(History(run.before, j)) == Some(w)
    requires !(Latest(run, j).Some? && EndsLease(Latest(run, j).value.kind))
    ensures Holder(History(run, j)) == Some(w)
    ensures LastTouch(History(run, j)) ==
            if SendsRenewal(run, j, w) then Some(run.last.now) else LastTouch(History(run.before, j))
  {
    var t, h := After(run.before), History(run.before, j);
    ReachableLease(run.before, j);
    if SendsRenewal(run, j, w) { OnlyTheHolderActs(run.before, run.last, j, w); }
    if Latest(run, j).Some? {
      HeldRowStep(t, run.last, j, w);
      TouchStep(t, run.last, j);
      SnocReadings(h, Latest(run, j).value);
    }
  }

  /** While nothing has ended the lease, a reclaim takes the job if and only if it comes more than the
      lease duration after the latest renewal sent, or after the grant if none was. */
  lemma ReclaimAfterRenewals(run: Run, grant: Run, j: JobId, w: Worker, s: Step)
    requires Legal(run) && Extends(run, grant) && GrantedTo(grant, j, w) && Unended(run, grant, j)
    requires s.op.Reclaim? && NotBefore(s.now, run)
    ensures Affects(After(run), s, j) <==>
            LastSent(grant.last.now, RenewalsSince(run, grant, j, w)) + LEASE_DURATION < s.now
  {
    TouchedByRenewals(run, grant, j, w);
    ReclaimTakesSilentLeases(run, s, j);
  }

  lemma LastTick(start: Time, n: nat)
    ensures LastSent(start, Ticks(start, n)) == start + Elapsed(n)
  {
  }

  /** With `n` renewals at the very ticks that is the lease duration after the last tick served. */
  lemma ReclaimAfterTicks(run: Run, grant: Run, j: JobId, w: Worker, n: nat, s: Step)
    requires Legal(run) && Extends(run, grant) && GrantedTo(grant, j, w) && Unended(run, grant, j)
    requires RenewalsSince(run, grant, j, w) == Ticks(grant.last.now, n)
    requires s.op.Reclaim? && NotBefore(s.now, run)
    ensures Affects(After(run), s, j) <==> grant.last.now + Elapsed(n) + LEASE_DURATION < s.now
  {
    LastTick(grant.last.now, n);
    ReclaimAfterRenewals(run, grant, j, w, s);
  }

  lemma StopsAtFirstError(answers: nat -> Answer, work: Time, n: nat, e: nat)
    requires IsHeartbeat(answers, work, n) && TickDue(e, work) && answers(e) == TransientError
    requires forall i: nat :: i < e ==> answers(i) == StillOwner
    ensures n == e
  {
    assert n <= e;
    assert Elapsed(n + 1) <= Elapsed(e + 1);
  }

  /** One transient error ends the heartbeat for good, although the comment beside it speaks of
      waiting for the next tick.  If the first error comes at tick `e` while the work goes on, the
      heartbeat sends no renewal after it, whatever the answers would have been: `e` renewals went
      through, whenever they were sent, and the failed one may have as well.  From then on a reclaim
      takes the job if and only if it comes more than the lease duration after the last of them. */
  lemma FirstErrorDecides(
    answers: nat -> Answer, work: Time, n: nat, e: nat, run: Run, grant: Run, j: JobId, w: Worker, s: Step)
    requires IsHeartbeat(answers, work, n) && TickDue(e, work) && answers(e) == TransientError
    requires forall i: nat :: i < e ==> answers(i) == StillOwner
    requires Legal(run) && Extends(run, grant) && GrantedTo(grant, j, w) && Unended(run, grant, j)
    requires n <= |RenewalsSince(run, grant, j, w)| <= n + 1
    requires s.op.Reclaim? && NotBefore(s.now, run)
    ensures var sent := RenewalsSince(run, grant, j, w);
            && n == e && e <= |sent| <= e + 1
            && (Affects(After(run), s, j) <==> LastSent(grant.last.now, sent) + LEASE_DURATION < s.now)
  {
    StopsAtFirstError(answers, work, n, e);
    ReclaimAfterRenewals(run, grant, j, w, s);
  }

  /** It does happen: an error at the first tick of work that takes 302 seconds; the lease is reclaimed
      after 301, the job granted to a second worker, and the first worker's completion changes nothing.
      With every tick served the same work would have kept its lease. */
  lemma OneErrorCostsTheLease(w: Worker, w': Worker)
    returns (answers: nat -> Answer, work: Time, grant: Run, lost: Run, run: Run)
    requires w != w'
    ensures IsHeartbeat(answers, work, 0) && TickDue(0, work) && answers(0) == TransientError
    ensures forall i: nat :: 0 < i ==> answers(i) == StillOwner
    ensures Legal(run) && Extends(run, lost) && Between(lost, lost, grant) && GrantedTo(grant, 0, w)
    ensures RenewalsSince(run, grant, 0, w) == Ticks(grant.last.now, 0)
    ensures EndsWith(lost, 0, Reclaimed) && GrantedTo(run, 0, w')
    ensures NotBefore(grant.last.now + work, run)
    ensures Apply(After(run), Step(grant.last.now + work, Complete(0, w))) == After(run)
  {
    answers, work := ((i: nat) => if i == 0 then TransientError else StillOwner), 302 * SECOND;
    var create := Step(0, Enqueue(0, EnqueueParams("", "composite", 0, None, 1)));
    var row := NewJob(create.op.params, 0);
    var start := Then(Start, create);
    assert After(start) == map[0 := row];
    var row1, row2, row3;
    grant, row1 := ExtendOne(start, row, Step(0, Lease(w, ["composite"], {}, Some(0))));
    lost, row2 := ExtendOne(grant, row1, Step(301 * SECOND, Reclaim));
    run, row3 := ExtendOne(lost, row2, Step(301 * SECOND, Lease(w', ["composite"], {}, Some(0))));
    NoRenewals(grant, lost, run, w);
    StaleCompletion(run, Step(work, Complete(0, w)), row3);
  }

  lemma NoRenewals(grant: Run, lost: Run, run: Run, w: Worker)
    requires grant.Then? && lost.Then? && lost.before == grant && run.Then? && run.before == lost
    requires !lost.last.op.Renew? && !run.last.op.Renew?
    ensures RenewalsSince(run, grant, 0, w) == Ticks(grant.last.now, 0)
  {
    assert RenewalsSince(grant, grant, 0, w) == [];
    assert RenewalsSince(lost, grant, 0, w) == [];
    assert RenewalsSince(run, grant, 0, w) == [];
  }

  lemma StaleCompletion(run: Run, s: Step, row: Job)
    requires After(run) == map[0 := row] && s.op.Complete? && s.op.id == 0 && !HeldBy(row, s.op.worker)
    ensures Apply(After(run), s) == After(run)
  {
    assert Requested(map[0 := row], s) == map[0 := row];
  }
}
