/** Runs of the queue: every interleaving of statements issued by workers, heartbeats, control
    loops and operators under one non-decreasing clock, and each job's own history in a run. */
module JobRuns {
  import opened Options
  import opened Jobs

  datatype Kind =
    | Created | Granted | Renewed | Completed | FailedRetry | FailedDead
    | Reclaimed | Requeued | Buried | Revived

  /** Something that happened to one job. `actor` names the worker of a worker's statement. */
  datatype Event = Event(kind: Kind, actor: Option<Worker>, now: Time)

  function EventFor(row: Job, s: Step): Event {
    match s.op
    case Enqueue(_, _) => Event(Created, None, s.now)
    case Lease(w, _, _, _) => Event(Granted, Some(w), s.now)
    case Renew(_, w) => Event(Renewed, Some(w), s.now)
    case Complete(_, w) => Event(Completed, Some(w), s.now)
    case Fail(_, w, _, _) =>
      Event(if row.attempts + 1 >= row.maxAttempts then FailedDead else FailedRetry, Some(w), s.now)
    case Reclaim => Event(Reclaimed, None, s.now)
    case Requeue => Event(Requeued, None, s.now)
    case BuryUnknown(_) => Event(Buried, None, s.now)
    case Retry(_) => Event(Revived, None, s.now)
  }

  /** The statement changes row `j`. */
  ghost predicate Affects(t: Table, s: Step, j: JobId) {
    !Refused(t, s) && j in t && Selects(t[j], s, j)
  }

  ghost function EventOf(t: Table, s: Step, j: JobId): Option<Event> {
    if Affects(t, s, j) then Some(EventFor(t[j], s))
    else if j !in t && j in Apply(t, s) then Some(Event(Created, None, s.now))
    else None
  }

  // ---- Runs

  /** A run, as its steps in order: what came before, and the latest step. */
  datatype Run = Start | Then(before: Run, last: Step)

  /** The table at the end of a run that starts from the empty table. */
  ghost function After(run: Run): Table {
    match run
    case Start => map[]
    case Then(before, s) => Apply(After(before), s)
  }

  ghost predicate NotBefore(now: Time, run: Run) {
    run.Then? ==> run.last.now <= now
  }

  /** Every step is one the database allows, and no step's clock reading is earlier than the one
      before it. */
  ghost predicate Legal(run: Run) {
    match run
    case Start => true
    case Then(before, s) => Legal(before) && NotBefore(s.now, before) && Enabled(After(before), s)
  }

  /** `late` continues `early`. */
  ghost predicate Extends(late: Run, early: Run) {
    late == early || (late.Then? && Extends(late.before, early))
  }

  /** What the latest step did to job `j`. */
  ghost function Latest(run: Run, j: JobId): Option<Event> {
    match run
    case Start => None
    case Then(before, s) => EventOf(After(before), s, j)
  }

  ghost predicate EndsWith(run: Run, j: JobId, k: Kind) {
    Latest(run, j).Some? && Latest(run, j).value.kind == k
  }

  /** Everything that happened to job `j`, oldest first. */
  ghost function History(run: Run, j: JobId): seq<Event> {
    match run
    case Start => []
    case Then(before, s) =>
      match EventOf(After(before), s, j)
      case None => History(before, j)
      case Some(e) => History(before, j) + [e]
  }

  // ---- Readings of a history

  ghost function Count(h: seq<Event>, k: Kind): nat {
    if h == [] then 0 else Count(h[..|h| - 1], k) + (if h[|h| - 1].kind == k then 1 else 0)
  }

  ghost function Failures(h: seq<Event>): nat {
    Count(h, FailedRetry) + Count(h, FailedDead)
  }

  /** Who holds the lease: the worker of the latest grant, unless it has been given up or taken since. */
  ghost function Holder(h: seq<Event>): Option<Worker> {
    if h == [] then None
    else
      var e := h[|h| - 1];
      match e.kind
      case Granted => e.actor
      case Completed => None
      case FailedRetry => None
      case FailedDead => None
      case Reclaimed => None
      case _ => Holder(h[..|h| - 1])
  }

  /** When the lease was last granted or renewed. */
  ghost function LastTouch(h: seq<Event>): Option<Time> {
    if h == [] then None
    else if h[|h| - 1].kind.Granted? || h[|h| - 1].kind.Renewed? then Some(h[|h| - 1].now)
    else LastTouch(h[..|h| - 1])
  }

  /** The times of the job's failures, oldest first. */
  ghost function FailTimes(h: seq<Event>): seq<Time> {
    if h == [] then []
    else if h[|h| - 1].kind.FailedRetry? || h[|h| - 1].kind.FailedDead? then FailTimes(h[..|h| - 1]) + [h[|h| - 1].now]
    else FailTimes(h[..|h| - 1])
  }

  // ---- What every step keeps of one row and its history

  ghost predicate LedgerInv(row: Job, h: seq<Event>) {
    && row.maxAttempts >= 1
    && row.attempts == Failures(h) == |FailTimes(h)|
    && Count(h, Granted) == Failures(h) + Count(h, Completed) + Count(h, Reclaimed)
      + (if row.status == Leased then 1 else 0)
    && Count(h, Completed) == (if row.status == Succeeded then 1 else 0)
    && Failures(h) + (if row.status == DeadLetter then 0 else 1) <= row.maxAttempts + Count(h, Revived)
  }

  ghost predicate LeaseInv(row: Job, h: seq<Event>) {
    && row.status != Failed
    && row.leasedBy == Holder(h)
    && (row.status == Leased <==> Holder(h).Some?)
    && (row.status == Leased ==> LastTouch(h).Some? && row.leaseExpiry == Some(LastTouch(h).value + LEASE_DURATION))
  }

  /** Each failure but the last keeps its distance from the one before, while attempts remain. */
  ghost predicate Spaced(times: seq<Time>, m: int) {
    forall k :: 0 < k < |times| && k < m ==> Apart(times, k)
  }

  ghost predicate Apart(times: seq<Time>, k: int)
    requires 0 < k < |times|
  {
    times[k] >= times[k - 1] + Backoff(k)
  }

  ghost predicate TimeInv(row: Job, h: seq<Event>, clock: Time) {
    var times := FailTimes(h);
    && ((row.status == Queued || row.status == Leased) && row.scheduledAt.Some? ==> row.scheduledAt.value <= clock)
    && (row.status == RetryScheduled ==>
          && 0 < |times| < row.maxAttempts
          && row.scheduledAt == Some(times[|times| - 1] + Backoff(|times|)))
    && (0 < |times| < row.maxAttempts && row.status != RetryScheduled ==>
          times[|times| - 1] + Backoff(|times|) <= clock)
    && Spaced(times, row.maxAttempts)
  }

  ghost predicate RowInv(row: Job, h: seq<Event>, clock: Time) {
    LedgerInv(row, h) && LeaseInv(row, h) && TimeInv(row, h, clock)
  }

  lemma SnocReadings(h: seq<Event>, e: Event)
    ensures forall k :: Count(h + [e], k) == Count(h, k) + (if e.kind == k then 1 else 0)
    ensures Holder(h + [e]) ==
            (match e.kind
             case Granted => e.actor
             case Completed => None
             case FailedRetry => None
             case FailedDead => None
             case Reclaimed => None
             case _ => Holder(h))
    ensures LastTouch(h + [e]) == if e.kind.Granted? || e.kind.Renewed? then Some(e.now) else LastTouch(h)
    ensures FailTimes(h + [e]) ==
            if e.kind.FailedRetry? || e.kind.FailedDead? then FailTimes(h) + [e.now] else FailTimes(h)
  {
    assert (h + [e])[..|h|] == h;
  }

  lemma SelectedKeepsLedger(row: Job, s: Step, j: JobId, h: seq<Event>)
    requires LedgerInv(row, h) && Selects(row, s, j)
    requires s.op.Lease? ==> row.status == Queued
    ensures LedgerInv(Updated(row, s), h + [EventFor(row, s)])
  {
    var e := EventFor(row, s);
    SnocReadings(h, e);
    if s.op.Fail? {
      assert Failures(h + [e]) == Failures(h) + 1;
    } else {
      assert Failures(h + [e]) == Failures(h);
    }
  }

  lemma SelectedKeepsLease(row: Job, s: Step, j: JobId, h: seq<Event>)
    requires LeaseInv(row, h) && Selects(row, s, j)
    requires s.op.Lease? ==> row.status == Queued
    ensures LeaseInv(Updated(row, s), h + [EventFor(row, s)])
  {
    SnocReadings(h, EventFor(row, s));
  }

  lemma SpacedSnoc(times: seq<Time>, now: Time, m: int)
    requires Spaced(times, m)
    requires 0 < |times| < m ==> times[|times| - 1] + Backoff(|times|) <= now
    ensures Spaced(times + [now], m)
  {
    forall k | 0 < k < |times + [now]| && k < m
      ensures Apart(times + [now], k)
    {
      if k < |times| { assert Apart(times, k); }
    }
  }

  lemma FailureKeepsTime(row: Job, s: Step, h: seq<Event>)
    requires TimeInv(row, h, s.now) && row.attempts == |FailTimes(h)| && row.status == Leased
    requires s.op.Fail?
    ensures TimeInv(Updated(row, s), h + [EventFor(row, s)], s.now)
  {
    var times, later := FailTimes(h), FailTimes(h + [EventFor(row, s)]);
    assert later == times + [s.now] by { FailTimesSnoc(h, EventFor(row, s)); }
    assert Spaced(later, row.maxAttempts) by { SpacedSnoc(times, s.now, row.maxAttempts); }
    assert |later| == Updated(row, s).attempts && later[|later| - 1] == s.now;
  }

  lemma FailTimesSnoc(h: seq<Event>, e: Event)
    ensures FailTimes(h + [e]) ==
            if e.kind.FailedRetry? || e.kind.FailedDead? then FailTimes(h) + [e.now] else FailTimes(h)
  {
    assert (h + [e])[..|h|] == h;
  }

  lemma SelectedKeepsTime(row: Job, s: Step, j: JobId, h: seq<Event>)
    requires TimeInv(row, h, s.now) && row.attempts == |FailTimes(h)| && Selects(row, s, j)
    requires s.op.Lease? ==> Leasable(row, s.op.jobTypes, s.now)
    ensures TimeInv(Updated(row, s), h + [EventFor(row, s)], s.now)
  {
    if s.op.Fail? {
      FailureKeepsTime(row, s, h);
    } else {
      FailTimesSnoc(h, EventFor(row, s));
    }
  }

  /** A step that selects a row keeps its invariant, with the event added to the history. */
  lemma SelectedKeeps(row: Job, s: Step, j: JobId, h: seq<Event>)
    requires RowInv(row, h, s.now)
    requires Selects(row, s, j)
    requires s.op.Lease? ==> Leasable(row, s.op.jobTypes, s.now)
    ensures RowInv(Updated(row, s), h + [EventFor(row, s)], s.now)
  {
    SelectedKeepsLedger(row, s, j, h);
    SelectedKeepsLease(row, s, j, h);
    SelectedKeepsTime(row, s, j, h);
  }

  lemma NewKeeps(p: EnqueueParams, now: Time)
    ensures RowInv(NewJob(p, now), [Event(Created, None, now)], now)
  {
    SnocReadings([], Event(Created, None, now));
    assert [] + [Event(Created, None, now)] == [Event(Created, None, now)];
  }

  ghost predicate TableInv(run: Run, clock: Time) {
    var t := After(run);
    && (forall j :: j in t ==> RowInv(t[j], History(run, j), clock))
    && (forall j :: j !in t ==> History(run, j) == [])
    && UniqueIndex(t)
  }

  lemma StepKeepsRow(t: Table, s: Step, j: JobId, h: seq<Event>)
    requires j in t ==> RowInv(t[j], h, s.now)
    requires j !in t ==> h == []
    requires Enabled(t, s)
    ensures var h' := match EventOf(t, s, j) case None => h case Some(e) => h + [e];
            var t' := Apply(t, s);
            if j in t' then RowInv(t'[j], h', s.now) else h' == []
  {
    StepCases(t, s, j);
    if Affects(t, s, j) {
      SelectedKeeps(t[j], s, j, h);
    } else if j !in t && j in Apply(t, s) {
      NewKeeps(s.op.params, s.now);
    }
  }

  /** What a step does to one row, and the event it is. */
  lemma StepCases(t: Table, s: Step, j: JobId)
    requires Enabled(t, s)
    ensures var t', e := Apply(t, s), EventOf(t, s, j);
            if Affects(t, s, j) then
              && j in t' && t'[j] == Updated(t[j], s) && e == Some(EventFor(t[j], s))
              && (s.op.Lease? ==> Leasable(t[j], s.op.jobTypes, s.now))
            else if j in t then
              j in t' && t'[j] == t[j] && e == None
            else if j in t' then
              s.op.Enqueue? && t'[j] == NewJob(s.op.params, s.now) && e == Some(Event(Created, None, s.now))
            else
              e == None
  {
  }

  /** The invariant holds in every reachable state, read at any clock value the run allows. */
  lemma {:induction false} Reachable(run: Run, clock: Time)
    requires Legal(run) && NotBefore(clock, run)
    ensures TableInv(run, clock)
    decreases run
  {
    match run
    case Start =>
    case Then(before, s) =>
      Reachable(before, s.now);
      forall j
        ensures if j in After(run) then RowInv(After(run)[j], History(run, j), s.now) else History(run, j) == []
      {
        StepKeepsRow(After(before), s, j, History(before, j));
      }
  }

  // The parts of the invariant of one row

  lemma ReachableLedger(run: Run, j: JobId)
    requires Legal(run) && j in After(run)
    ensures LedgerInv(After(run)[j], History(run, j))
  {
    Reachable(run, run.last.now);
  }

  lemma ReachableLease(run: Run, j: JobId)
    requires Legal(run)
    ensures if j in After(run) then LeaseInv(After(run)[j], History(run, j)) else History(run, j) == []
  {
    if run.Then? { Reachable(run, run.last.now); }
  }

  lemma ReachableTime(run: Run, clock: Time, j: JobId)
    requires Legal(run) && NotBefore(clock, run) && j in After(run)
    ensures TimeInv(After(run)[j], History(run, j), clock)
  {
    Reachable(run, clock);
  }

  lemma RowStep(t: Table, s: Step, j: JobId)
    requires j in t && Enabled(t, s)
    ensures j in Apply(t, s)
    ensures Apply(t, s)[j] == if Affects(t, s, j) then Updated(t[j], s) else t[j]
  {
  }

  /** A run's earlier stages are runs, and their clocks lie in the past. */
  lemma {:induction false} Earlier(late: Run, early: Run)
    requires Legal(late) && Extends(late, early)
    ensures Legal(early)
    ensures late.Then? ==> NotBefore(late.last.now, early)
  {
    if late != early {
      Earlier(late.before, early);
    }
  }
}
