/** Where rows come from, and the order in which jobs are granted: by the priority and the time of
    their enqueue statements. */
module JobOrder {
  import opened Options
  import opened Jobs
  import opened JobRuns
  import opened JobLeases

  /** The stage ends with the enqueue statement that inserts `j`. */
  ghost predicate Inserts(stage: Run, j: JobId) {
    && stage.Then? && stage.last.op.Enqueue? && stage.last.op.newId == j
    && j !in After(stage.before) && j in After(stage)
  }

  /** The row carries what the enqueue statement asked for. */
  ghost predicate ComesFrom(row: Job, s: Step)
    requires s.op.Enqueue?
  {
    var p := s.op.params;
    && row.sourceTask == p.sourceTask && row.jobType == p.jobType && row.priority == p.priority
    && row.dedupeKey == p.dedupeKey && row.createdAt == s.now
    && row.maxAttempts == (if p.maxAttempts <= 0 then 3 else p.maxAttempts)
  }

  lemma UpdateKeepsOrigin(row: Job, s: Step, e: Step)
    requires e.op.Enqueue? && ComesFrom(row, e)
    ensures ComesFrom(Updated(row, s), e)
  {
  }

  /** Task, type, priority, key, creation time and attempt limit of a row never change. */
  lemma {:induction false} OriginKept(run: Run, j: JobId, stage: Run)
    requires Legal(run) && Extends(run, stage) && Inserts(stage, j)
    ensures j in After(run) && ComesFrom(After(run)[j], stage.last)
    decreases run
  {
    if run != stage {
      var t := After(run.before);
      OriginKept(run.before, j, stage);
      RowStep(t, run.last, j);
      UpdateKeepsOrigin(t[j], run.last, stage.last);
    }
  }

  /** In every reachable state, every row was inserted by an enqueue statement of the run. */
  lemma {:induction false} RowHasOrigin(run: Run, j: JobId) returns (stage: Run)
    requires Legal(run) && j in After(run)
    ensures Extends(run, stage) && Inserts(stage, j) && ComesFrom(After(run)[j], stage.last)
  {
    if j in After(run.before) {
      stage := RowHasOrigin(run.before, j);
      OriginKept(run, j, stage);
    } else {
      stage := run;
    }
  }

  /** In every run, when a job is granted, every job that is queued at that moment, of a wanted type and
      not locked was enqueued with no higher priority, and with the same priority no earlier. */
  lemma GrantsGoInOrder(run: Run, p: JobId, j: JobId, granted: Run, waiting: Run)
    requires Legal(run) && run.Then? && run.last.op.Lease? && run.last.op.pick == Some(p)
    requires Extends(run.before, granted) && Inserts(granted, p)
    requires Extends(run.before, waiting) && Inserts(waiting, j)
    requires j in After(run.before) && After(run.before)[j].status == Queued && j !in run.last.op.locked
    requires waiting.last.op.params.jobType in run.last.op.jobTypes
    ensures var a, b := granted.last.op.params, waiting.last.op.params;
            && b.priority <= a.priority
            && (b.priority == a.priority ==> granted.last.now <= waiting.last.now)
  {
    OriginKept(run.before, p, granted);
    OriginKept(run.before, j, waiting);
    QueuedIsLeasable(run.before, run.last.now, j, run.last.op.jobTypes);
    PickedFirst(After(run.before), run.last, p, j);
  }

  lemma PickedFirst(t: Table, s: Step, p: JobId, j: JobId)
    requires Enabled(t, s) && s.op.Lease? && s.op.pick == Some(p)
    requires Candidate(t, s.op.jobTypes, s.op.locked, s.now, j)
    ensures p in t && t[j].priority <= t[p].priority
    ensures t[j].priority == t[p].priority ==> t[p].createdAt <= t[j].createdAt
  {
    assert !Outranks(t[j], t[p]);
  }
}
