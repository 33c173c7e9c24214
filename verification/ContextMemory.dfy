/** The contextual outcome counters and the feedback drawn from them, against the log of outcomes. */
module ContextMemory {
  import opened Options
  import opened ActionMemory

  datatype Key = Key(action: string, goal: string, job: string, failure: string, backlog: string)

  datatype Row = Row(
    total: int, success: int, failure: int, neutral: int, successRate: real, failureRate: real, lastUpdated: Time)

  datatype Outcome = Outcome(key: Key, status: string)

  function SuccessInc(status: string): int { if status == "success" then 1 else 0 }
  function FailureInc(status: string): int { if status == "failure" then 1 else 0 }

  /** Everything that is neither success nor failure counts as neutral. */
  function NeutralInc(status: string): int { if status == "success" || status == "failure" then 0 else 1 }

  // ---- Counting in the log

  /** How many logged outcomes satisfy `p`. */
  function CountLog(log: seq<Outcome>, p: Outcome -> bool): int {
    if log == [] then 0
    else CountLog(log[..|log| - 1], p) + (if p(log[|log| - 1]) then 1 else 0)
  }

  function Any(): string -> bool { (s: string) => true }
  function Successes(): string -> bool { (s: string) => s == "success" }
  function Failures(): string -> bool { (s: string) => s == "failure" }
  function Neutrals(): string -> bool { (s: string) => s != "success" && s != "failure" }

  function Of(k: Key, status: string -> bool): Outcome -> bool {
    (o: Outcome) => o.key == k && status(o.status)
  }

  /** Outcomes of the keys that `m` accepts. */
  function InContext(m: Key -> bool, status: string -> bool): Outcome -> bool {
    (o: Outcome) => m(o.key) && status(o.status)
  }

  /** The row counts the log's outcomes of its key, by status, and its rates are the quotients. */
  ghost predicate Counts(row: Row, log: seq<Outcome>, k: Key) {
    && row.total == CountLog(log, Of(k, Any())) > 0
    && row.success == CountLog(log, Of(k, Successes()))
    && row.failure == CountLog(log, Of(k, Failures()))
    && row.neutral == CountLog(log, Of(k, Neutrals()))
    && row.success + row.failure + row.neutral == row.total
    && row.success >= 0 && row.failure >= 0 && row.neutral >= 0
    && row.successRate == Rate(row.success, row.total)
    && row.failureRate == Rate(row.failure, row.total)
  }

  /** The rows are what the log of all updates amounts to. */
  ghost predicate Consistent(rows: map<Key, Row>, log: seq<Outcome>) {
    && (forall k :: k in rows ==> Counts(rows[k], log, k))
    && (forall k :: k !in rows ==> CountLog(log, Of(k, Any())) == 0)
  }

  class Store {
    var rows: map<Key, Row>
    ghost var log: seq<Outcome>

    ghost predicate Valid()
      reads this
    {
      Consistent(rows, log)
    }

    constructor ()
      ensures Valid() && rows == map[] && log == []
    {
      rows := map[];
      log := [];
    }

    /** Adds one outcome to its row, creating the row if need be. */
    method UpdateContext(o: Outcome, now: Time)
      requires Valid()
      modifies this
      ensures Valid() && log == old(log) + [o]
      ensures o.key in rows && rows == old(rows)[o.key := rows[o.key]] && rows[o.key].lastUpdated == now
    {
      var row := Upserted(if o.key in rows then Some(rows[o.key]) else None, o, now);
      UpsertKeeps(rows, log, o, now);
      rows := rows[o.key := row];
      log := log + [o];
    }
  }

  /** The row the upsert leaves: a first row, or the old one with one more outcome. */
  function Upserted(prior: Option<Row>, o: Outcome, now: Time): Row
    requires prior.Some? ==> prior.value.total > 0
  {
    var succ, fail, neut := SuccessInc(o.status), FailureInc(o.status), NeutralInc(o.status);
    match prior
    case None => Row(1, succ, fail, neut, succ as real, fail as real, now)
    case Some(r) =>
      Row(r.total + 1, r.success + succ, r.failure + fail, r.neutral + neut,
          Rate(r.success + succ, r.total + 1), Rate(r.failure + fail, r.total + 1), now)
  }

  lemma UpsertKeeps(rows: map<Key, Row>, log: seq<Outcome>, o: Outcome, now: Time)
    requires Consistent(rows, log)
    ensures var prior := if o.key in rows then Some(rows[o.key]) else None;
            Consistent(rows[o.key := Upserted(prior, o, now)], log + [o])
  {
    UpsertedCounts(log, if o.key in rows then Some(rows[o.key]) else None, o, now);
    forall k | k != o.key
      ensures k in rows ==> Counts(rows[k], log + [o], k)
      ensures k !in rows ==> CountLog(log + [o], Of(k, Any())) == 0
    {
      CountsStep(log, o, k);
    }
  }

  lemma UpsertedCounts(log: seq<Outcome>, prior: Option<Row>, o: Outcome, now: Time)
    requires if prior.Some? then Counts(prior.value, log, o.key) else CountLog(log, Of(o.key, Any())) == 0
    ensures Counts(Upserted(prior, o, now), log + [o], o.key)
  {
    if prior.None? { AbsentCounts(log, o.key); }
    CountsStep(log, o, o.key);
  }

  lemma CountSnoc(log: seq<Outcome>, o: Outcome, p: Outcome -> bool)
    ensures CountLog(log + [o], p) == CountLog(log, p) + (if p(o) then 1 else 0)
  {
    assert (log + [o])[..|log|] == log;
  }

  lemma CountsStep(log: seq<Outcome>, o: Outcome, k: Key)
    ensures CountLog(log + [o], Of(k, Any())) == CountLog(log, Of(k, Any())) + (if o.key == k then 1 else 0)
    ensures CountLog(log + [o], Of(k, Successes())) ==
            CountLog(log, Of(k, Successes())) + (if o.key == k then SuccessInc(o.status) else 0)
    ensures CountLog(log + [o], Of(k, Failures())) ==
            CountLog(log, Of(k, Failures())) + (if o.key == k then FailureInc(o.status) else 0)
    ensures CountLog(log + [o], Of(k, Neutrals())) ==
            CountLog(log, Of(k, Neutrals())) + (if o.key == k then NeutralInc(o.status) else 0)
  {
    CountSnoc(log, o, Of(k, Any()));
    CountSnoc(log, o, Of(k, Successes()));
    CountSnoc(log, o, Of(k, Failures()));
    CountSnoc(log, o, Of(k, Neutrals()));
  }

  lemma {:induction false} AbsentCounts(log: seq<Outcome>, k: Key)
    requires CountLog(log, Of(k, Any())) == 0
    ensures CountLog(log, Of(k, Successes())) == 0
    ensures CountLog(log, Of(k, Failures())) == 0
    ensures CountLog(log, Of(k, Neutrals())) == 0
  {
    if log != [] {
      CountNonNegative(log[..|log| - 1], Of(k, Any()));
      AbsentCounts(log[..|log| - 1], k);
    }
  }

  lemma CountNonNegative(log: seq<Outcome>, p: Outcome -> bool)
    ensures CountLog(log, p) >= 0
  {
  }

  // ---- Reading the table

  datatype Record = Record(key: Key, row: Row)

  const LIST_LIMIT: int := 10000

  /** All rows of the table, each once, in some order. */
  ghost predicate Lists(all: seq<Record>, rows: map<Key, Row>) {
    && (forall i :: 0 <= i < |all| ==> all[i].key in rows && rows[all[i].key] == all[i].row)
    && DistinctKeys(all)
    && (forall k :: k in rows ==> Listed(all, k))
  }

  ghost predicate DistinctKeys(records: seq<Record>) {
    forall i, j :: 0 <= i < j < |records| ==> records[i].key != records[j].key
  }

  ghost predicate Listed(records: seq<Record>, k: Key) {
    exists i :: 0 <= i < |records| && records[i].key == k
  }

  /** The order of the listing; rows of equal totals come in any order. */
  ghost predicate ByTotal(all: seq<Record>) {
    forall i, j :: 0 <= i < j < |all| ==> all[i].row.total >= all[j].row.total
  }

  /** What the query returns of the whole ordered table. */
  function Limited(all: seq<Record>): seq<Record> {
    if |all| <= LIST_LIMIT then all else all[..LIST_LIMIT]
  }

  datatype Match = Exact | Partial

  datatype ContextualFeedback = ContextualFeedback(
    action: string, successRate: real, failureRate: real, sampleSize: int, rec: Recommendation, lastUpdated: Time,
    matched: Match)

  /** What is asked for; the job type is not part of it. */
  datatype Query = Query(action: string, goal: string, failure: string, backlog: string)

  /** The keys an exact match accepts. */
  function AtPoint(q: Query): Key -> bool {
    (k: Key) => k.action == q.action && k.goal == q.goal && k.failure == q.failure && k.backlog == q.backlog
  }

  /** The keys a partial match adds up. */
  function AtGoal(q: Query): Key -> bool {
    (k: Key) => k.action == q.action && k.goal == q.goal
  }

  /** A counter of the records that `m` accepts, added up. */
  function SumOver(records: seq<Record>, m: Key -> bool, f: Row -> int): int {
    if records == [] then 0
    else
      var r := records[|records| - 1];
      SumOver(records[..|records| - 1], m, f) + (if m(r.key) then f(r.row) else 0)
  }

  function TotalOf(): Row -> int { (r: Row) => r.total }
  function SuccessOf(): Row -> int { (r: Row) => r.success }
  function FailureOf(): Row -> int { (r: Row) => r.failure }

  /** Record `i` is the first one at the point asked for. */
  ghost predicate FirstExactAt(records: seq<Record>, q: Query, i: int) {
    0 <= i < |records| && AtPoint(q)(records[i].key) && forall j :: 0 <= j < i ==> !AtPoint(q)(records[j].key)
  }

  ghost predicate NoExact(records: seq<Record>, q: Query) {
    forall i :: 0 <= i < |records| ==> !AtPoint(q)(records[i].key)
  }

  function ExactFeedback(q: Query, row: Row): ContextualFeedback {
    ContextualFeedback(q.action, row.successRate, row.failureRate, row.total,
                       Recommend(row.total, row.successRate, row.failureRate), row.lastUpdated, Exact)
  }

  /** The feedback from three counters; the update time stays zero. */
  function PartialFeedback(q: Query, total: int, success: int, fails: int): Option<ContextualFeedback> {
    if total > 0 then
      var s, f := Rate(success, total), Rate(fails, total);
      Some(ContextualFeedback(q.action, s, f, total, Recommend(total, s, f), 0, Partial))
    else None
  }

  function PartialAnswer(records: seq<Record>, q: Query): Option<ContextualFeedback> {
    PartialFeedback(q, SumOver(records, AtGoal(q), TotalOf()), SumOver(records, AtGoal(q), SuccessOf()),
                    SumOver(records, AtGoal(q), FailureOf()))
  }

  /** The answer comes from the first record at the point asked for, if there is one, and else from
      the sums over the action and goal. */
  ghost predicate Answers(records: seq<Record>, q: Query, fb: Option<ContextualFeedback>) {
    if NoExact(records, q) then fb == PartialAnswer(records, q)
    else exists i :: FirstExactAt(records, q, i) && fb == Some(ExactFeedback(q, records[i].row))
  }

  /** The first record of the same action, goal and buckets, or else all records of the action and
      goal together, or else nothing. */
  method ResolveContextualFeedback(records: seq<Record>, q: Query) returns (fb: Option<ContextualFeedback>)
    ensures Answers(records, q, fb)
  {
    for i := 0 to |records|
      invariant forall j :: 0 <= j < i ==> !AtPoint(q)(records[j].key)
    {
      if AtPoint(q)(records[i].key) {
        assert FirstExactAt(records, q, i);
        return Some(ExactFeedback(q, records[i].row));
      }
    }
    var total, success, fails := 0, 0, 0;
    for i := 0 to |records|
      invariant total == SumOver(records[..i], AtGoal(q), TotalOf())
      invariant success == SumOver(records[..i], AtGoal(q), SuccessOf())
      invariant fails == SumOver(records[..i], AtGoal(q), FailureOf())
    {
      assert records[..i + 1][..i] == records[..i];
      var r := records[i];
      if AtGoal(q)(r.key) {
        total, success, fails := total + r.row.total, success + r.row.success, fails + r.row.failure;
      }
    }
    assert records[..|records|] == records;
    return PartialFeedback(q, total, success, fails);
  }

  // ---- The table's sums are counts over the log

  /** How many of the listed keys that `m` accepts are `k`. */
  function KeyCount(records: seq<Record>, m: Key -> bool, k: Key): int {
    if records == [] then 0
    else KeyCount(records[..|records| - 1], m, k) + (if records[|records| - 1].key == k && m(k) then 1 else 0)
  }

  /** The counts in the log of all listed keys that `m` accepts, added up. */
  function SumCounts(records: seq<Record>, m: Key -> bool, log: seq<Outcome>, status: string -> bool): int {
    if records == [] then 0
    else
      var r := records[|records| - 1];
      SumCounts(records[..|records| - 1], m, log, status) + (if m(r.key) then CountLog(log, Of(r.key, status)) else 0)
  }

  lemma {:induction false} SumCountsEmpty(records: seq<Record>, m: Key -> bool, status: string -> bool)
    ensures SumCounts(records, m, [], status) == 0
  {
    if records != [] { SumCountsEmpty(records[..|records| - 1], m, status); }
  }

  lemma {:induction false} SumCountsSnoc(
    records: seq<Record>, m: Key -> bool, log: seq<Outcome>, o: Outcome, status: string -> bool)
    ensures SumCounts(records, m, log + [o], status) ==
            SumCounts(records, m, log, status) + (if status(o.status) then KeyCount(records, m, o.key) else 0)
  {
    if records != [] {
      var r := records[|records| - 1];
      SumCountsSnoc(records[..|records| - 1], m, log, o, status);
      CountSnoc(log, o, Of(r.key, status));
    }
  }

  lemma {:induction false} DistinctKeyCount(records: seq<Record>, m: Key -> bool, k: Key)
    requires DistinctKeys(records)
    ensures KeyCount(records, m, k) == if m(k) && Listed(records, k) then 1 else 0
  {
    if records != [] {
      var front := records[..|records| - 1];
      DistinctKeyCount(front, m, k);
      assert forall i :: 0 <= i < |front| ==> front[i] == records[i];
      if i :| 0 <= i < |front| && front[i].key == k { assert records[i].key == k; }
    }
  }

  /** When all keys of the log are listed once, adding up their counts counts the log itself. */
  lemma {:induction false} SumCountsIsCount(
    records: seq<Record>, m: Key -> bool, log: seq<Outcome>, status: string -> bool)
    requires DistinctKeys(records) && forall o :: o in log ==> Listed(records, o.key)
    ensures SumCounts(records, m, log, status) == CountLog(log, InContext(m, status))
  {
    if log == [] {
      SumCountsEmpty(records, m, status);
    } else {
      var front, o := log[..|log| - 1], log[|log| - 1];
      assert log == front + [o];
      assert forall x :: x in front ==> x in log;
      SumCountsIsCount(records, m, front, status);
      SumCountsSnoc(records, m, front, o, status);
      assert o in log;
      DistinctKeyCount(records, m, o.key);
    }
  }

  ghost predicate RowsCount(records: seq<Record>, log: seq<Outcome>, f: Row -> int, status: string -> bool) {
    forall i :: 0 <= i < |records| ==> f(records[i].row) == CountLog(log, Of(records[i].key, status))
  }

  lemma {:induction false} SumOverIsSumCounts(
    records: seq<Record>, m: Key -> bool, f: Row -> int, log: seq<Outcome>, status: string -> bool)
    requires RowsCount(records, log, f, status)
    ensures SumOver(records, m, f) == SumCounts(records, m, log, status)
  {
    if records != [] { SumOverIsSumCounts(records[..|records| - 1], m, f, log, status); }
  }

  lemma {:induction false} Logged(log: seq<Outcome>, o: Outcome)
    requires o in log
    ensures CountLog(log, Of(o.key, Any())) > 0
  {
    var front := log[..|log| - 1];
    assert log == front + [log[|log| - 1]];
    CountNonNegative(front, Of(o.key, Any()));
    if o in front { Logged(front, o); }
  }

  /** In every reachable store, whatever order the table is listed in, a sum over the records that
      `m` accepts is the number of logged outcomes of those keys. */
  lemma SumsCountTheLog(rows: map<Key, Row>, log: seq<Outcome>, all: seq<Record>, m: Key -> bool)
    requires Consistent(rows, log) && Lists(all, rows)
    ensures SumOver(all, m, TotalOf()) == CountLog(log, InContext(m, Any()))
    ensures SumOver(all, m, SuccessOf()) == CountLog(log, InContext(m, Successes()))
    ensures SumOver(all, m, FailureOf()) == CountLog(log, InContext(m, Failures()))
  {
    forall o | o in log ensures Listed(all, o.key) { Logged(log, o); }
    SumOverIsSumCounts(all, m, TotalOf(), log, Any());
    SumOverIsSumCounts(all, m, SuccessOf(), log, Successes());
    SumOverIsSumCounts(all, m, FailureOf(), log, Failures());
    SumCountsIsCount(all, m, log, Any());
    SumCountsIsCount(all, m, log, Successes());
    SumCountsIsCount(all, m, log, Failures());
  }

  // ---- What the listing's limit cuts off

  ghost predicate Accepts(records: seq<Record>, m: Key -> bool) {
    exists i :: 0 <= i < |records| && m(records[i].key)
  }

  lemma {:induction false} SumOverConcat(a: seq<Record>, b: seq<Record>, m: Key -> bool, f: Row -> int)
    ensures SumOver(a + b, m, f) == SumOver(a, m, f) + SumOver(b, m, f)
  {
    if b == [] {
      assert a + b == a;
    } else {
      assert (a + b)[..|a + b| - 1] == a + b[..|b| - 1];
      SumOverConcat(a, b[..|b| - 1], m, f);
    }
  }

  lemma {:induction false} PositiveSum(records: seq<Record>, m: Key -> bool)
    requires forall i :: 0 <= i < |records| ==> records[i].row.total > 0
    ensures SumOver(records, m, TotalOf()) >= 0
    ensures SumOver(records, m, TotalOf()) > 0 <==> Accepts(records, m)
  {
    if records != [] {
      var front := records[..|records| - 1];
      PositiveSum(front, m);
      assert forall i :: 0 <= i < |front| ==> front[i] == records[i];
      if i :| 0 <= i < |front| && m(front[i].key) { assert m(records[i].key); }
    }
  }

  lemma {:induction false} UnacceptedSum(records: seq<Record>, m: Key -> bool, f: Row -> int)
    requires !Accepts(records, m)
    ensures SumOver(records, m, f) == 0
  {
    if records != [] {
      var front := records[..|records| - 1];
      assert forall i :: 0 <= i < |front| ==> front[i] == records[i];
      UnacceptedSum(front, m, f);
    }
  }

  /** The records the limit cuts off. */
  function CutOff(all: seq<Record>): seq<Record> {
    all[|Limited(all)|..]
  }

  /** What the partial match answers for a store with this log, if its listing is complete. */
  function LogAnswer(log: seq<Outcome>, q: Query): Option<ContextualFeedback> {
    PartialFeedback(q, CountLog(log, InContext(AtGoal(q), Any())), CountLog(log, InContext(AtGoal(q), Successes())),
                    CountLog(log, InContext(AtGoal(q), Failures())))
  }

  /** In every reachable store and whatever the order of the listing, the partial match's answer,
      recommendation, rates and sample size, is the one the logged outcomes of the action and goal
      call for, if and only if the limit cuts off no record of them. */
  lemma PartialAnswersFromLogIff(rows: map<Key, Row>, log: seq<Outcome>, all: seq<Record>, q: Query)
    requires Consistent(rows, log) && Lists(all, rows)
    ensures PartialAnswer(Limited(all), q) == LogAnswer(log, q) <==> !Accepts(CutOff(all), AtGoal(q))
  {
    var m, records := AtGoal(q), Limited(all);
    SumsCountTheLog(rows, log, all, m);
    SplitSum(all, m, TotalOf());
    SplitSum(all, m, SuccessOf());
    SplitSum(all, m, FailureOf());
    CutTotals(rows, log, all, m);
    SmallerSampleDiffers(q, SumOver(records, m, TotalOf()), SumOver(records, m, SuccessOf()),
                         SumOver(records, m, FailureOf()), SumOver(all, m, TotalOf()), SumOver(all, m, SuccessOf()),
                         SumOver(all, m, FailureOf()));
  }

  lemma SplitSum(all: seq<Record>, m: Key -> bool, f: Row -> int)
    ensures SumOver(all, m, f) == SumOver(Limited(all), m, f) + SumOver(CutOff(all), m, f)
    ensures !Accepts(CutOff(all), m) ==> SumOver(CutOff(all), m, f) == 0
  {
    assert all == Limited(all) + CutOff(all);
    SumOverConcat(Limited(all), CutOff(all), m, f);
    if !Accepts(CutOff(all), m) { UnacceptedSum(CutOff(all), m, f); }
  }

  lemma CutTotals(rows: map<Key, Row>, log: seq<Outcome>, all: seq<Record>, m: Key -> bool)
    requires Consistent(rows, log) && Lists(all, rows)
    ensures SumOver(Limited(all), m, TotalOf()) >= 0
    ensures Accepts(CutOff(all), m) ==> SumOver(CutOff(all), m, TotalOf()) > 0
  {
    PositiveTotals(rows, log, all);
    PositiveSum(Limited(all), m);
    PositiveSum(CutOff(all), m);
  }

  lemma SmallerSampleDiffers(q: Query, t: int, s: int, f: int, t': int, s': int, f': int)
    requires 0 <= t
    ensures t < t' ==> PartialFeedback(q, t, s, f) != PartialFeedback(q, t', s', f')
  {
  }

  lemma PositiveTotals(rows: map<Key, Row>, log: seq<Outcome>, all: seq<Record>)
    requires Consistent(rows, log) && Lists(all, rows)
    ensures forall i :: 0 <= i < |all| ==> all[i].row.total > 0
  {
    forall i | 0 <= i < |all| ensures all[i].row.total > 0 {
      assert Counts(rows[all[i].key], log, all[i].key);
    }
  }

  // ---- What the answers say of the log

  /** Logged outcomes of an action and goal. */
  function Concerning(q: Query, status: string -> bool): Outcome -> bool {
    (o: Outcome) => o.key.action == q.action && o.key.goal == q.goal && status(o.status)
  }

  /** The feedback reports these runs, successes and failures, and recommends what they call for. */
  ghost predicate Tells(fb: ContextualFeedback, q: Query, t: int, s: int, f: int) {
    && fb.action == q.action && fb.sampleSize == t && Says(fb.rec, t, s, f)
    && fb.successRate * t as real == s as real && fb.failureRate * t as real == f as real
  }

  lemma PartialFeedbackTells(q: Query, t: int, s: int, f: int)
    ensures t > 0 <==> PartialFeedback(q, t, s, f).Some?
    ensures t > 0 ==> var fb := PartialFeedback(q, t, s, f).value;
                      Tells(fb, q, t, s, f) && fb.matched == Partial && fb.lastUpdated == 0
  {
    if t > 0 {
      RecommendSays(t, s, f);
      RateCounts(s, t);
      RateCounts(f, t);
    }
  }

  lemma {:induction false} CountExt(log: seq<Outcome>, p: Outcome -> bool, q: Outcome -> bool)
    requires forall o :: p(o) == q(o)
    ensures CountLog(log, p) == CountLog(log, q)
  {
    if log != [] { CountExt(log[..|log| - 1], p, q); }
  }

  /** A partial answer from a listing that cuts off no record of the action and goal tells the logged
      runs, successes and failures of them; there is none exactly when nothing was logged. */
  lemma PartialAnswerTells(rows: map<Key, Row>, log: seq<Outcome>, all: seq<Record>, q: Query)
    requires Consistent(rows, log) && Lists(all, rows)
    requires forall i :: 0 <= i < |CutOff(all)| ==>
               !(CutOff(all)[i].key.action == q.action && CutOff(all)[i].key.goal == q.goal)
    ensures var fb, t := PartialAnswer(Limited(all), q), CountLog(log, Concerning(q, Any()));
            && (fb.Some? <==> t > 0)
            && (fb.Some? ==>
                  && fb.value.matched == Partial && fb.value.lastUpdated == 0
                  && Tells(fb.value, q, t, CountLog(log, Concerning(q, Successes())),
                           CountLog(log, Concerning(q, Failures()))))
  {
    PartialAnswersFromLogIff(rows, log, all, q);
    CountExt(log, InContext(AtGoal(q), Any()), Concerning(q, Any()));
    CountExt(log, InContext(AtGoal(q), Successes()), Concerning(q, Successes()));
    CountExt(log, InContext(AtGoal(q), Failures()), Concerning(q, Failures()));
    PartialFeedbackTells(q, CountLog(log, Concerning(q, Any())), CountLog(log, Concerning(q, Successes())),
                         CountLog(log, Concerning(q, Failures())));
  }

  /** An exact answer tells the logged runs, successes and failures of one key that has the action, goal
      and buckets asked for. */
  lemma ExactAnswerTells(rows: map<Key, Row>, log: seq<Outcome>, all: seq<Record>, q: Query,
                         fb: Option<ContextualFeedback>) returns (k: Key)
    requires Consistent(rows, log) && Lists(all, rows) && Answers(Limited(all), q, fb) && !NoExact(Limited(all), q)
    ensures k in rows && Key(q.action, q.goal, k.job, q.failure, q.backlog) == k
    ensures fb.Some? && fb.value.matched == Exact && fb.value.lastUpdated == rows[k].lastUpdated
    ensures Tells(fb.value, q, CountLog(log, Of(k, Any())), CountLog(log, Of(k, Successes())),
                  CountLog(log, Of(k, Failures())))
  {
    var i :| FirstExactAt(Limited(all), q, i) && fb == Some(ExactFeedback(q, Limited(all)[i].row));
    k := Limited(all)[i].key;
    assert k == all[i].key && rows[k] == all[i].row;
    assert Counts(rows[k], log, k);
    RowTells(rows[k], q);
  }

  lemma RowTells(row: Row, q: Query)
    requires row.total > 0
    requires row.successRate == Rate(row.success, row.total) && row.failureRate == Rate(row.failure, row.total)
    ensures Tells(ExactFeedback(q, row), q, row.total, row.success, row.failure)
  {
    RecommendSays(row.total, row.success, row.failure);
    RateCounts(row.success, row.total);
    RateCounts(row.failure, row.total);
  }

  // ---- What the sample size counts

  lemma {:induction false} CountsEqualIff(log: seq<Outcome>, p: Outcome -> bool, q: Outcome -> bool)
    requires forall o :: p(o) ==> q(o)
    ensures CountLog(log, p) <= CountLog(log, q)
    ensures CountLog(log, p) == CountLog(log, q) <==> forall o :: o in log && q(o) ==> p(o)
  {
    if log != [] {
      var front, o := log[..|log| - 1], log[|log| - 1];
      CountsEqualIff(front, p, q);
      assert log == front + [o];
    }
  }

  /** The sample size of an exact answer is the number of logged outcomes at the point asked for if
      and only if they all are of one job type. */
  lemma SampleCountsThePointIff(rows: map<Key, Row>, log: seq<Outcome>, q: Query, k: Key)
    requires Consistent(rows, log) && k in rows && AtPoint(q)(k)
    ensures ExactFeedback(q, rows[k]).sampleSize == CountLog(log, InContext(AtPoint(q), Any())) <==>
            forall o, o' :: o in log && o' in log && AtPoint(q)(o.key) && AtPoint(q)(o'.key) ==> o.key.job == o'.key.job
  {
    CountsEqualIff(log, Of(k, Any()), InContext(AtPoint(q), Any()));
    var o := LoggedOutcome(log, k);
  }

  lemma {:induction false} LoggedOutcome(log: seq<Outcome>, k: Key) returns (o: Outcome)
    requires CountLog(log, Of(k, Any())) > 0
    ensures o in log && o.key == k
  {
    var front, last := log[..|log| - 1], log[|log| - 1];
    assert log == front + [last];
    if last.key == k { o := last; } else { o := LoggedOutcome(front, k); }
  }
}
