/** The guardrails' duplicate check: a map of latest executions, pruned on every query, against the
    full log of executions. */
module Guardrails {
  import opened Options

  /** Nanoseconds. */
  type Time = int

  const DEDUPE_WINDOW: int := 2 * 60 * 1_000_000_000

  /** What the guardrails read of an action; parameters as they are printed. */
  datatype Action = Action(id: string, kind: string, params: map<string, string>)

  const RETRY_JOB := "retry_job"
  const TRIGGER_RESYNC := "trigger_resync"
  const LOG_RECOMMENDATION := "log_recommendation"

  /** A missing parameter prints as `<nil>`. */
  function Printed(params: map<string, string>, name: string): string {
    if name in params then params[name] else "<nil>"
  }

  function Tag(a: Action): string {
    if a.kind == RETRY_JOB then "retry" else if a.kind == TRIGGER_RESYNC then "resync" else a.kind
  }

  /** What the action is done to. */
  function Target(a: Action): string {
    if a.kind == RETRY_JOB then Printed(a.params, "job_id")
    else if a.kind == TRIGGER_RESYNC then Printed(a.params, "source_task_id")
    else a.id
  }

  function DedupeKey(a: Action): string {
    Tag(a) + ":" + Target(a)
  }

  /** The parameter is the same in both actions; a missing one prints like the text `<nil>`. */
  ghost predicate SameParam(a: Action, b: Action, name: string) {
    var x := if name in a.params then a.params[name] else "<nil>";
    var y := if name in b.params then b.params[name] else "<nil>";
    x == y
  }

  lemma ColonSplits(t: string, x: string, t': string, x': string)
    requires ':' !in t && ':' !in t' && t + ":" + x == t' + ":" + x'
    ensures t == t' && x == x'
  {
    var s := t + ":" + x;
    assert s[|t|] == ':' && s[|t'|] == ':';
    assert |t| == |t'|;
    assert s[..|t|] == t && s[..|t'|] == t';
    assert s[|t| + 1..] == x && s[|t'| + 1..] == x';
  }

  ghost predicate KnownKind(kind: string) {
    kind == RETRY_JOB || kind == TRIGGER_RESYNC || kind == LOG_RECOMMENDATION
  }

  /** Actions of the known kinds share a key if and only if they do the same thing to the same target:
      the same job retried, the same task resynced, or the very same recommendation. */
  lemma SameKeyIff(a: Action, b: Action)
    requires KnownKind(a.kind) && KnownKind(b.kind)
    ensures DedupeKey(a) == DedupeKey(b) <==>
            && a.kind == b.kind
            && (a.kind == "retry_job" ==> SameParam(a, b, "job_id"))
            && (a.kind == "trigger_resync" ==> SameParam(a, b, "source_task_id"))
            && (a.kind == "log_recommendation" ==> a.id == b.id)
  {
    if DedupeKey(a) == DedupeKey(b) {
      TagHasNoColon(a);
      TagHasNoColon(b);
      ColonSplits(Tag(a), Target(a), Tag(b), Target(b));
      TagTells(a);
      TagTells(b);
    }
  }

  lemma TagHasNoColon(a: Action)
    requires KnownKind(a.kind)
    ensures ':' !in Tag(a)
  {
  }

  lemma TagTells(a: Action)
    requires KnownKind(a.kind)
    ensures |Tag(a)| >= 3
    ensures a.kind ==
            if Tag(a)[2] == 't' then RETRY_JOB else if Tag(a)[2] == 's' then TRIGGER_RESYNC else LOG_RECOMMENDATION
  {
  }

  datatype Execution = Execution(key: string, at: Time)

  /** When the key was last executed. */
  ghost function LastExecution(log: seq<Execution>, key: string): Option<Time> {
    if log == [] then None
    else if log[|log| - 1].key == key then Some(log[|log| - 1].at)
    else LastExecution(log[..|log| - 1], key)
  }

  ghost predicate InOrder(log: seq<Execution>, clock: Time) {
    && (forall i :: 0 <= i < |log| ==> log[i].at <= clock)
    && (forall i, j :: 0 <= i < j < |log| ==> log[i].at <= log[j].at)
  }

  /** Some execution of the key lies less than the window back. */
  ghost predicate RecentlyExecuted(log: seq<Execution>, key: string, now: Time) {
    exists i :: 0 <= i < |log| && log[i].key == key && now - log[i].at < DEDUPE_WINDOW
  }

  /** The map knows the latest execution of each key, except of keys idle for longer than the window. */
  ghost predicate Agrees(recent: map<string, Time>, log: seq<Execution>, clock: Time) {
    && (forall k :: k in recent ==> LastExecution(log, k) == Some(recent[k]))
    && (forall k :: k !in recent && LastExecution(log, k).Some? ==> clock - LastExecution(log, k).value > DEDUPE_WINDOW)
  }

  lemma {:induction false} LatestDecides(log: seq<Execution>, key: string, now: Time)
    requires InOrder(log, now)
    ensures RecentlyExecuted(log, key, now) <==>
              LastExecution(log, key).Some? && now - LastExecution(log, key).value < DEDUPE_WINDOW
    ensures LastExecution(log, key).Some? ==> LastExecution(log, key).value <= now
  {
    if log != [] {
      var front, e := log[..|log| - 1], log[|log| - 1];
      if e.key == key {
        assert now - e.at < DEDUPE_WINDOW ==> RecentlyExecuted(log, key, now);
      } else {
        LatestDecides(front, key, now);
        if i :| 0 <= i < |front| && front[i].key == key && now - front[i].at < DEDUPE_WINDOW {
          assert log[i] == front[i];
        }
        if i :| 0 <= i < |log| && log[i].key == key && now - log[i].at < DEDUPE_WINDOW {
          assert front[i] == log[i];
        }
      }
    }
  }

  /** A map that agrees with the log answers the query as the log does, pruned or not. */
  lemma MapAnswersLikeLog(recent: map<string, Time>, log: seq<Execution>, clock: Time, now: Time, key: string)
    requires InOrder(log, clock) && Agrees(recent, log, clock) && clock <= now
    ensures RecentlyExecuted(log, key, now) <==> key in recent && now - recent[key] < DEDUPE_WINDOW
  {
    LatestDecides(log, key, now);
  }

  class Guardrails {
    var recentExecs: map<string, Time>
    ghost var log: seq<Execution>
    ghost var clock: Time

    ghost predicate Valid()
      reads this
    {
      InOrder(log, clock) && Agrees(recentExecs, log, clock)
    }

    constructor (ghost start: Time)
      ensures Valid() && log == [] && clock == start
    {
      recentExecs, log, clock := map[], [], start;
    }

    method RecordExecution(action: Action, now: Time)
      requires Valid() && clock <= now
      modifies this
      ensures Valid() && log == old(log) + [Execution(DedupeKey(action), now)] && clock == now
    {
      var key := DedupeKey(action);
      recentExecs := recentExecs[key := now];
      forall k
        ensures LastExecution(log + [Execution(key, now)], k) == if k == key then Some(now) else LastExecution(log, k)
      {
        assert (log + [Execution(key, now)])[..|log|] == log;
      }
      log, clock := log + [Execution(key, now)], now;
    }

    /** Drops idle entries, then answers exactly as the full log would. */
    method IsRecentDuplicate(key: string, now: Time) returns (duplicate: bool)
      requires Valid() && clock <= now
      modifies this
      ensures Valid() && log == old(log) && clock == now
      ensures duplicate <==> exists i :: 0 <= i < |log| && log[i].key == key && now - log[i].at < 120_000_000_000
      ensures forall k :: k in recentExecs <==> k in old(recentExecs) && now - old(recentExecs)[k] <= 120_000_000_000
    {
      MapAnswersLikeLog(recentExecs, log, clock, now, key);
      recentExecs := Prune(recentExecs, now);
      clock := now;
      duplicate := key in recentExecs && now - recentExecs[key] < DEDUPE_WINDOW;
    }
  }

  method Prune(recent: map<string, Time>, now: Time) returns (kept: map<string, Time>)
    ensures forall k :: k in kept <==> k in recent && now - recent[k] <= DEDUPE_WINDOW
    ensures forall k :: k in kept ==> kept[k] == recent[k]
  {
    kept := recent;
    var todo := recent.Keys;
    while todo != {}
      invariant todo <= recent.Keys
      invariant forall k :: k in kept <==> k in recent && (k in todo || now - recent[k] <= DEDUPE_WINDOW)
      invariant forall k :: k in kept ==> kept[k] == recent[k]
    {
      var k :| k in todo;
      if now - recent[k] > DEDUPE_WINDOW {
        kept := kept - {k};
      }
      todo := todo - {k};
    }
  }
}
