/** Change detection: the stored hash and the snapshots of each task, against the sequence of hashes
    detected for it. */
module ChangeDetector {
  import opened Options

  /** A task as its source names it: connection and external id. */
  datatype Ref = Ref(connection: string, externalId: string)
  type Id = nat
  type Hash = string

  datatype Task = Task(id: Id, hash: Hash)
  datatype Snapshot = Snapshot(task: Id, version: int, hash: Hash)
  datatype Detection = Detection(ref: Ref, hash: Hash)

  /** How far a detection gets before the database fails it, if it does: no further than the upsert,
      or than the insertion of a snapshot, or to its end. */
  datatype Stop = AfterUpsert | AfterSnapshot | Completed

  datatype Attempt = Attempt(ref: Ref, hash: Hash, newId: Id, stop: Stop)

  datatype Change = New | Changed | Unchanged
  datatype Result = Result(change: Change, previous: Hash, task: Id)

  /** The hashes detected for one task, oldest first. */
  ghost function Detected(log: seq<Detection>, ref: Ref): seq<Hash> {
    if log == [] then []
    else
      var front := Detected(log[..|log| - 1], ref);
      if log[|log| - 1].ref == ref then front + [log[|log| - 1].hash] else front
  }

  /** A sequence with immediate repetitions dropped. */
  ghost function Distinct(hs: seq<Hash>): seq<Hash> {
    if hs == [] then []
    else
      var front, h := Distinct(hs[..|hs| - 1]), hs[|hs| - 1];
      if front != [] && front[|front| - 1] == h then front else front + [h]
  }

  ghost predicate Differs(hs: seq<Hash>, i: int)
    requires 0 < i < |hs|
  {
    hs[i - 1] != hs[i]
  }

  /** No hash is followed by itself. */
  ghost predicate NoRepetition(hs: seq<Hash>) {
    forall i :: 0 < i < |hs| ==> Differs(hs, i)
  }

  lemma {:induction false} DistinctLast(hs: seq<Hash>)
    ensures if hs == [] then Distinct(hs) == []
            else Distinct(hs) != [] && Distinct(hs)[|Distinct(hs)| - 1] == hs[|hs| - 1]
  {
    if hs != [] { DistinctLast(hs[..|hs| - 1]); }
  }

  lemma {:induction false} DistinctHasNoRepetition(hs: seq<Hash>)
    ensures NoRepetition(Distinct(hs))
  {
    if hs != [] {
      var front, all := Distinct(hs[..|hs| - 1]), Distinct(hs);
      DistinctHasNoRepetition(hs[..|hs| - 1]);
      forall i | 0 < i < |all| ensures Differs(all, i) {
        if i < |front| { assert Differs(front, i); }
      }
    }
  }

  /** The hashes of one task's snapshots, in the order they were taken. */
  ghost function HashesOf(snapshots: seq<Snapshot>, id: Id): seq<Hash> {
    if snapshots == [] then []
    else
      var front := HashesOf(snapshots[..|snapshots| - 1], id);
      if snapshots[|snapshots| - 1].task == id then front + [snapshots[|snapshots| - 1].hash] else front
  }

  /** The versions of one task's snapshots, in the order they were taken. */
  ghost function VersionsOf(snapshots: seq<Snapshot>, id: Id): seq<int> {
    if snapshots == [] then []
    else
      var front := VersionsOf(snapshots[..|snapshots| - 1], id);
      if snapshots[|snapshots| - 1].task == id then front + [snapshots[|snapshots| - 1].version] else front
  }

  /** COALESCE(MAX(version), 0) over one task's snapshots. */
  ghost function MaxVersion(snapshots: seq<Snapshot>, id: Id): int {
    if snapshots == [] then 0
    else
      var front, s := MaxVersion(snapshots[..|snapshots| - 1], id), snapshots[|snapshots| - 1];
      var first := VersionsOf(snapshots[..|snapshots| - 1], id) == [];
      if s.task == id && (first || s.version > front) then s.version else front
  }

  ghost predicate Numbered(versions: seq<int>) {
    forall i :: 0 <= i < |versions| ==> versions[i] == i + 1
  }

  lemma {:induction false} MaxOfNumbered(snapshots: seq<Snapshot>, id: Id)
    requires Numbered(VersionsOf(snapshots, id))
    ensures MaxVersion(snapshots, id) == |VersionsOf(snapshots, id)|
  {
    if snapshots != [] {
      var front, s := snapshots[..|snapshots| - 1], snapshots[|snapshots| - 1];
      if s.task == id {
        assert VersionsOf(snapshots, id)[|VersionsOf(front, id)|] == s.version;
        assert forall i :: 0 <= i < |VersionsOf(front, id)| ==>
               VersionsOf(front, id)[i] == VersionsOf(snapshots, id)[i];
      }
      MaxOfNumbered(front, id);
    }
  }

  lemma {:induction false} SnapshotAdded(snapshots: seq<Snapshot>, s: Snapshot, id: Id)
    ensures HashesOf(snapshots + [s], id) ==
            if s.task == id then HashesOf(snapshots, id) + [s.hash] else HashesOf(snapshots, id)
    ensures VersionsOf(snapshots + [s], id) ==
            if s.task == id then VersionsOf(snapshots, id) + [s.version] else VersionsOf(snapshots, id)
  {
    assert (snapshots + [s])[..|snapshots|] == snapshots;
  }

  lemma {:induction false} DetectionAdded(log: seq<Detection>, d: Detection, ref: Ref)
    ensures Detected(log + [d], ref) == if d.ref == ref then Detected(log, ref) + [d.hash] else Detected(log, ref)
  {
    assert (log + [d])[..|log|] == log;
  }

  lemma {:induction false} DistinctAdded(hs: seq<Hash>, h: Hash)
    ensures Distinct(hs + [h]) == if hs != [] && hs[|hs| - 1] == h then Distinct(hs) else Distinct(hs) + [h]
  {
    assert (hs + [h])[..|hs|] == hs;
    DistinctLast(hs);
  }

  lemma {:induction false} NoSnapshots(snapshots: seq<Snapshot>, id: Id)
    requires forall s :: s in snapshots ==> s.task != id
    ensures HashesOf(snapshots, id) == [] && VersionsOf(snapshots, id) == []
  {
    if snapshots != [] {
      assert snapshots[|snapshots| - 1] in snapshots;
      NoSnapshots(snapshots[..|snapshots| - 1], id);
    }
  }

  /** One task's row and snapshots tell the story of its detections. */
  ghost predicate Tells(task: Task, snapshots: seq<Snapshot>, hs: seq<Hash>) {
    && hs != []
    && HashesOf(snapshots, task.id) == Distinct(hs)
    && task.hash == hs[|hs| - 1]
    && |VersionsOf(snapshots, task.id)| == |Distinct(hs)| && Numbered(VersionsOf(snapshots, task.id))
  }

  /** For every task: its snapshots are its detected hashes without immediate repetitions, numbered
      from 1, and its stored hash is the one detected last. */
  ghost predicate Consistent(tasks: map<Ref, Task>, snapshots: seq<Snapshot>, log: seq<Detection>) {
    (forall r :: Story(tasks, snapshots, log, r)) && UniqueIds(tasks) && NoStrays(tasks, snapshots)
  }

  ghost predicate Story(tasks: map<Ref, Task>, snapshots: seq<Snapshot>, log: seq<Detection>, r: Ref) {
    if r in tasks then Tells(tasks[r], snapshots, Detected(log, r)) else Detected(log, r) == []
  }

  ghost predicate UniqueIds(tasks: map<Ref, Task>) {
    forall r, q :: r in tasks && q in tasks && tasks[r].id == tasks[q].id ==> r == q
  }

  ghost predicate NoStrays(tasks: map<Ref, Task>, snapshots: seq<Snapshot>) {
    forall i :: 0 <= i < |snapshots| ==> Known(tasks, snapshots[i].task)
  }

  ghost predicate Known(tasks: map<Ref, Task>, id: Id) {
    exists r :: r in tasks && tasks[r].id == id
  }

  lemma UnchangedKeeps(tasks: map<Ref, Task>, snapshots: seq<Snapshot>, log: seq<Detection>, ref: Ref, hash: Hash)
    requires Consistent(tasks, snapshots, log) && ref in tasks && tasks[ref].hash == hash
    ensures Consistent(tasks, snapshots, log + [Detection(ref, hash)])
  {
    forall q ensures Story(tasks, snapshots, log + [Detection(ref, hash)], q) {
      assert Story(tasks, snapshots, log, q);
      DetectionAdded(log, Detection(ref, hash), q);
      DistinctAdded(Detected(log, q), hash);
    }
  }

  /** A snapshot of a task, new to the table or with a changed hash. */
  ghost predicate Due(tasks: map<Ref, Task>, ref: Ref, id: Id, hash: Hash) {
    if ref in tasks then tasks[ref].id == id && tasks[ref].hash != hash else !Known(tasks, id)
  }

  lemma SnapshotTells(tasks: map<Ref, Task>, snapshots: seq<Snapshot>, log: seq<Detection>, ref: Ref, s: Snapshot)
    requires Consistent(tasks, snapshots, log) && Due(tasks, ref, s.task, s.hash)
    requires s.version == MaxVersion(snapshots, s.task) + 1
    ensures Tells(Task(s.task, s.hash), snapshots + [s], Detected(log + [Detection(ref, s.hash)], ref))
  {
    assert Story(tasks, snapshots, log, ref);
    DetectionAdded(log, Detection(ref, s.hash), ref);
    DistinctAdded(Detected(log, ref), s.hash);
    DistinctLast(Detected(log, ref));
    SnapshotAdded(snapshots, s, s.task);
    if ref !in tasks {
      forall x | x in snapshots ensures x.task != s.task { var i :| 0 <= i < |snapshots| && snapshots[i] == x; }
      NoSnapshots(snapshots, s.task);
    }
    MaxOfNumbered(snapshots, s.task);
  }

  lemma SnapshotKeepsStory(tasks: map<Ref, Task>, snapshots: seq<Snapshot>, log: seq<Detection>, ref: Ref,
                           s: Snapshot, q: Ref)
    requires Consistent(tasks, snapshots, log) && Due(tasks, ref, s.task, s.hash)
    requires s.version == MaxVersion(snapshots, s.task) + 1
    ensures Story(tasks[ref := Task(s.task, s.hash)], snapshots + [s], log + [Detection(ref, s.hash)], q)
  {
    if q == ref {
      SnapshotTells(tasks, snapshots, log, ref, s);
    } else {
      assert Story(tasks, snapshots, log, q);
      DetectionAdded(log, Detection(ref, s.hash), q);
      if q in tasks { SnapshotAdded(snapshots, s, tasks[q].id); }
    }
  }

  lemma SnapshotKeepsIds(tasks: map<Ref, Task>, snapshots: seq<Snapshot>, ref: Ref, s: Snapshot)
    requires UniqueIds(tasks) && NoStrays(tasks, snapshots) && Due(tasks, ref, s.task, s.hash)
    ensures UniqueIds(tasks[ref := Task(s.task, s.hash)])
    ensures NoStrays(tasks[ref := Task(s.task, s.hash)], snapshots + [s])
  {
    var tasks', all := tasks[ref := Task(s.task, s.hash)], snapshots + [s];
    forall i | 0 <= i < |all| ensures Known(tasks', all[i].task) {
      if i < |snapshots| {
        assert Known(tasks, snapshots[i].task);
        var r :| r in tasks && tasks[r].id == snapshots[i].task;
        assert tasks'[r].id == all[i].task;
      } else {
        assert tasks'[ref].id == all[i].task;
      }
    }
  }

  lemma SnapshotKeeps(tasks: map<Ref, Task>, snapshots: seq<Snapshot>, log: seq<Detection>, ref: Ref, s: Snapshot)
    requires Consistent(tasks, snapshots, log) && Due(tasks, ref, s.task, s.hash)
    requires s.version == MaxVersion(snapshots, s.task) + 1
    ensures Consistent(tasks[ref := Task(s.task, s.hash)], snapshots + [s], log + [Detection(ref, s.hash)])
  {
    SnapshotKeepsIds(tasks, snapshots, ref, s);
    var tasks', snapshots', log' := tasks[ref := Task(s.task, s.hash)], snapshots + [s], log + [Detection(ref, s.hash)];
    forall q ensures Story(tasks', snapshots', log', q) {
      SnapshotKeepsStory(tasks, snapshots, log, ref, s, q);
    }
  }

  // ---- One detection, statement by statement

  datatype State = State(tasks: map<Ref, Task>, snapshots: seq<Snapshot>)

  /** The upsert inserts a missing task with its hash; it leaves the hash of an existing one alone. */
  ghost function Upsert(st: State, a: Attempt): State {
    if a.ref in st.tasks then st else st.(tasks := st.tasks[a.ref := Task(a.newId, a.hash)])
  }

  ghost function TakeSnapshot(st: State, a: Attempt): State
    requires a.ref in st.tasks
  {
    var id := st.tasks[a.ref].id;
    st.(snapshots := st.snapshots + [Snapshot(id, MaxVersion(st.snapshots, id) + 1, a.hash)])
  }

  ghost function StoreHash(st: State, a: Attempt): State
    requires a.ref in st.tasks
  {
    st.(tasks := st.tasks[a.ref := Task(st.tasks[a.ref].id, a.hash)])
  }

  ghost predicate UpToDate(st: State, a: Attempt) {
    a.ref in st.tasks && st.tasks[a.ref].hash == a.hash
  }

  ghost function Attempted(st: State, a: Attempt): State {
    var up := Upsert(st, a);
    if UpToDate(st, a) || a.stop == AfterUpsert then up
    else if a.stop == AfterSnapshot then TakeSnapshot(up, a)
    else StoreHash(TakeSnapshot(up, a), a)
  }

  /** The state after a sequence of attempts. */
  ghost function After(log: seq<Attempt>): State {
    if log == [] then State(map[], []) else Attempted(After(log[..|log| - 1]), log[|log| - 1])
  }

  /** The generated ids are new. */
  ghost predicate Legal(log: seq<Attempt>) {
    log == [] || (Legal(log[..|log| - 1]) && !Known(After(log[..|log| - 1]).tasks, log[|log| - 1].newId))
  }

  lemma {:induction false} AfterSnoc(log: seq<Attempt>, a: Attempt)
    ensures After(log + [a]) == Attempted(After(log), a)
    ensures Legal(log + [a]) <==> Legal(log) && !Known(After(log).tasks, a.newId)
  {
    assert (log + [a])[..|log|] == log;
  }

  class ChangeDetector {
    var tasks: map<Ref, Task>
    var snapshots: seq<Snapshot>
    ghost var log: seq<Attempt>

    ghost predicate Valid()
      reads this
    {
      Legal(log) && State(tasks, snapshots) == After(log)
    }

    constructor ()
      ensures Valid() && tasks == map[] && snapshots == [] && log == []
    {
      tasks, snapshots, log := map[], [], [];
    }

    /** Compares a task's hash with the stored one and takes a snapshot when it is new or changed,
        unless the database fails on the way (`None`): what was done until then stays. */
    method Detect(ref: Ref, hash: Hash, newId: Id, stop: Stop) returns (r: Option<Result>)
      requires Valid() && !Known(tasks, newId)
      modifies this
      ensures Valid() && log == old(log) + [Attempt(ref, hash, newId, stop)]
      ensures Reports(r, StoredHash(Own(old(log), ref)), hash, stop)
      ensures r.Some? ==> ref in tasks && r.value.task == tasks[ref].id
    {
      ghost var a := Attempt(ref, hash, newId, stop);
      AfterSnoc(log, a);
      StoredIsKept(log, ref);
      r := RunStatements(ref, hash, newId, stop);
      log := log + [a];
    }

    /** The statements of a detection, up to the one that fails. */
    method RunStatements(ref: Ref, hash: Hash, newId: Id, stop: Stop) returns (r: Option<Result>)
      modifies this`tasks, this`snapshots
      ensures State(tasks, snapshots) == Attempted(old(State(tasks, snapshots)), Attempt(ref, hash, newId, stop))
      ensures Reports(r, old(if ref in tasks then Some(tasks[ref].hash) else None), hash, stop)
      ensures r.Some? ==> ref in tasks && r.value.task == tasks[ref].id
    {
      ghost var a := Attempt(ref, hash, newId, stop);
      ghost var st := State(tasks, snapshots);
      var found: Result;
      if ref !in tasks {
        tasks := tasks[ref := Task(newId, hash)];
        found := Result(New, "", newId);
      } else if tasks[ref].hash == hash {
        return Some(Result(Unchanged, hash, tasks[ref].id));
      } else {
        found := Result(Changed, tasks[ref].hash, tasks[ref].id);
      }
      assert State(tasks, snapshots) == Upsert(st, a);
      if stop == AfterUpsert {
        return None;
      }
      var version := NextVersion(snapshots, found.task);
      snapshots := snapshots + [Snapshot(found.task, version, hash)];
      if stop == AfterSnapshot {
        return None;
      }
      tasks := tasks[ref := Task(found.task, hash)];
      return Some(found);
    }
  }

  /** The report matches the stored hash; there is none exactly when a needed statement failed. */
  ghost predicate Reports(r: Option<Result>, stored: Option<Hash>, hash: Hash, stop: Stop) {
    && (r == None <==> stored != Some(hash) && stop != Completed)
    && (r.Some? ==>
          && (r.value.change == New <==> stored == None)
          && (r.value.change == Unchanged <==> stored == Some(hash))
          && r.value.previous == (if stored == None then "" else stored.value))
  }

  /** The query for the next snapshot version. */
  method NextVersion(snapshots: seq<Snapshot>, id: Id) returns (version: int)
    ensures version == MaxVersion(snapshots, id) + 1
  {
    var max, any := 0, false;
    for i := 0 to |snapshots|
      invariant max == MaxVersion(snapshots[..i], id)
      invariant any <==> VersionsOf(snapshots[..i], id) != []
    {
      assert snapshots[..i + 1][..i] == snapshots[..i];
      if snapshots[i].task == id && (!any || snapshots[i].version > max) {
        max := snapshots[i].version;
      }
      any := any || snapshots[i].task == id;
    }
    assert snapshots[..|snapshots|] == snapshots;
    return max + 1;
  }

  // ---- Runs without failures

  ghost predicate Uninterrupted(log: seq<Attempt>) {
    forall i :: 0 <= i < |log| ==> log[i].stop == Completed
  }

  /** What was detected, attempt by attempt. */
  ghost function Detections(log: seq<Attempt>): seq<Detection> {
    if log == [] then []
    else Detections(log[..|log| - 1]) + [Detection(log[|log| - 1].ref, log[|log| - 1].hash)]
  }

  lemma {:induction false} UninterruptedTells(log: seq<Attempt>)
    requires Legal(log) && Uninterrupted(log)
    ensures Consistent(After(log).tasks, After(log).snapshots, Detections(log))
  {
    if log != [] {
      var front, a := log[..|log| - 1], log[|log| - 1];
      UninterruptedTells(front);
      CompletedKeeps(After(front), Detections(front), a);
    }
  }

  lemma CompletedKeeps(st: State, log: seq<Detection>, a: Attempt)
    requires Consistent(st.tasks, st.snapshots, log) && a.stop == Completed && !Known(st.tasks, a.newId)
    ensures var st' := Attempted(st, a); Consistent(st'.tasks, st'.snapshots, log + [Detection(a.ref, a.hash)])
  {
    if UpToDate(st, a) {
      UnchangedKeeps(st.tasks, st.snapshots, log, a.ref, a.hash);
    } else {
      var id := Upsert(st, a).tasks[a.ref].id;
      var s := Snapshot(id, MaxVersion(st.snapshots, id) + 1, a.hash);
      SnapshotKeeps(st.tasks, st.snapshots, log, a.ref, s);
      assert Attempted(st, a).tasks == st.tasks[a.ref := Task(id, a.hash)];
      assert Attempted(st, a).snapshots == st.snapshots + [s];
    }
  }

  /** In every state reached without failures: versions 1 to n, neighbouring snapshot hashes differ,
      the snapshots' hashes are the detected ones without immediate repetitions, and the stored hash
      is that of the last snapshot and the one detected last. */
  lemma SnapshotsTellChanges(log: seq<Attempt>, ref: Ref)
    requires Legal(log) && Uninterrupted(log) && ref in After(log).tasks
    ensures var st, detected := After(log), Detected(Detections(log), ref);
            var hashes := HashesOf(st.snapshots, st.tasks[ref].id);
            var versions := VersionsOf(st.snapshots, st.tasks[ref].id);
            && hashes == Distinct(detected) && hashes != [] && |versions| == |hashes|
            && Numbered(versions) && NoRepetition(hashes)
            && st.tasks[ref].hash == hashes[|hashes| - 1]
            && detected != [] && st.tasks[ref].hash == detected[|detected| - 1]
  {
    UninterruptedTells(log);
    var st := After(log);
    assert Story(st.tasks, st.snapshots, Detections(log), ref);
    DistinctLast(Detected(Detections(log), ref));
    DistinctHasNoRepetition(Detected(Detections(log), ref));
  }

  // ---- Runs with failures

  /** The attempts at one task, oldest first. */
  ghost function Own(log: seq<Attempt>, ref: Ref): seq<Attempt> {
    if log == [] then []
    else
      var front, a := Own(log[..|log| - 1], ref), log[|log| - 1];
      if a.ref == ref then front + [a] else front
  }

  /** The hash of the first attempt, or of the latest that ran to its end. */
  ghost function StoredHash(own: seq<Attempt>): Option<Hash> {
    if own == [] then None
    else
      var prior, a := StoredHash(own[..|own| - 1]), own[|own| - 1];
      if prior == None || a.stop == Completed then Some(a.hash) else prior
  }

  lemma {:induction false} StoredSnoc(own: seq<Attempt>, a: Attempt)
    ensures StoredHash(own + [a]) == if own == [] || a.stop == Completed then Some(a.hash) else StoredHash(own)
    ensures own != [] ==> StoredHash(own).Some?
  {
    assert (own + [a])[..|own|] == own;
  }

  lemma {:induction false} StoredIsKept(log: seq<Attempt>, ref: Ref)
    ensures var st := After(log);
            StoredHash(Own(log, ref)) == if ref in st.tasks then Some(st.tasks[ref].hash) else None
  {
    if log != [] {
      var front, a := log[..|log| - 1], log[|log| - 1];
      StoredIsKept(front, ref);
      StoredSnoc(Own(front, ref), a);
      AttemptStores(After(front), a, ref);
      NoneStored(Own(front, ref));
    }
  }

  lemma {:induction false} NoneStored(own: seq<Attempt>)
    ensures StoredHash(own) == None <==> own == []
  {
    if own != [] { NoneStored(own[..|own| - 1]); }
  }

  /** An attempt stores its hash when it inserts the task or runs to its end. */
  lemma AttemptStores(st: State, a: Attempt, ref: Ref)
    ensures var st' := Attempted(st, a);
            if a.ref == ref && (ref !in st.tasks || a.stop == Completed) then
              ref in st'.tasks && st'.tasks[ref].hash == a.hash
            else if ref in st.tasks then ref in st'.tasks && st'.tasks[ref].hash == st.tasks[ref].hash
            else ref !in st'.tasks
  {
  }

  /** Repeating an interrupted detection makes up for the interruption, leaving the state an
      uninterrupted one leaves, if and only if it did not stop after the upsert of a new task or after
      the snapshot of a changed one: the first loses the snapshot, the second takes it twice. */
  lemma RepeatingMakesUpIff(st: State, a: Attempt, again: Id)
    ensures Attempted(Attempted(st, a), Attempt(a.ref, a.hash, again, Completed)) ==
            Attempted(st, a.(stop := Completed)) <==>
            && !(a.ref !in st.tasks && a.stop == AfterUpsert)
            && !(a.ref in st.tasks && st.tasks[a.ref].hash != a.hash && a.stop == AfterSnapshot)
  {
    var repeat := Attempt(a.ref, a.hash, again, Completed);
    var once, whole := Attempted(st, a), Attempted(st, a.(stop := Completed));
    if UpToDate(st, a) || a.stop == Completed {
      assert UpToDate(once, repeat);
    } else if a.ref !in st.tasks {
      assert UpToDate(once, repeat) && Attempted(once, repeat) == once;
      assert a.stop == AfterUpsert ==> |once.snapshots| < |whole.snapshots|;
    } else if a.stop == AfterUpsert {
      assert once == st;
    } else {
      assert |Attempted(once, repeat).snapshots| == |st.snapshots| + 2;
    }
  }
}
