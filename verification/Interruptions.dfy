/** Detections that fail halfway: the snapshots a task ends up with in any run, and exactly which
    interruptions lose one, repeat one, or leave one ahead of the stored hash. */
module Interruptions {
  import opened Options
  import opened ChangeDetector

  // ---- What one attempt adds to the snapshots of its task

  /** The attempt takes a snapshot: the hash is not the stored one, and it gets that far. */
  ghost predicate Snaps(prior: seq<Attempt>, a: Attempt) {
    StoredHash(prior) != Some(a.hash) && a.stop != AfterUpsert
  }

  /** The hashes of the snapshots that the attempts at one task take. */
  ghost function Taken(own: seq<Attempt>): seq<Hash> {
    if own == [] then []
    else
      var front, a := own[..|own| - 1], own[|own| - 1];
      if Snaps(front, a) then Taken(front) + [a.hash] else Taken(front)
  }

  lemma {:induction false} TakenSnoc(own: seq<Attempt>, a: Attempt)
    ensures Taken(own + [a]) == if Snaps(own, a) then Taken(own) + [a.hash] else Taken(own)
  {
    assert (own + [a])[..|own|] == own;
  }

  lemma AttemptKeepsIds(st: State, a: Attempt)
    requires UniqueIds(st.tasks) && NoStrays(st.tasks, st.snapshots) && !Known(st.tasks, a.newId)
    ensures UniqueIds(Attempted(st, a).tasks) && NoStrays(Attempted(st, a).tasks, Attempted(st, a).snapshots)
  {
    var st' := Attempted(st, a);
    forall i | 0 <= i < |st'.snapshots| ensures Known(st'.tasks, st'.snapshots[i].task) {
      if i < |st.snapshots| {
        assert Known(st.tasks, st.snapshots[i].task);
        var r :| r in st.tasks && st.tasks[r].id == st.snapshots[i].task;
        assert st'.tasks[r].id == st'.snapshots[i].task;
      } else {
        assert st'.tasks[a.ref].id == st'.snapshots[i].task;
      }
    }
  }

  lemma {:induction false} IdsKept(log: seq<Attempt>)
    requires Legal(log)
    ensures UniqueIds(After(log).tasks) && NoStrays(After(log).tasks, After(log).snapshots)
  {
    if log != [] {
      IdsKept(log[..|log| - 1]);
      AttemptKeepsIds(After(log[..|log| - 1]), log[|log| - 1]);
    }
  }

  lemma FreshHasNoSnapshots(st: State, id: Id)
    requires NoStrays(st.tasks, st.snapshots) && !Known(st.tasks, id)
    ensures HashesOf(st.snapshots, id) == [] && VersionsOf(st.snapshots, id) == []
  {
    forall x | x in st.snapshots ensures x.task != id { var i :| 0 <= i < |st.snapshots| && st.snapshots[i] == x; }
    NoSnapshots(st.snapshots, id);
  }

  /** The snapshots of task `id` are those hashes, with versions 1 to n. */
  ghost predicate Snapped(snapshots: seq<Snapshot>, id: Id, hashes: seq<Hash>) {
    HashesOf(snapshots, id) == hashes && Numbered(VersionsOf(snapshots, id))
  }

  lemma SnapshotSnaps(snapshots: seq<Snapshot>, id: Id, hashes: seq<Hash>, hash: Hash)
    requires Snapped(snapshots, id, hashes)
    ensures Snapped(snapshots + [Snapshot(id, MaxVersion(snapshots, id) + 1, hash)], id, hashes + [hash])
  {
    MaxOfNumbered(snapshots, id);
    SnapshotAdded(snapshots, Snapshot(id, MaxVersion(snapshots, id) + 1, hash), id);
  }

  /** What an attempt leaves: the snapshots as they were, or one more of its own task. */
  lemma AttemptedSnapshots(st: State, a: Attempt)
    ensures a.ref in Upsert(st, a).tasks && a.ref in Attempted(st, a).tasks
    ensures var id := Upsert(st, a).tasks[a.ref].id;
            && Attempted(st, a).tasks[a.ref].id == id
            && Attempted(st, a).snapshots ==
               if UpToDate(st, a) || a.stop == AfterUpsert then st.snapshots
               else st.snapshots + [Snapshot(id, MaxVersion(st.snapshots, id) + 1, a.hash)]
  {
  }

  /** An attempt that takes no snapshot. */
  lemma IdleAttempt(st: State, a: Attempt, id: Id, prior: seq<Attempt>)
    requires Snapped(st.snapshots, id, Taken(prior)) && (UpToDate(st, a) || a.stop == AfterUpsert) && !Snaps(prior, a)
    ensures Snapped(Attempted(st, a).snapshots, id, Taken(prior + [a]))
  {
    assert Attempted(st, a).snapshots == st.snapshots;
    TakenSnoc(prior, a);
  }

  /** An attempt that takes one, whether or not it also stores the hash. */
  lemma SnappingAttempt(st: State, a: Attempt, id: Id, prior: seq<Attempt>)
    requires Snapped(st.snapshots, id, Taken(prior)) && !UpToDate(st, a) && Snaps(prior, a)
    requires id == Upsert(st, a).tasks[a.ref].id
    ensures Snapped(Attempted(st, a).snapshots, id, Taken(prior + [a]))
  {
    AttemptedSnapshots(st, a);
    TakenSnoc(prior, a);
    SnapshotSnaps(st.snapshots, id, Taken(prior), a.hash);
  }

  lemma OwnAttemptSnaps(st: State, a: Attempt, prior: seq<Attempt>)
    requires Snapped(st.snapshots, Upsert(st, a).tasks[a.ref].id, Taken(prior))
    requires UpToDate(st, a) <==> StoredHash(prior) == Some(a.hash)
    ensures a.ref in Attempted(st, a).tasks
    ensures Snapped(Attempted(st, a).snapshots, Attempted(st, a).tasks[a.ref].id, Taken(prior + [a]))
  {
    var id := Upsert(st, a).tasks[a.ref].id;
    AttemptedSnapshots(st, a);
    if Snaps(prior, a) { SnappingAttempt(st, a, id, prior); } else { IdleAttempt(st, a, id, prior); }
  }

  lemma OtherAttemptSnaps(st: State, a: Attempt, ref: Ref, hashes: seq<Hash>)
    requires UniqueIds(st.tasks) && !Known(st.tasks, a.newId) && a.ref != ref && ref in st.tasks
    requires Snapped(st.snapshots, st.tasks[ref].id, hashes)
    ensures ref in Attempted(st, a).tasks
    ensures Snapped(Attempted(st, a).snapshots, Attempted(st, a).tasks[ref].id, hashes)
  {
    OtherIdDiffers(st, a, ref);
    AttemptedSnapshots(st, a);
    var id := Upsert(st, a).tasks[a.ref].id;
    SnapshotAdded(st.snapshots, Snapshot(id, MaxVersion(st.snapshots, id) + 1, a.hash), st.tasks[ref].id);
  }

  lemma OtherIdDiffers(st: State, a: Attempt, ref: Ref)
    requires UniqueIds(st.tasks) && !Known(st.tasks, a.newId) && a.ref != ref && ref in st.tasks
    ensures Upsert(st, a).tasks[a.ref].id != st.tasks[ref].id
  {
  }

  /** In every run of detections, any of them interrupted, the snapshots of a task are those its own
      attempts take, with versions 1 to n. */
  lemma {:induction false} SnapshotsAreTaken(log: seq<Attempt>, ref: Ref)
    requires Legal(log) && ref in After(log).tasks
    ensures Snapped(After(log).snapshots, After(log).tasks[ref].id, Taken(Own(log, ref)))
  {
    var front, a := log[..|log| - 1], log[|log| - 1];
    var st := After(front);
    IdsKept(front);
    StoredIsKept(front, ref);
    if ref in st.tasks { SnapshotsAreTaken(front, ref); }
    if a.ref != ref {
      OtherAttemptSnaps(st, a, ref, Taken(Own(front, ref)));
    } else {
      if ref !in st.tasks { NothingYet(st, a, Own(front, ref)); }
      OwnAttemptSnaps(st, a, Own(front, ref));
    }
  }

  lemma NothingYet(st: State, a: Attempt, own: seq<Attempt>)
    requires NoStrays(st.tasks, st.snapshots) && !Known(st.tasks, a.newId) && a.ref !in st.tasks
    requires StoredHash(own) == None
    ensures Snapped(st.snapshots, Upsert(st, a).tasks[a.ref].id, Taken(own))
  {
    FreshHasNoSnapshots(st, a.newId);
    if own != [] { StoredSnoc(own, a); }
  }

  // ---- Exactly which interruptions show

  /** The first attempt ended with its upsert, and no attempt with another hash has run to its end. */
  ghost predicate Lost(own: seq<Attempt>) {
    && own != [] && own[0].stop == AfterUpsert
    && forall j :: 0 < j < |own| && own[j].stop == Completed ==> own[j].hash == own[0].hash
  }

  /** The stored hash is in none of the snapshots if and only if `Lost`. */
  lemma {:induction false} LostIff(own: seq<Attempt>)
    requires own != []
    ensures StoredHash(own).Some? && (StoredHash(own).value !in Taken(own) <==> Lost(own))
    ensures Lost(own) ==> StoredHash(own) == Some(own[0].hash)
  {
    var front, a := own[..|own| - 1], own[|own| - 1];
    assert own == front + [a];
    StoredSnoc(front, a);
    TakenSnoc(front, a);
    if front != [] {
      LostIff(front);
      LostSnoc(front, a);
    }
  }

  lemma {:induction false} LostSnoc(own: seq<Attempt>, a: Attempt)
    requires own != []
    ensures Lost(own + [a]) <==> Lost(own) && (a.stop == Completed ==> a.hash == own[0].hash)
  {
    var longer := own + [a];
    assert longer[|own|] == a && forall j :: 0 <= j < |own| ==> longer[j] == own[j];
    if Lost(longer) {
      forall j | 0 < j < |own| && own[j].stop == Completed ensures own[j].hash == own[0].hash {
        assert longer[j].hash == longer[0].hash;
      }
    }
  }

  /** No attempt since a first that ended with its upsert has come back to its hash after another had
      been stored. */
  ghost predicate Forgotten(own: seq<Attempt>) {
    own != [] && own[0].stop == AfterUpsert && forall m, j :: !ComesBack(own, m, j)
  }

  /** Attempt `m` stores another hash than the first, and the later attempt `j` has the first again and
      gets beyond its upsert. */
  ghost predicate ComesBack(own: seq<Attempt>, m: int, j: int) {
    && 0 < m < j < |own| && own[m].stop == Completed && own[m].hash != own[0].hash
    && own[j].hash == own[0].hash && own[j].stop != AfterUpsert
  }

  lemma {:induction false} FirstIsTakenIff(own: seq<Attempt>)
    requires own != [] && own[0].stop == AfterUpsert
    ensures own[0].hash in Taken(own) <==> exists m, j :: ComesBack(own, m, j)
  {
    var front, a := own[..|own| - 1], own[|own| - 1];
    assert own == front + [a];
    TakenSnoc(front, a);
    if front != [] {
      FirstIsTakenIff(front);
      ComesBackSnoc(front, a);
      FirstTakenNow(front, a);
    }
  }

  lemma ComesBackSnoc(own: seq<Attempt>, a: Attempt)
    requires own != []
    ensures (exists m, j :: ComesBack(own + [a], m, j)) <==>
            (exists m, j :: ComesBack(own, m, j)) || (exists m :: ComesBack(own + [a], m, |own|))
  {
    var longer := own + [a];
    assert forall j :: 0 <= j < |own| ==> longer[j] == own[j];
    if m, j :| ComesBack(own, m, j) { assert ComesBack(longer, m, j); }
    if m, j :| ComesBack(longer, m, j) {
      if j < |own| { assert ComesBack(own, m, j); }
    }
  }

  /** The latest attempt comes back to the first hash: it takes a snapshot of it, or one was taken. */
  lemma FirstTakenNow(own: seq<Attempt>, a: Attempt)
    requires own != [] && own[0].stop == AfterUpsert
    ensures Snaps(own, a) && a.hash == own[0].hash ==> exists m :: ComesBack(own + [a], m, |own|)
    ensures (exists m :: ComesBack(own + [a], m, |own|)) ==>
              a.hash == own[0].hash && (Snaps(own, a) || own[0].hash in Taken(own))
  {
    var longer := own + [a];
    assert longer[|own|] == a && forall j :: 0 <= j < |own| ==> longer[j] == own[j];
    LostIff(own);
    if Snaps(own, a) && a.hash == own[0].hash {
      var m :| 0 < m < |own| && own[m].stop == Completed && own[m].hash != own[0].hash;
      assert ComesBack(longer, m, |own|);
    }
    if m :| ComesBack(longer, m, |own|) {
      assert own[m].stop == Completed && own[m].hash != own[0].hash;
    }
  }

  lemma {:induction false} TakenGrows(own: seq<Attempt>, n: nat)
    requires n <= |own|
    ensures forall h :: h in Taken(own[..n]) ==> h in Taken(own)
    decreases |own|
  {
    if n < |own| {
      TakenGrows(own[..|own| - 1], n);
      assert own[..|own| - 1][..n] == own[..n];
    } else {
      assert own[..n] == own;
    }
  }

  /** A hash stored after the first `n` attempts has no snapshot in the end only if it is the first
      one, and the run is `Forgotten`. */
  lemma UnsnappedIsForgotten(own: seq<Attempt>, n: nat)
    requires 0 < n <= |own|
    ensures StoredHash(own[..n]).Some?
    ensures StoredHash(own[..n]).value !in Taken(own) ==> Forgotten(own)
    ensures n == 1 && Forgotten(own) ==> StoredHash(own[..n]).value !in Taken(own)
  {
    LostIff(own[..n]);
    TakenGrows(own, n);
    if own[0].stop == AfterUpsert { FirstIsTakenIff(own); }
    if n == 1 { assert own[..1][..0] == []; }
  }

  /** Attempt `i`, not the first, took a snapshot without storing its hash, and nothing since has taken
      another. */
  ghost predicate PendingAt(own: seq<Attempt>, i: int) {
    && 0 < i < |own| && own[i].stop == AfterSnapshot && StoredHash(own[..i]) != Some(own[i].hash)
    && forall m :: i < m < |own| ==> Idle(own[m], StoredHash(own[..i]))
  }

  ghost predicate Idle(a: Attempt, stored: Option<Hash>) {
    a.stop == AfterUpsert || stored == Some(a.hash)
  }

  ghost predicate Pending(own: seq<Attempt>) {
    exists i :: PendingAt(own, i)
  }

  lemma PendingSnoc(own: seq<Attempt>, a: Attempt, i: int)
    requires 0 <= i < |own|
    ensures PendingAt(own + [a], i) <==> PendingAt(own, i) && Idle(a, StoredHash(own[..i]))
  {
    var longer := own + [a];
    assert longer[..i] == own[..i] && longer[|own|] == a;
    assert forall j :: 0 <= j < |own| ==> longer[j] == own[j];
    if PendingAt(longer, i) {
      forall m | i < m < |own| ensures Idle(own[m], StoredHash(own[..i])) {
        assert Idle(longer[m], StoredHash(longer[..i]));
      }
    }
  }

  lemma {:induction false} PendingKeeps(own: seq<Attempt>, i: int)
    requires PendingAt(own, i)
    ensures StoredHash(own) == StoredHash(own[..i])
    ensures Taken(own) != [] && Taken(own)[|Taken(own)| - 1] == own[i].hash
  {
    var front, a := own[..|own| - 1], own[|own| - 1];
    assert own == front + [a];
    StoredSnoc(front, a);
    TakenSnoc(front, a);
    if i == |front| {
      assert own[..i] == front;
    } else {
      assert own[..i] == front[..i];
      PendingSnoc(front, a, i);
      PendingKeeps(front, i);
    }
  }

  /** The last snapshot is not of the stored hash. */
  ghost predicate Ahead(own: seq<Attempt>) {
    Taken(own) != [] && StoredHash(own) != Some(Taken(own)[|Taken(own)| - 1])
  }

  lemma {:induction false} AheadIsPending(own: seq<Attempt>)
    requires Ahead(own)
    ensures Pending(own)
  {
    var front, a := own[..|own| - 1], own[|own| - 1];
    assert own == front + [a];
    StoredSnoc(front, a);
    TakenSnoc(front, a);
    if Snaps(front, a) {
      assert own[..|front|] == front;
      assert PendingAt(own, |front|);
    } else {
      AheadIsPending(front);
      var i :| PendingAt(front, i);
      PendingKeeps(front, i);
      PendingSnoc(front, a, i);
    }
  }

  lemma AheadIff(own: seq<Attempt>)
    ensures Ahead(own) <==> Pending(own)
  {
    if Ahead(own) { AheadIsPending(own); }
    if i :| PendingAt(own, i) { PendingKeeps(own, i); }
  }

  /** Attempt `j` gets beyond its upsert with the hash of a snapshot left pending before it. */
  ghost predicate RepeatsAt(own: seq<Attempt>, j: int) {
    0 <= j < |own| && own[j].stop != AfterUpsert && PendingHash(own[..j], own[j].hash)
  }

  ghost predicate PendingHash(own: seq<Attempt>, hash: Hash) {
    exists i :: PendingAt(own, i) && own[i].hash == hash
  }

  lemma PendingHashIff(own: seq<Attempt>, hash: Hash)
    ensures PendingHash(own, hash) <==> Ahead(own) && Taken(own)[|Taken(own)| - 1] == hash
    ensures PendingHash(own, hash) ==> StoredHash(own) != Some(hash)
  {
    AheadIff(own);
    if i :| PendingAt(own, i) { PendingKeeps(own, i); }
    if i :| PendingAt(own, i) && own[i].hash == hash { PendingKeeps(own, i); }
  }

  lemma NoRepetitionSnoc(hs: seq<Hash>, h: Hash)
    ensures NoRepetition(hs + [h]) <==> NoRepetition(hs) && (hs == [] || hs[|hs| - 1] != h)
  {
    var longer := hs + [h];
    if NoRepetition(longer) {
      forall i | 0 < i < |hs| ensures Differs(hs, i) { assert Differs(longer, i); }
      assert hs == [] || Differs(longer, |hs|);
    }
    if NoRepetition(hs) && (hs == [] || hs[|hs| - 1] != h) {
      forall i | 0 < i < |longer| ensures Differs(longer, i) { if i < |hs| { assert Differs(hs, i); } }
    }
  }

  lemma {:induction false} RepetitionIff(own: seq<Attempt>)
    ensures NoRepetition(Taken(own)) <==> forall j :: !RepeatsAt(own, j)
  {
    if own != [] {
      var front, a := own[..|own| - 1], own[|own| - 1];
      assert own == front + [a];
      RepetitionIff(front);
      TakenSnoc(front, a);
      NoRepetitionSnoc(Taken(front), a.hash);
      PendingHashIff(front, a.hash);
      RepeatsSnoc(front, a);
    }
  }

  lemma RepeatsSnoc(own: seq<Attempt>, a: Attempt)
    ensures (forall j :: !RepeatsAt(own + [a], j)) <==>
            (forall j :: !RepeatsAt(own, j)) && !(a.stop != AfterUpsert && PendingHash(own, a.hash))
  {
    var longer := own + [a];
    assert longer[|own|] == a && longer[..|own|] == own;
    forall j | 0 <= j < |own| ensures RepeatsAt(longer, j) <==> RepeatsAt(own, j) {
      assert longer[j] == own[j] && longer[..j] == own[..j];
    }
    assert RepeatsAt(longer, |own|) <==> a.stop != AfterUpsert && PendingHash(own, a.hash);
  }

  // ---- In the runs of the detector

  /** The state and the snapshots' hashes of a task after a run, told from its own attempts. */
  lemma Told(log: seq<Attempt>, ref: Ref)
    requires Legal(log) && ref in After(log).tasks
    ensures var st, own := After(log), Own(log, ref);
            && own != [] && StoredHash(own) == Some(st.tasks[ref].hash)
            && HashesOf(st.snapshots, st.tasks[ref].id) == Taken(own)
            && Numbered(VersionsOf(st.snapshots, st.tasks[ref].id))
  {
    StoredIsKept(log, ref);
    SnapshotsAreTaken(log, ref);
  }

  /** In every reachable state, the stored hash of a task is in none of its snapshots if and only if its
      first attempt ended with the upsert and no attempt with another hash has run to its end since.
      The versions are 1 to n in any case. */
  lemma LostSnapshotIff(log: seq<Attempt>, ref: Ref)
    requires Legal(log) && ref in After(log).tasks
    ensures var st := After(log);
            && (st.tasks[ref].hash !in HashesOf(st.snapshots, st.tasks[ref].id) <==> Lost(Own(log, ref)))
            && Numbered(VersionsOf(st.snapshots, st.tasks[ref].id))
  {
    Told(log, ref);
    LostIff(Own(log, ref));
  }

  /** And such a task stays unnoticed: detecting the stored hash again changes nothing. */
  lemma LostStaysUnnoticed(log: seq<Attempt>, a: Attempt)
    requires Legal(log) && Lost(Own(log, a.ref)) && a.hash == Own(log, a.ref)[0].hash
    ensures Attempted(After(log), a) == After(log) && Lost(Own(log + [a], a.ref))
  {
    var own := Own(log, a.ref);
    LostIff(own);
    StoredIsKept(log, a.ref);
    assert (log + [a])[..|log|] == log;
    LostSnoc(own, a);
  }

  /** The hash stored after the first `n` attempts of the run is in no snapshot at its end. */
  ghost predicate NeverSnapped(log: seq<Attempt>, ref: Ref, n: nat)
    requires n <= |log| && ref in After(log).tasks
  {
    var early, st := After(log[..n]), After(log);
    ref in early.tasks && early.tasks[ref].hash !in HashesOf(st.snapshots, st.tasks[ref].id)
  }

  lemma {:induction false} LegalPrefix(log: seq<Attempt>, n: nat)
    requires Legal(log) && n <= |log|
    ensures Legal(log[..n])
  {
    if n < |log| {
      LegalPrefix(log[..|log| - 1], n);
      assert log[..|log| - 1][..n] == log[..n];
    } else {
      assert log[..n] == log;
    }
  }

  lemma {:induction false} OwnPrefix(log: seq<Attempt>, ref: Ref, n: nat)
    requires n <= |log|
    ensures |Own(log[..n], ref)| <= |Own(log, ref)| && Own(log[..n], ref) == Own(log, ref)[..|Own(log[..n], ref)|]
  {
    if n < |log| {
      OwnPrefix(log[..|log| - 1], ref, n);
      assert log[..|log| - 1][..n] == log[..n];
    } else {
      assert log[..n] == log;
    }
  }

  /** The stage after the first attempt at a task. */
  lemma {:induction false} FirstStage(log: seq<Attempt>, ref: Ref) returns (n: nat)
    requires Own(log, ref) != []
    ensures n <= |log| && |Own(log[..n], ref)| == 1
  {
    var front := log[..|log| - 1];
    if Own(front, ref) == [] {
      n := |log|;
      assert log[..n] == log;
    } else {
      n := FirstStage(front, ref);
      assert front[..n] == log[..n];
    }
  }

  lemma NeverSnappedIff(log: seq<Attempt>, ref: Ref, n: nat)
    requires Legal(log) && ref in After(log).tasks && n <= |log|
    ensures var own, k := Own(log, ref), |Own(log[..n], ref)|;
            && k <= |own|
            && (NeverSnapped(log, ref, n) <==>
                  k > 0 && StoredHash(own[..k]).Some? && StoredHash(own[..k]).value !in Taken(own))
  {
    Told(log, ref);
    OwnPrefix(log, ref, n);
    StoredIsKept(log[..n], ref);
    NoneStored(Own(log[..n], ref));
  }

  /** In every run, some hash that was once stored is in no snapshot at the end if and only if the
      first attempt ended with the upsert and none has come back to its hash after another was stored. */
  lemma ForgottenIff(log: seq<Attempt>, ref: Ref)
    requires Legal(log) && ref in After(log).tasks
    ensures (exists n: nat :: n <= |log| && NeverSnapped(log, ref, n)) <==> Forgotten(Own(log, ref))
  {
    var own := Own(log, ref);
    Told(log, ref);
    if n: nat :| n <= |log| && NeverSnapped(log, ref, n) {
      NeverSnappedIff(log, ref, n);
      UnsnappedIsForgotten(own, |Own(log[..n], ref)|);
    }
    if Forgotten(own) {
      var n := FirstStage(log, ref);
      NeverSnappedIff(log, ref, n);
      UnsnappedIsForgotten(own, 1);
    }
  }

  /** In every run, the last snapshot of a task is not of its stored hash if and only if an attempt
      after the first took it without storing the hash, and nothing since has taken another. */
  lemma LastSnapshotIff(log: seq<Attempt>, ref: Ref)
    requires Legal(log) && ref in After(log).tasks
    ensures var st := After(log);
            var hashes := HashesOf(st.snapshots, st.tasks[ref].id);
            hashes != [] && hashes[|hashes| - 1] != st.tasks[ref].hash <==> Pending(Own(log, ref))
  {
    Told(log, ref);
    AheadIff(Own(log, ref));
  }

  /** In every run, two neighbouring snapshots of a task have the same hash if and only if some attempt
      got beyond its upsert with the hash of a snapshot left pending before it. */
  lemma RepeatedSnapshotIff(log: seq<Attempt>, ref: Ref)
    requires Legal(log) && ref in After(log).tasks
    ensures var st := After(log);
            !NoRepetition(HashesOf(st.snapshots, st.tasks[ref].id)) <==> exists j :: RepeatsAt(Own(log, ref), j)
  {
    Told(log, ref);
    RepetitionIff(Own(log, ref));
  }

  // Runs in which it shows

  function Forgets(ref: Ref): seq<Attempt> {
    [Attempt(ref, "a", 0, AfterUpsert), Attempt(ref, "b", 1, Completed)]
  }

  function Hangs(ref: Ref): seq<Attempt> {
    [Attempt(ref, "a", 0, Completed), Attempt(ref, "b", 1, AfterSnapshot)]
  }

  function Repeats(ref: Ref): seq<Attempt> {
    Hangs(ref) + [Attempt(ref, "b", 2, Completed)]
  }

  /** All of this happens: "a" stored and never snapshot, although not lost in the end; and a snapshot
      of "b" left pending, then taken again. */
  lemma InterruptionsShow(ref: Ref)
    ensures Legal(Forgets(ref)) && ref in After(Forgets(ref)).tasks
    ensures Forgotten(Own(Forgets(ref), ref)) && !Lost(Own(Forgets(ref), ref))
    ensures Legal(Hangs(ref)) && ref in After(Hangs(ref)).tasks && Pending(Own(Hangs(ref), ref))
    ensures Legal(Repeats(ref)) && ref in After(Repeats(ref)).tasks && RepeatsAt(Own(Repeats(ref), ref), 2)
  {
    ForgetsShows(ref);
    HangsShows(ref);
    RepeatsShows(ref);
  }

  lemma ForgetsShows(ref: Ref)
    ensures Legal(Forgets(ref)) && ref in After(Forgets(ref)).tasks
    ensures Forgotten(Own(Forgets(ref), ref)) && !Lost(Own(Forgets(ref), ref))
  {
    OneTask(Forgets(ref), ref);
    Overwritten(Forgets(ref));
  }

  lemma HangsShows(ref: Ref)
    ensures Legal(Hangs(ref)) && ref in After(Hangs(ref)).tasks && Pending(Own(Hangs(ref), ref))
  {
    OneTask(Hangs(ref), ref);
    LeftPending(Hangs(ref));
  }

  lemma RepeatsShows(ref: Ref)
    ensures Legal(Repeats(ref)) && ref in After(Repeats(ref)).tasks && RepeatsAt(Own(Repeats(ref), ref), 2)
  {
    OneTask(Repeats(ref), ref);
    LeftPending(Hangs(ref));
    TakenAgain(Repeats(ref), Hangs(ref));
  }

  lemma Overwritten(own: seq<Attempt>)
    requires |own| == 2 && own[0].stop == AfterUpsert && own[1].stop == Completed && own[0].hash != own[1].hash
    ensures Forgotten(own) && !Lost(own)
  {
    assert own[1].hash != own[0].hash;
  }

  lemma LeftPending(own: seq<Attempt>)
    requires |own| == 2 && own[1].stop == AfterSnapshot && own[0].hash != own[1].hash
    ensures PendingAt(own, 1)
  {
    assert own[..1][..0] == [];
    assert StoredHash(own[..1]) == Some(own[0].hash);
  }

  lemma TakenAgain(own: seq<Attempt>, before: seq<Attempt>)
    requires |own| == 3 && before == own[..2] && PendingAt(before, 1)
    requires own[2].hash == own[1].hash && own[2].stop == Completed
    ensures RepeatsAt(own, 2)
  {
    assert before[1] == own[1];
    assert PendingHash(before, own[2].hash);
  }

  /** A run of attempts at a single task. */
  ghost predicate Single(log: seq<Attempt>, ref: Ref) {
    forall i :: 0 <= i < |log| ==> log[i].ref == ref && log[i].newId == i
  }

  lemma OneTask(log: seq<Attempt>, ref: Ref)
    requires Single(log, ref) && log != []
    ensures Legal(log) && Own(log, ref) == log && ref in After(log).tasks
  {
    SingleIsLegal(log, ref);
    SingleIsOwn(log, ref);
  }

  lemma {:induction false} SingleIsOwn(log: seq<Attempt>, ref: Ref)
    requires Single(log, ref)
    ensures Own(log, ref) == log
  {
    if log != [] {
      SingleIsOwn(log[..|log| - 1], ref);
      assert log == log[..|log| - 1] + [log[|log| - 1]];
    }
  }

  ghost predicate OnlyTask(tasks: map<Ref, Task>, ref: Ref) {
    ref in tasks && tasks[ref].id == 0 && forall r :: r in tasks ==> r == ref
  }

  lemma {:induction false} SingleIsLegal(log: seq<Attempt>, ref: Ref)
    requires Single(log, ref)
    ensures Legal(log) && (log != [] ==> OnlyTask(After(log).tasks, ref))
  {
    if log != [] {
      SingleIsLegal(log[..|log| - 1], ref);
      OnlyTaskStep(After(log[..|log| - 1]), log[|log| - 1]);
    }
  }

  lemma OnlyTaskStep(st: State, a: Attempt)
    requires a.newId == 0 ==> st.tasks == map[]
    requires a.newId != 0 ==> OnlyTask(st.tasks, a.ref)
    ensures !Known(st.tasks, a.newId) && OnlyTask(Attempted(st, a).tasks, a.ref)
  {
  }
}
