/** What a pick says of the records it comes from: its recommendation, counts and rates in terms of
    the runs of the matching records, or of the global feedback. */
module HierarchyMeaning {
  import opened Options
  import opened ActionMemory
  import opened Hierarchy

  // ---- The runs a level speaks for

  /** The runs of the provider records of the action and goal, and of the failure bucket if asked. */
  function ProviderRuns(ps: seq<ProviderRecord>, q: Query, sameFailure: bool): Stats {
    if ps == [] then NOTHING
    else
      var front, r := ProviderRuns(ps[..|ps| - 1], q, sameFailure), ps[|ps| - 1];
      if r.action == q.action && r.goal == q.goal && (sameFailure ==> r.failure == q.failure)
      then Plus(front, r.stats) else front
  }

  function ContextRuns(cs: seq<ContextRecord>, q: Query, sameFailure: bool): Stats {
    if cs == [] then NOTHING
    else
      var front, r := ContextRuns(cs[..|cs| - 1], q, sameFailure), cs[|cs| - 1];
      if r.action == q.action && r.goal == q.goal && (sameFailure ==> r.failure == q.failure)
      then Plus(front, r.stats) else front
  }

  predicate SameProviderPoint(r: ProviderRecord, q: Query) {
    && r.action == q.action && r.goal == q.goal && r.provider == q.provider && r.model == q.model
    && r.failure == q.failure && r.backlog == q.backlog
  }

  predicate SameContextPoint(r: ContextRecord, q: Query) {
    r.action == q.action && r.goal == q.goal && r.failure == q.failure && r.backlog == q.backlog
  }

  function FirstProviderRuns(ps: seq<ProviderRecord>, q: Query): Option<Stats> {
    if ps == [] then None
    else if SameProviderPoint(ps[0], q) then Some(Plus(NOTHING, ps[0].stats)) else FirstProviderRuns(ps[1..], q)
  }

  function FirstContextRuns(cs: seq<ContextRecord>, q: Query): Option<Stats> {
    if cs == [] then None
    else if SameContextPoint(cs[0], q) then Some(Plus(NOTHING, cs[0].stats)) else FirstContextRuns(cs[1..], q)
  }

  /** The exact level speaks for the first provider record of exactly this situation, when a provider is
      asked for and there is one, or else for the first such context record. */
  function ExactRuns(ps: seq<ProviderRecord>, cs: seq<ContextRecord>, q: Query): Option<Stats> {
    if q.provider != "" && FirstProviderRuns(ps, q).Some? then FirstProviderRuns(ps, q) else FirstContextRuns(cs, q)
  }

  // ---- What a candidate tells

  /** The candidate reports these runs, recommends what they call for, and is as sure as they are many
      and recent. */
  ghost predicate Tells(c: Candidate, level: int, s: Stats, now: Time) {
    c.level == level && Reports(c, s) && Weighs(c, level, s, now)
  }

  ghost predicate Reports(c: Candidate, s: Stats) {
    && c.sampleSize == s.total && Says(c.rec, s.total, s.success, s.failure)
    && c.successRate * s.total as real == s.success as real && c.failureRate * s.total as real == s.failure as real
  }

  ghost predicate Weighs(c: Candidate, level: int, s: Stats, now: Time) {
    && c.confidence >= 0.0 && c.confidence * c.confidence == RecencyWeight(s.latest, now) * SampleWeight(s.total)
    && c.score == c.confidence + (if level == 0 then 0.03 else if level == 1 then 0.02 else 0.01)
  }

  lemma BuildTells(level: int, s: Stats, now: Time, sqrt: real -> real)
    requires IsSqrt(sqrt) && s.total >= 0 && s.latest >= 0 && 0 <= level <= 2
    ensures Build(level, s, now, sqrt).Some? <==> s.total > 0
    ensures s.total > 0 ==> Tells(Build(level, s, now, sqrt).value, level, s, now)
  {
    if s.total > 0 {
      BuildReports(level, s, now, sqrt);
      BuildWeighs(level, s, now, sqrt);
    }
  }

  lemma BuildReports(level: int, s: Stats, now: Time, sqrt: real -> real)
    requires s.total > 0
    ensures Reports(Build(level, s, now, sqrt).value, s)
  {
    RecommendSays(s.total, s.success, s.failure);
    RateCounts(s.success, s.total);
    RateCounts(s.failure, s.total);
  }

  lemma BuildWeighs(level: int, s: Stats, now: Time, sqrt: real -> real)
    requires IsSqrt(sqrt) && s.total > 0 && 0 <= level <= 2
    ensures Weighs(Build(level, s, now, sqrt).value, level, s, now)
  {
    ConfidenceSquares(sqrt, s.latest, s.total, now);
  }

  /** The confidence is the geometric mean of the two weights. */
  lemma ConfidenceSquares(sqrt: real -> real, latest: Time, total: int, now: Time)
    requires IsSqrt(sqrt)
    ensures var w, n := RecencyWeight(latest, now), SampleWeight(total);
            var conf := EvidenceConfidence(sqrt, w, n);
            conf >= 0.0 && conf * conf == w * n
  {
    var w, n := RecencyWeight(latest, now), SampleWeight(total);
    assert n >= 0.0 by { SampleWeightMonotone(total, total); }
    assert w >= 0.0 by { RecencyTable(latest, now); }
    SquaresBack(sqrt, w, n);
  }

  lemma SquaresBack(sqrt: real -> real, w: real, n: real)
    requires IsSqrt(sqrt) && w >= 0.0 && n >= 0.0
    ensures sqrt(w * n) >= 0.0 && sqrt(w * n) * sqrt(w * n) == w * n
  {
    ProductMonotone(w, w, n, n);
  }

  lemma {:induction false} ProviderTotals(ps: seq<ProviderRecord>, q: Query)
    ensures Total(ProviderStats(), ReducedProvider(q), ps) == ProviderRuns(ps, q, true)
    ensures Total(ProviderStats(), GoalProvider(q), ps) == ProviderRuns(ps, q, false)
  {
    if ps != [] { ProviderTotals(ps[..|ps| - 1], q); }
  }

  lemma {:induction false} ContextTotals(cs: seq<ContextRecord>, q: Query)
    ensures Total(ContextStats(), ReducedContext(q), cs) == ContextRuns(cs, q, true)
    ensures Total(ContextStats(), GoalContext(q), cs) == ContextRuns(cs, q, false)
  {
    if cs != [] { ContextTotals(cs[..|cs| - 1], q); }
  }

  lemma {:induction false} RunsAreGood(ps: seq<ProviderRecord>, cs: seq<ContextRecord>, q: Query, sameFailure: bool)
    requires GoodRecords(ps, cs)
    ensures var s := Plus(ProviderRuns(ps, q, sameFailure), ContextRuns(cs, q, sameFailure));
            s.total >= 0 && s.latest >= 0
  {
    ProviderTotals(ps, q);
    ContextTotals(cs, q);
    if sameFailure {
      TotalMonotone(ProviderStats(), ReducedProvider(q), ReducedProvider(q), ps);
      TotalMonotone(ContextStats(), ReducedContext(q), ReducedContext(q), cs);
      TotalLatest(ProviderStats(), ReducedProvider(q), ps);
    } else {
      TotalMonotone(ProviderStats(), GoalProvider(q), GoalProvider(q), ps);
      TotalMonotone(ContextStats(), GoalContext(q), GoalContext(q), cs);
      TotalLatest(ProviderStats(), GoalProvider(q), ps);
    }
  }

  /** The reduced and the generalized level are there exactly when they have runs, and tell them. */
  lemma PooledLevelsTell(ps: seq<ProviderRecord>, cs: seq<ContextRecord>, q: Query, now: Time, sqrt: real -> real)
    requires GoodRecords(ps, cs) && IsSqrt(sqrt)
    ensures var c, s := Level1(ps, cs, q, now, sqrt), Plus(ProviderRuns(ps, q, true), ContextRuns(cs, q, true));
            (c.Some? <==> s.total > 0) && (c.Some? ==> Tells(c.value, 1, s, now))
    ensures var c, s := Level2(ps, cs, q, now, sqrt), Plus(ProviderRuns(ps, q, false), ContextRuns(cs, q, false));
            (c.Some? <==> s.total > 0) && (c.Some? ==> Tells(c.value, 2, s, now))
  {
    ProviderTotals(ps, q);
    ContextTotals(cs, q);
    RunsAreGood(ps, cs, q, true);
    RunsAreGood(ps, cs, q, false);
    BuildTells(REDUCED, Plus(ProviderRuns(ps, q, true), ContextRuns(cs, q, true)), now, sqrt);
    BuildTells(GENERALIZED, Plus(ProviderRuns(ps, q, false), ContextRuns(cs, q, false)), now, sqrt);
  }

  lemma {:induction false} FirstProviderIs(ps: seq<ProviderRecord>, q: Query)
    ensures var r, s := First(ExactProvider(q), ps), FirstProviderRuns(ps, q);
            if r.Some? then s == Some(Plus(NOTHING, r.value.stats)) && r.value in ps else s == None
  {
    if ps != [] && !ExactProvider(q)(ps[0]) { FirstProviderIs(ps[1..], q); }
  }

  lemma {:induction false} FirstContextIs(cs: seq<ContextRecord>, q: Query)
    ensures var r, s := First(ExactContext(q), cs), FirstContextRuns(cs, q);
            if r.Some? then s == Some(Plus(NOTHING, r.value.stats)) && r.value in cs else s == None
  {
    if cs != [] && !ExactContext(q)(cs[0]) { FirstContextIs(cs[1..], q); }
  }

  /** The exact level is there exactly when its record has runs, and tells them. */
  lemma ExactLevelTells(ps: seq<ProviderRecord>, cs: seq<ContextRecord>, q: Query, now: Time, sqrt: real -> real)
    requires GoodRecords(ps, cs) && IsSqrt(sqrt)
    ensures var c, s := Level0(ps, cs, q, now, sqrt), ExactRuns(ps, cs, q);
            (c.Some? <==> s.Some? && s.value.total > 0) && (c.Some? ==> Tells(c.value, 0, s.value, now))
  {
    FirstProviderIs(ps, q);
    FirstContextIs(cs, q);
    var p, c := First(ExactProvider(q), ps), First(ExactContext(q), cs);
    if q.provider != "" && p.Some? {
      assert NonNegative(ProviderStats()(p.value));
      BuildTells(EXACT, Plus(NOTHING, p.value.stats), now, sqrt);
    } else if c.Some? {
      assert NonNegative(ContextStats()(c.value));
      BuildTells(EXACT, Plus(NOTHING, c.value.stats), now, sqrt);
    }
  }

  // ---- The global feedback

  /** The candidate repeats the global feedback of the action. */
  ghost predicate Repeats(c: Candidate, g: GlobalFeedback, now: Time) {
    && c.level == 3 && c.rec == g.rec && c.sampleSize == g.sampleSize
    && c.successRate == g.successRate && c.failureRate == g.failureRate
    && c.confidence >= 0.0
    && c.confidence * c.confidence == RecencyWeight(g.lastUpdated, now) * SampleWeight(g.sampleSize)
    && c.score == c.confidence
  }

  lemma GlobalLevelRepeats(global: map<string, GlobalFeedback>, q: Query, now: Time, sqrt: real -> real)
    requires IsSqrt(sqrt)
    ensures var c := Level3(global, q, now, sqrt);
            (c.Some? <==> q.action in global) && (c.Some? ==> Repeats(c.value, global[q.action], now))
  {
    if q.action in global {
      ConfidenceSquares(sqrt, global[q.action].lastUpdated, global[q.action].sampleSize, now);
    }
  }

  // ---- The pick

  /** Runs that call for a recommendation. */
  predicate Speaks(s: Stats) {
    s.total >= 5 && (2 * s.failure >= s.total || 10 * s.success >= 7 * s.total)
  }

  predicate GlobalSpeaks(global: map<string, GlobalFeedback>, q: Query) {
    q.action in global && (global[q.action].rec == PreferAction || global[q.action].rec == AvoidAction)
  }

  lemma {:induction false} PickIsMember(cs: seq<Candidate>)
    ensures Pick(cs).Some? ==> Pick(cs).value in cs && Actionable(Pick(cs).value)
    ensures Pick(cs).None? <==> forall c :: c in cs ==> !Actionable(c)
  {
    ActionableMembers(cs);
    if ActionableOnly(cs) != [] {
      var i := BestIsMember(ActionableOnly(cs));
      assert ActionableOnly(cs)[i] in ActionableOnly(cs);
    } else {
      assert forall c :: c in cs && Actionable(c) ==> c in ActionableOnly(cs);
    }
  }

  lemma {:induction false} ActionableMembers(cs: seq<Candidate>)
    ensures forall c :: c in ActionableOnly(cs) <==> c in cs && Actionable(c)
  {
    if cs != [] {
      ActionableMembers(cs[..|cs| - 1]);
      assert cs == cs[..|cs| - 1] + [cs[|cs| - 1]];
    }
  }

  /** The candidate speaks for the runs of its level, or repeats the global feedback. */
  ghost predicate Genuine(
    c: Candidate, ps: seq<ProviderRecord>, cs: seq<ContextRecord>, global: map<string, GlobalFeedback>, q: Query,
    now: Time)
  {
    match c.level
    case 0 => ExactRuns(ps, cs, q).Some? && Tells(c, 0, ExactRuns(ps, cs, q).value, now)
    case 1 => Tells(c, 1, Plus(ProviderRuns(ps, q, true), ContextRuns(cs, q, true)), now)
    case 2 => Tells(c, 2, Plus(ProviderRuns(ps, q, false), ContextRuns(cs, q, false)), now)
    case 3 => q.action in global && Repeats(c, global[q.action], now)
    case _ => false
  }

  lemma CandidatesAreGenuine(
    ps: seq<ProviderRecord>, cs: seq<ContextRecord>, global: map<string, GlobalFeedback>, q: Query, now: Time,
    sqrt: real -> real, c: Candidate)
    requires GoodRecords(ps, cs) && IsSqrt(sqrt)
    requires c in LocalCandidates(ps, cs, q, now, sqrt) + Listed(Level3(global, q, now, sqrt))
    ensures Genuine(c, ps, cs, global, q, now)
  {
    ExactLevelTells(ps, cs, q, now, sqrt);
    PooledLevelsTell(ps, cs, q, now, sqrt);
    GlobalLevelRepeats(global, q, now, sqrt);
    OneOfFour(Level0(ps, cs, q, now, sqrt), Level1(ps, cs, q, now, sqrt), Level2(ps, cs, q, now, sqrt),
              Level3(global, q, now, sqrt), c);
  }

  lemma OneOfFour(c0: Option<Candidate>, c1: Option<Candidate>, c2: Option<Candidate>, c3: Option<Candidate>,
                  c: Candidate)
    requires c in Listed(c0) + Listed(c1) + Listed(c2) + Listed(c3)
    ensures c0 == Some(c) || c1 == Some(c) || c2 == Some(c) || c3 == Some(c)
  {
  }

  /** For all records with non-negative counts and every global feedback: there is a pick exactly when
      the runs of some level, or the global feedback, call for a recommendation; the pick is prefer or
      avoid, and it is what the runs of its own level call for, or what the global feedback says. */
  lemma PickMeans(
    ps: seq<ProviderRecord>, cs: seq<ContextRecord>, global: map<string, GlobalFeedback>, q: Query, now: Time,
    sqrt: real -> real)
    requires GoodRecords(ps, cs) && IsSqrt(sqrt)
    ensures var pick := Pick(LocalCandidates(ps, cs, q, now, sqrt) + Listed(Level3(global, q, now, sqrt)));
            && (pick.Some? <==>
                  || (ExactRuns(ps, cs, q).Some? && Speaks(ExactRuns(ps, cs, q).value))
                  || Speaks(Plus(ProviderRuns(ps, q, true), ContextRuns(cs, q, true)))
                  || Speaks(Plus(ProviderRuns(ps, q, false), ContextRuns(cs, q, false)))
                  || GlobalSpeaks(global, q))
            && (pick.Some? ==>
                  && (pick.value.rec == PreferAction || pick.value.rec == AvoidAction)
                  && Genuine(pick.value, ps, cs, global, q, now))
  {
    var all := LocalCandidates(ps, cs, q, now, sqrt) + Listed(Level3(global, q, now, sqrt));
    PickIsMember(all);
    if Pick(all).Some? {
      CandidatesAreGenuine(ps, cs, global, q, now, sqrt, Pick(all).value);
    }
    SomeLevelSpeaks(ps, cs, global, q, now, sqrt);
  }

  lemma SomeLevelSpeaks(
    ps: seq<ProviderRecord>, cs: seq<ContextRecord>, global: map<string, GlobalFeedback>, q: Query, now: Time,
    sqrt: real -> real)
    requires GoodRecords(ps, cs) && IsSqrt(sqrt)
    ensures (exists c ::
               c in LocalCandidates(ps, cs, q, now, sqrt) + Listed(Level3(global, q, now, sqrt)) && Actionable(c)) <==>
            || (ExactRuns(ps, cs, q).Some? && Speaks(ExactRuns(ps, cs, q).value))
            || Speaks(Plus(ProviderRuns(ps, q, true), ContextRuns(cs, q, true)))
            || Speaks(Plus(ProviderRuns(ps, q, false), ContextRuns(cs, q, false)))
            || GlobalSpeaks(global, q)
  {
    var c0, c1, c2 := Level0(ps, cs, q, now, sqrt), Level1(ps, cs, q, now, sqrt), Level2(ps, cs, q, now, sqrt);
    var c3 := Level3(global, q, now, sqrt);
    ExactLevelTells(ps, cs, q, now, sqrt);
    PooledLevelsTell(ps, cs, q, now, sqrt);
    GlobalLevelRepeats(global, q, now, sqrt);
    FourMembers(c0, c1, c2, c3);
  }

  lemma FourMembers(c0: Option<Candidate>, c1: Option<Candidate>, c2: Option<Candidate>, c3: Option<Candidate>)
    ensures (exists c :: c in Listed(c0) + Listed(c1) + Listed(c2) + Listed(c3) && Actionable(c)) <==>
            || (c0.Some? && Actionable(c0.value)) || (c1.Some? && Actionable(c1.value))
            || (c2.Some? && Actionable(c2.value)) || (c3.Some? && Actionable(c3.value))
  {
    var all := Listed(c0) + Listed(c1) + Listed(c2) + Listed(c3);
    assert c0.Some? ==> c0.value in all;
    assert c1.Some? ==> c1.value in all;
    assert c2.Some? ==> c2.value in all;
    assert c3.Some? ==> c3.value in all;
  }

  /** Which of two candidates is preferred: of two that recommend the same with confidences at most five
      hundredths apart the more general one, and else the one with the higher score. */
  lemma PreferenceMeans(c: Candidate, best: Candidate)
    ensures ShouldPrefer(c, best) <==>
            if c.rec == best.rec && -5.0 <= 100.0 * (c.confidence - best.confidence) <= 5.0 && c.level != best.level
            then c.level > best.level
            else c.score > best.score
  {
  }
}
