/** Feedback at four levels of generality, and the choice between them. */
module Hierarchy {
  import opened Options
  import opened ActionMemory

  datatype ProviderRecord = ProviderRecord(
    action: string, goal: string, job: string, provider: string, model: string, failure: string, backlog: string,
    stats: Stats)

  datatype ContextRecord = ContextRecord(
    action: string, goal: string, job: string, failure: string, backlog: string, stats: Stats)

  /** The situation feedback is asked for. */
  datatype Query = Query(action: string, goal: string, provider: string, model: string, failure: string,
                         backlog: string)

  datatype GlobalFeedback = GlobalFeedback(
    rec: Recommendation, sampleSize: int, lastUpdated: Time, successRate: real, failureRate: real)

  datatype Candidate = Candidate(
    level: int, rec: Recommendation, confidence: real, recency: real, sample: real,
    bias: real, score: real, sampleSize: int, successRate: real, failureRate: real)

  const EXACT := 0
  const REDUCED := 1
  const GENERALIZED := 2
  const GLOBAL := 3
  const SIMILARITY: real := 0.05

  function Bonus(level: int): real {
    if level == EXACT then 0.03
    else if level == REDUCED then 0.02
    else if level == GENERALIZED then 0.01
    else 0.0
  }

  // ---- Which records a level looks at

  function ExactProvider(q: Query): ProviderRecord -> bool {
    (r: ProviderRecord) => r.action == q.action && r.goal == q.goal && r.provider == q.provider && r.model == q.model
      && r.failure == q.failure && r.backlog == q.backlog
  }

  function ExactContext(q: Query): ContextRecord -> bool {
    (r: ContextRecord) => r.action == q.action && r.goal == q.goal && r.failure == q.failure && r.backlog == q.backlog
  }

  function ReducedProvider(q: Query): ProviderRecord -> bool {
    (r: ProviderRecord) => r.action == q.action && r.goal == q.goal && r.failure == q.failure
  }

  function ReducedContext(q: Query): ContextRecord -> bool {
    (r: ContextRecord) => r.action == q.action && r.goal == q.goal && r.failure == q.failure
  }

  function GoalProvider(q: Query): ProviderRecord -> bool {
    (r: ProviderRecord) => r.action == q.action && r.goal == q.goal
  }

  function GoalContext(q: Query): ContextRecord -> bool {
    (r: ContextRecord) => r.action == q.action && r.goal == q.goal
  }

  function ProviderStats(): ProviderRecord -> Stats {
    (r: ProviderRecord) => r.stats
  }

  function ContextStats(): ContextRecord -> Stats {
    (r: ContextRecord) => r.stats
  }

  /** The counters of the kept records, added up. */
  function Total<R>(stats: R -> Stats, keep: R -> bool, rs: seq<R>): Stats {
    if rs == [] then NOTHING
    else
      var front, r := rs[..|rs| - 1], rs[|rs| - 1];
      if keep(r) then Plus(Total(stats, keep, front), stats(r)) else Total(stats, keep, front)
  }

  /** The first kept record. */
  function First<R>(keep: R -> bool, rs: seq<R>): Option<R> {
    if rs == [] then None else if keep(rs[0]) then Some(rs[0]) else First(keep, rs[1..])
  }

  function Build(level: int, s: Stats, now: Time, sqrt: real -> real): Option<Candidate> {
    if s.total == 0 then None
    else
      var rw, sw := RecencyWeight(s.latest, now), SampleWeight(s.total);
      var conf := EvidenceConfidence(sqrt, rw, sw);
      Some(Candidate(level, Feedback(s), conf, rw, sw, Bonus(level), conf + Bonus(level),
                     s.total, Rate(s.success, s.total), Rate(s.failure, s.total)))
  }

  function Level0(ps: seq<ProviderRecord>, cs: seq<ContextRecord>, q: Query, now: Time,
                  sqrt: real -> real): Option<Candidate> {
    var p := if q.provider != "" then First(ExactProvider(q), ps) else None;
    if p.Some? then Build(EXACT, Plus(NOTHING, p.value.stats), now, sqrt)
    else match First(ExactContext(q), cs)
      case None => None
      case Some(r) => Build(EXACT, Plus(NOTHING, r.stats), now, sqrt)
  }

  function Level1(ps: seq<ProviderRecord>, cs: seq<ContextRecord>, q: Query, now: Time,
                  sqrt: real -> real): Option<Candidate> {
    Build(REDUCED, Plus(Total(ProviderStats(), ReducedProvider(q), ps), Total(ContextStats(), ReducedContext(q), cs)),
          now, sqrt)
  }

  function Level2(ps: seq<ProviderRecord>, cs: seq<ContextRecord>, q: Query, now: Time,
                  sqrt: real -> real): Option<Candidate> {
    Build(GENERALIZED, Plus(Total(ProviderStats(), GoalProvider(q), ps), Total(ContextStats(), GoalContext(q), cs)),
          now, sqrt)
  }

  function Level3(global: map<string, GlobalFeedback>, q: Query, now: Time, sqrt: real -> real): Option<Candidate> {
    if q.action !in global then None
    else
      var g := global[q.action];
      var rw, sw := RecencyWeight(g.lastUpdated, now), SampleWeight(g.sampleSize);
      var conf := EvidenceConfidence(sqrt, rw, sw);
      Some(Candidate(GLOBAL, g.rec, conf, rw, sw, Bonus(GLOBAL), conf + Bonus(GLOBAL),
                     g.sampleSize, g.successRate, g.failureRate))
  }

  function Listed(c: Option<Candidate>): seq<Candidate> {
    match c case None => [] case Some(x) => [x]
  }

  // ---- Choosing

  predicate Actionable(c: Candidate) {
    c.rec != InsufficientData && c.rec != NeutralAction
  }

  function AbsDiff(x: real, y: real): real {
    if x < y then y - x else x - y
  }

  predicate ShouldPrefer(c: Candidate, best: Candidate) {
    if AbsDiff(c.confidence, best.confidence) <= SIMILARITY && c.rec == best.rec then
      if c.level > best.level then true
      else if c.level < best.level then false
      else c.score > best.score
    else c.score > best.score
  }

  function ActionableOnly(cs: seq<Candidate>): seq<Candidate> {
    if cs == [] then []
    else
      var front, c := cs[..|cs| - 1], cs[|cs| - 1];
      if Actionable(c) then ActionableOnly(front) + [c] else ActionableOnly(front)
  }

  /** The candidate left after comparing each in turn with the best so far. */
  function Best(cs: seq<Candidate>): Candidate
    requires cs != []
  {
    if |cs| == 1 then cs[0]
    else
      var best, c := Best(cs[..|cs| - 1]), cs[|cs| - 1];
      if ShouldPrefer(c, best) then c else best
  }

  function Pick(cs: seq<Candidate>): Option<Candidate> {
    if ActionableOnly(cs) == [] then None else Some(Best(ActionableOnly(cs)))
  }

  // ---- The loops

  class RecordAggregator {
    var total: int
    var success: int
    var failure: int
    var neutral: int
    var latest: Time

    constructor ()
      ensures Value() == NOTHING
    {
      total, success, failure, neutral, latest := 0, 0, 0, 0, 0;
    }

    ghost function Value(): Stats
      reads this
    {
      Stats(total, success, failure, neutral, latest)
    }

    method AddProvider(r: ProviderRecord)
      modifies this
      ensures Value() == Plus(old(Value()), r.stats)
    {
      total, success := total + r.stats.total, success + r.stats.success;
      failure, neutral := failure + r.stats.failure, neutral + r.stats.neutral;
      if r.stats.latest > latest {
        latest := r.stats.latest;
      }
    }

    method AddContext(r: ContextRecord)
      modifies this
      ensures Value() == Plus(old(Value()), r.stats)
    {
      total, success := total + r.stats.total, success + r.stats.success;
      failure, neutral := failure + r.stats.failure, neutral + r.stats.neutral;
      if r.stats.latest > latest {
        latest := r.stats.latest;
      }
    }

    method MakeCandidate(level: int, now: Time, sqrt: real -> real) returns (c: Option<Candidate>)
      ensures c == Build(level, Value(), now, sqrt)
    {
      c := Build(level, Stats(total, success, failure, neutral, latest), now, sqrt);
    }

    method AddProviders(ps: seq<ProviderRecord>, keep: ProviderRecord -> bool)
      requires Value() == NOTHING
      modifies this
      ensures Value() == Total(ProviderStats(), keep, ps)
    {
      for i := 0 to |ps|
        invariant Value() == Total(ProviderStats(), keep, ps[..i])
      {
        assert ps[..i + 1][..i] == ps[..i];
        if keep(ps[i]) {
          AddProvider(ps[i]);
        }
      }
      assert ps[..|ps|] == ps;
    }

    method AddContexts(cs: seq<ContextRecord>, keep: ContextRecord -> bool)
      requires latest >= 0
      modifies this
      ensures Value() == Plus(old(Value()), Total(ContextStats(), keep, cs))
    {
      for i := 0 to |cs|
        invariant Value() == Plus(old(Value()), Total(ContextStats(), keep, cs[..i]))
      {
        assert cs[..i + 1][..i] == cs[..i];
        if keep(cs[i]) {
          AddContext(cs[i]);
        }
      }
      assert cs[..|cs|] == cs;
    }
  }

  lemma TotalLatest<R>(stats: R -> Stats, keep: R -> bool, rs: seq<R>)
    ensures Total(stats, keep, rs).latest >= 0
  {
  }

  method GatherL0(ps: seq<ProviderRecord>, cs: seq<ContextRecord>, q: Query, now: Time, sqrt: real -> real)
    returns (c: Option<Candidate>)
    ensures c == Level0(ps, cs, q, now, sqrt)
  {
    if q.provider != "" {
      for i := 0 to |ps|
        invariant First(ExactProvider(q), ps) == First(ExactProvider(q), ps[i..])
      {
        assert ps[i..][1..] == ps[i + 1..];
        if ExactProvider(q)(ps[i]) {
          var agg := new RecordAggregator();
          agg.AddProvider(ps[i]);
          c := agg.MakeCandidate(EXACT, now, sqrt);
          return;
        }
      }
    }
    for i := 0 to |cs|
      invariant First(ExactContext(q), cs) == First(ExactContext(q), cs[i..])
    {
      assert cs[i..][1..] == cs[i + 1..];
      if ExactContext(q)(cs[i]) {
        var agg := new RecordAggregator();
        agg.AddContext(cs[i]);
        c := agg.MakeCandidate(EXACT, now, sqrt);
        return;
      }
    }
    return None;
  }

  method GatherL1(ps: seq<ProviderRecord>, cs: seq<ContextRecord>, q: Query, now: Time, sqrt: real -> real)
    returns (c: Option<Candidate>)
    ensures c == Level1(ps, cs, q, now, sqrt)
  {
    var agg := new RecordAggregator();
    agg.AddProviders(ps, ReducedProvider(q));
    TotalLatest(ProviderStats(), ReducedProvider(q), ps);
    agg.AddContexts(cs, ReducedContext(q));
    c := agg.MakeCandidate(REDUCED, now, sqrt);
  }

  method GatherL2(ps: seq<ProviderRecord>, cs: seq<ContextRecord>, q: Query, now: Time, sqrt: real -> real)
    returns (c: Option<Candidate>)
    ensures c == Level2(ps, cs, q, now, sqrt)
  {
    var agg := new RecordAggregator();
    agg.AddProviders(ps, GoalProvider(q));
    TotalLatest(ProviderStats(), GoalProvider(q), ps);
    agg.AddContexts(cs, GoalContext(q));
    c := agg.MakeCandidate(GENERALIZED, now, sqrt);
  }

  /** All four levels, most specific first. */
  method GatherHierarchicalCandidates(
    ps: seq<ProviderRecord>, cs: seq<ContextRecord>, global: map<string, GlobalFeedback>, q: Query, now: Time,
    sqrt: real -> real)
    returns (candidates: seq<Candidate>)
    ensures candidates == LocalCandidates(ps, cs, q, now, sqrt) + Listed(Level3(global, q, now, sqrt))
  {
    var c0 := GatherL0(ps, cs, q, now, sqrt);
    var c1 := GatherL1(ps, cs, q, now, sqrt);
    var c2 := GatherL2(ps, cs, q, now, sqrt);
    var c3 := Level3(global, q, now, sqrt);
    candidates := [];
    if c0.Some? { candidates := candidates + [c0.value]; }
    if c1.Some? { candidates := candidates + [c1.value]; }
    if c2.Some? { candidates := candidates + [c2.value]; }
    if c3.Some? { candidates := candidates + [c3.value]; }
  }

  method ResolveHierarchicalFeedback(cs: seq<Candidate>) returns (best: Option<Candidate>)
    ensures best == Pick(cs)
  {
    var actionable := [];
    for i := 0 to |cs|
      invariant actionable == ActionableOnly(cs[..i])
    {
      assert cs[..i + 1][..i] == cs[..i];
      if cs[i].rec != InsufficientData && cs[i].rec != NeutralAction {
        actionable := actionable + [cs[i]];
      }
    }
    assert cs[..|cs|] == cs;
    if actionable == [] {
      return None;
    }
    var b := actionable[0];
    for i := 1 to |actionable|
      invariant b == Best(actionable[..i])
    {
      assert actionable[..i + 1][..i] == actionable[..i];
      if ShouldPrefer(actionable[i], b) {
        b := actionable[i];
      }
    }
    assert actionable[..|actionable|] == actionable;
    return Some(b);
  }

  // ---- More general levels know more

  ghost predicate NonNegative(s: Stats) {
    s.total >= 0 && s.success >= 0 && s.failure >= 0 && s.neutral >= 0
  }

  /** `b` covers at least the runs of `a`. */
  ghost predicate Covers(b: Stats, a: Stats) {
    a.total <= b.total && a.success <= b.success && a.failure <= b.failure && a.neutral <= b.neutral
      && a.latest <= b.latest
  }

  lemma {:induction false} TotalMonotone<R>(stats: R -> Stats, narrow: R -> bool, wide: R -> bool, rs: seq<R>)
    requires forall r | r in rs :: NonNegative(stats(r)) && (narrow(r) ==> wide(r))
    ensures Covers(Total(stats, wide, rs), Total(stats, narrow, rs))
    ensures NonNegative(Total(stats, narrow, rs))
  {
    if rs != [] { TotalMonotone(stats, narrow, wide, rs[..|rs| - 1]); }
  }

  lemma {:induction false} TotalCoversMember<R>(stats: R -> Stats, keep: R -> bool, rs: seq<R>, r: R)
    requires forall x | x in rs :: NonNegative(stats(x))
    requires r in rs && keep(r)
    ensures Covers(Total(stats, keep, rs), Plus(NOTHING, stats(r)))
  {
    var front, last := rs[..|rs| - 1], rs[|rs| - 1];
    assert rs == front + [last];
    TotalMonotone(stats, keep, keep, front);
    TotalLatest(stats, keep, front);
    if r in front { TotalCoversMember(stats, keep, front, r); }
  }

  lemma {:induction false} FirstIsKept<R>(keep: R -> bool, rs: seq<R>)
    ensures First(keep, rs).Some? ==> First(keep, rs).value in rs && keep(First(keep, rs).value)
  {
    if rs != [] && !keep(rs[0]) { FirstIsKept(keep, rs[1..]); }
  }

  ghost predicate GoodRecords(ps: seq<ProviderRecord>, cs: seq<ContextRecord>) {
    && (forall r | r in ps :: NonNegative(ProviderStats()(r)))
    && (forall r | r in cs :: NonNegative(ContextStats()(r)))
  }

  /** A candidate of a level whose records cover those of another is there whenever the other is, and
      is at least as sure. */
  lemma CoveringIsSurer(level: int, a: Stats, level': int, b: Stats, now: Time, sqrt: real -> real)
    requires IsSqrt(sqrt) && a.total >= 0 && a.latest >= 0 && Covers(b, a)
    requires Build(level, a, now, sqrt).Some?
    ensures Build(level', b, now, sqrt).Some?
    ensures Build(level, a, now, sqrt).value.confidence <= Build(level', b, now, sqrt).value.confidence
  {
    ConfidenceMonotone(sqrt, a, b, now);
  }

  /** For all records with non-negative counts: an exact candidate brings a reduced one with it, a
      reduced one a generalized one, and confidence grows with generality. */
  lemma GeneralLevelsAreSurer(ps: seq<ProviderRecord>, cs: seq<ContextRecord>, q: Query, now: Time, sqrt: real -> real)
    requires GoodRecords(ps, cs) && IsSqrt(sqrt)
    ensures var c0, c1, c2 := Level0(ps, cs, q, now, sqrt), Level1(ps, cs, q, now, sqrt), Level2(ps, cs, q, now, sqrt);
            && (c0.Some? ==> c1.Some? && c0.value.confidence <= c1.value.confidence)
            && (c1.Some? ==> c2.Some? && c1.value.confidence <= c2.value.confidence)
  {
    ReducedCoversExact(ps, cs, q, now, sqrt);
    GeneralizedCoversReduced(ps, cs, q, now, sqrt);
  }

  lemma GeneralizedCoversReduced(ps: seq<ProviderRecord>, cs: seq<ContextRecord>, q: Query, now: Time,
                                 sqrt: real -> real)
    requires GoodRecords(ps, cs) && IsSqrt(sqrt)
    ensures var c1, c2 := Level1(ps, cs, q, now, sqrt), Level2(ps, cs, q, now, sqrt);
            c1.Some? ==> c2.Some? && c1.value.confidence <= c2.value.confidence
  {
    TotalMonotone(ProviderStats(), ReducedProvider(q), GoalProvider(q), ps);
    TotalMonotone(ContextStats(), ReducedContext(q), GoalContext(q), cs);
    TotalLatest(ProviderStats(), ReducedProvider(q), ps);
    var s1 := Plus(Total(ProviderStats(), ReducedProvider(q), ps), Total(ContextStats(), ReducedContext(q), cs));
    var s2 := Plus(Total(ProviderStats(), GoalProvider(q), ps), Total(ContextStats(), GoalContext(q), cs));
    if Level1(ps, cs, q, now, sqrt).Some? { CoveringIsSurer(REDUCED, s1, GENERALIZED, s2, now, sqrt); }
  }

  lemma ReducedCoversExact(ps: seq<ProviderRecord>, cs: seq<ContextRecord>, q: Query, now: Time, sqrt: real -> real)
    requires GoodRecords(ps, cs) && IsSqrt(sqrt)
    ensures var c0, c1 := Level0(ps, cs, q, now, sqrt), Level1(ps, cs, q, now, sqrt);
            c0.Some? ==> c1.Some? && c0.value.confidence <= c1.value.confidence
  {
    TotalMonotone(ProviderStats(), ReducedProvider(q), ReducedProvider(q), ps);
    TotalMonotone(ContextStats(), ReducedContext(q), ReducedContext(q), cs);
    TotalLatest(ProviderStats(), ReducedProvider(q), ps);
    TotalLatest(ContextStats(), ReducedContext(q), cs);
    var s1 := Plus(Total(ProviderStats(), ReducedProvider(q), ps), Total(ContextStats(), ReducedContext(q), cs));
    FirstIsKept(ExactProvider(q), ps);
    FirstIsKept(ExactContext(q), cs);
    var p, c := if q.provider != "" then First(ExactProvider(q), ps) else None, First(ExactContext(q), cs);
    if Level0(ps, cs, q, now, sqrt).Some? {
      if p.Some? {
        assert NonNegative(ProviderStats()(p.value));
        TotalCoversMember(ProviderStats(), ReducedProvider(q), ps, p.value);
        CoveringIsSurer(EXACT, Plus(NOTHING, p.value.stats), REDUCED, s1, now, sqrt);
      } else {
        assert NonNegative(ContextStats()(c.value));
        TotalCoversMember(ContextStats(), ReducedContext(q), cs, c.value);
        CoveringIsSurer(EXACT, Plus(NOTHING, c.value.stats), REDUCED, s1, now, sqrt);
      }
    }
  }

  // ---- The choice among agreeing levels

  /** A level of the hierarchy, scored by its confidence and its level's bonus. */
  ghost predicate Scored(c: Candidate) {
    EXACT <= c.level <= GLOBAL && c.score == c.confidence + Bonus(c.level)
  }

  /** `b` is more general and at least as sure. */
  ghost predicate Above(b: Candidate, a: Candidate) {
    a.level < b.level && a.confidence <= b.confidence
  }

  /** From specific to general and ever surer. */
  ghost predicate Ascending(cs: seq<Candidate>) {
    (forall i :: 0 <= i < |cs| ==> Scored(cs[i])) && (forall i, j :: 0 <= i < j < |cs| ==> Above(cs[j], cs[i]))
  }

  ghost predicate Agree(cs: seq<Candidate>) {
    forall i, j :: 0 <= i < j < |cs| ==> cs[i].rec == cs[j].rec
  }

  lemma AppendAscends(cs: seq<Candidate>, c: Option<Candidate>)
    requires Ascending(cs)
    requires c.Some? ==> Scored(c.value) && forall i :: 0 <= i < |cs| ==> Above(c.value, cs[i])
    ensures Ascending(cs + Kept(c))
  {
    var longer := cs + Kept(c);
    forall i, j | 0 <= i < j < |longer| ensures Above(longer[j], longer[i]) {
      if j < |cs| { assert Above(cs[j], cs[i]); }
    }
  }

  /** Among agreeing candidates the more general one wins, however big or small the gap. */
  lemma {:induction false} AgreeingGeneralWins(cs: seq<Candidate>)
    requires cs != [] && Ascending(cs) && Agree(cs)
    ensures Best(cs) == cs[|cs| - 1]
  {
    if |cs| > 1 {
      AgreeingGeneralWins(cs[..|cs| - 1]);
      assert Best(cs[..|cs| - 1]) == cs[|cs| - 2];
      assert ShouldPrefer(cs[|cs| - 1], cs[|cs| - 2]);
    }
  }

  lemma {:induction false} ActionableConcat(a: seq<Candidate>, b: seq<Candidate>)
    ensures ActionableOnly(a + b) == ActionableOnly(a) + ActionableOnly(b)
  {
    if b == [] {
      assert a + b == a;
    } else {
      assert (a + b)[..|a + b| - 1] == a + b[..|b| - 1];
      ActionableConcat(a, b[..|b| - 1]);
    }
  }

  /** The candidates of the three local levels. */
  function LocalCandidates(ps: seq<ProviderRecord>, cs: seq<ContextRecord>, q: Query, now: Time,
                           sqrt: real -> real): seq<Candidate> {
    Listed(Level0(ps, cs, q, now, sqrt)) + Listed(Level1(ps, cs, q, now, sqrt)) + Listed(Level2(ps, cs, q, now, sqrt))
  }

  /** One more candidate, met after all others. */
  lemma BestSnoc(cs: seq<Candidate>, c: Candidate)
    requires cs != []
    ensures Best(cs + [c]) == if ShouldPrefer(c, Best(cs)) then c else Best(cs)
  {
    assert (cs + [c])[..|cs|] == cs;
  }

  /** The global feedback is met last: it is picked if it is actionable and preferred to the best of
      the local levels, or if there is no such level. */
  lemma PickWithGlobal(all: seq<Candidate>, world: Option<Candidate>)
    ensures var local := ActionableOnly(all);
            var fits := world.Some? && Actionable(world.value);
            Pick(all + Listed(world)) ==
            if local == [] then (if fits then world else None)
            else if fits && ShouldPrefer(world.value, Best(local)) then world else Some(Best(local))
  {
    var local := ActionableOnly(all);
    ActionableConcat(all, Listed(world));
    OneActionable(world);
    if world.Some? && Actionable(world.value) {
      assert [] + [world.value] == [world.value];
      if local != [] { BestSnoc(local, world.value); }
    } else {
      assert local + [] == local;
    }
  }

  /** When the actionable local levels agree, the pick is the most general of them, unless the global
      feedback is actionable and preferred to it. */
  lemma MostGeneralLocalOrGlobal(
    ps: seq<ProviderRecord>, cs: seq<ContextRecord>, global: map<string, GlobalFeedback>, q: Query, now: Time,
    sqrt: real -> real)
    requires GoodRecords(ps, cs) && IsSqrt(sqrt)
    requires var local := ActionableOnly(LocalCandidates(ps, cs, q, now, sqrt)); local != [] && Agree(local)
    ensures var local := ActionableOnly(LocalCandidates(ps, cs, q, now, sqrt));
            var top, world := local[|local| - 1], Level3(global, q, now, sqrt);
            && (forall i :: 0 <= i < |local| ==> local[i].level <= top.level)
            && Pick(LocalCandidates(ps, cs, q, now, sqrt) + Listed(world)) ==
               if world.Some? && Actionable(world.value) && ShouldPrefer(world.value, top) then world else Some(top)
  {
    LocalAscends(ps, cs, q, now, sqrt);
    AgreeingGeneralWins(ActionableOnly(LocalCandidates(ps, cs, q, now, sqrt)));
    PickWithGlobal(LocalCandidates(ps, cs, q, now, sqrt), Level3(global, q, now, sqrt));
  }

  // ---- The choice among disagreeing levels

  /** Of two candidates the more general one is preferred when they agree, and else the one with the
      higher score. */
  lemma PreferAbove(b: Candidate, a: Candidate)
    requires Scored(a) && Scored(b) && Above(b, a)
    ensures ShouldPrefer(b, a) <==> a.rec == b.rec || b.score > a.score
    ensures ShouldPrefer(a, b) <==> a.rec != b.rec && a.score > b.score
  {
  }

  /** The last candidate of another recommendation than the last of all. */
  ghost predicate LastDissenter(cs: seq<Candidate>, o: int) {
    0 <= o < |cs| && cs[o].rec != cs[|cs| - 1].rec && forall i :: o < i < |cs| ==> cs[i].rec == cs[|cs| - 1].rec
  }

  lemma {:induction false} BestIsMember(cs: seq<Candidate>) returns (i: nat)
    requires cs != []
    ensures i < |cs| && Best(cs) == cs[i]
  {
    if |cs| == 1 || ShouldPrefer(cs[|cs| - 1], Best(cs[..|cs| - 1])) {
      i := |cs| - 1;
    } else {
      i := BestIsMember(cs[..|cs| - 1]);
    }
  }

  ghost predicate NoneScoresHigher(cs: seq<Candidate>, o: int)
    requires 0 <= o < |cs|
  {
    forall i :: o < i < |cs| ==> cs[i].score <= cs[o].score
  }

  /** Going from specific to general over two recommendations, the fold ends at the last dissenter if
      it had won its own round and no later candidate scores higher, and else at the last of all. */
  lemma {:induction false} LastDissenterOrLast(cs: seq<Candidate>, o: int)
    requires Ascending(cs) && LastDissenter(cs, o)
    requires forall i :: 0 <= i < |cs| ==> cs[i].rec == cs[o].rec || cs[i].rec == cs[|cs| - 1].rec
    ensures Best(cs) ==
            if Best(cs[..o + 1]) == cs[o] && NoneScoresHigher(cs, o) then cs[o] else cs[|cs| - 1]
  {
    var n := |cs| - 1;
    var front, last := cs[..n], cs[n];
    assert front[..o + 1] == cs[..o + 1];
    assert front + [last] == cs;
    if o == n - 1 {
      assert front == cs[..o + 1];
      assert forall i :: 0 <= i < n ==> Above(last, front[i]);
      AfterDissenter(front, last);
    } else {
      assert LastDissenter(front, o);
      LastDissenterOrLast(front, o);
      assert NoneScoresHigher(cs, o) <==> NoneScoresHigher(front, o) && last.score <= cs[o].score;
      AfterRound(front, last, o);
    }
  }

  /** One more candidate that agrees with the last one, after a round between that and the dissenter. */
  lemma AfterRound(front: seq<Candidate>, last: Candidate, o: int)
    requires LastDissenter(front, o) && front[|front| - 1].rec == last.rec && Scored(last)
    requires Scored(front[o]) && Above(last, front[o])
    requires Scored(front[|front| - 1]) && Above(last, front[|front| - 1])
    requires Best(front) == front[o] || Best(front) == front[|front| - 1]
    ensures Best(front + [last]) == if Best(front) == front[o] && last.score <= front[o].score then front[o] else last
  {
    BestSnoc(front, last);
    PreferAbove(last, front[o]);
    PreferAbove(last, front[|front| - 1]);
  }

  lemma AfterDissenter(front: seq<Candidate>, last: Candidate)
    requires front != [] && Ascending(front) && Scored(last) && forall i :: 0 <= i < |front| ==> Above(last, front[i])
    requires front[|front| - 1].rec != last.rec
    requires forall i :: 0 <= i < |front| ==> front[i].rec == front[|front| - 1].rec || front[i].rec == last.rec
    ensures var d := front[|front| - 1];
            Best(front + [last]) == if Best(front) == d && last.score <= d.score then d else last
  {
    BestSnoc(front, last);
    var i := BestIsMember(front);
    PreferAbove(last, front[i]);
    OnlyLastSurvives(front, i);
  }

  /** The fold never ends at a candidate when a later one agrees with it. */
  lemma {:induction false} OnlyLastSurvives(cs: seq<Candidate>, i: nat)
    requires cs != [] && Ascending(cs) && i < |cs| && Best(cs) == cs[i]
    ensures forall j :: i < j < |cs| ==> cs[j].rec != cs[i].rec
  {
    var n := |cs| - 1;
    if i < n {
      assert Above(cs[n], cs[i]);
      PreferAbove(cs[n], cs[i]);
      assert Best(cs[..n]) == cs[i];
      OnlyLastSurvives(cs[..n], i);
      forall j | i < j < |cs| ensures cs[j].rec != cs[i].rec {
        if j < n { assert cs[..n][j].rec != cs[..n][i].rec; }
      }
    }
  }

  /** The three local levels, spelled out: `a` the exact, `b` the reduced, `c` the generalized one. */
  lemma ThreeLevels(a: Candidate, b: Candidate, c: Candidate)
    requires Ascending([a, b, c]) && Actionable(a) && Actionable(b) && Actionable(c)
    ensures Best([a, b, c]) ==
            if a.rec != b.rec == c.rec && b.score <= a.score && c.score <= a.score then a
            else if b.rec != c.rec && (a.rec == b.rec || a.score < b.score) && c.score <= b.score then b
            else c
  {
    var three := [a, b, c];
    assert Above(three[1], three[0]) && Above(three[2], three[1]) && Above(three[2], three[0]);
    assert Scored(three[0]) && Scored(three[1]) && Scored(three[2]);
    PreferAbove(b, a);
    PreferAbove(c, b);
    PreferAbove(c, a);
    assert [a] + [b] == [a, b] && [a, b] + [c] == three;
    BestSnoc([a], b);
    BestSnoc([a, b], c);
  }

  /** The preference runs in a circle exactly when the outer levels agree against the middle one and
      the scores fall. */
  lemma CircularIff(a: Candidate, b: Candidate, c: Candidate)
    requires Scored(a) && Scored(b) && Scored(c) && Above(b, a) && Above(c, b)
    ensures ShouldPrefer(a, b) && ShouldPrefer(b, c) && ShouldPrefer(c, a) <==>
            a.rec == c.rec != b.rec && a.score > b.score > c.score
  {
    PreferAbove(b, a);
    PreferAbove(c, b);
    PreferAbove(c, a);
  }

  // A circle from records

  lemma SqrtOne(sqrt: real -> real)
    requires IsSqrt(sqrt)
    ensures sqrt(1.0) == 1.0
  {
    var r := sqrt(1.0);
    assert r >= 0.0 && r * r == 1.0;
    if r > 1.0 { LargerSquare(r, 1.0); }
    if r < 1.0 { LargerSquare(1.0, r); }
  }

  /** Ten or more runs up to now are full evidence. */
  lemma FullEvidence(level: int, s: Stats, now: Time, sqrt: real -> real)
    requires IsSqrt(sqrt) && s.total >= 10 && s.latest == now > 0
    ensures Build(level, s, now, sqrt) ==
            Some(Candidate(level, Feedback(s), 1.0, 1.0, 1.0, Bonus(level), 1.0 + Bonus(level),
                           s.total, Rate(s.success, s.total), Rate(s.failure, s.total)))
  {
    SqrtOne(sqrt);
  }

  lemma TotalOfThree(keep: ContextRecord -> bool, x: ContextRecord, y: ContextRecord, z: ContextRecord)
    ensures Total(ContextStats(), keep, [x, y, z]) ==
            AddIf(keep(z), AddIf(keep(y), AddIf(keep(x), NOTHING, x.stats), y.stats), z.stats)
  {
    TotalSnoc(keep, [], x);
    TotalSnoc(keep, [x], y);
    TotalSnoc(keep, [x, y], z);
    assert [] + [x] == [x] && [x] + [y] == [x, y] && [x, y] + [z] == [x, y, z];
  }

  lemma TotalSnoc(keep: ContextRecord -> bool, front: seq<ContextRecord>, r: ContextRecord)
    ensures Total(ContextStats(), keep, front + [r]) == AddIf(keep(r), Total(ContextStats(), keep, front), r.stats)
  {
    assert (front + [r])[..|front|] == front;
  }

  function AddIf(kept: bool, s: Stats, more: Stats): Stats {
    if kept then Plus(s, more) else s
  }

  /** Ten successes at the point asked for, thirty failures with another backlog, two hundred successes
      in another failure bucket, all of them up to now. */
  function CircleRecords(q: Query, now: Time): seq<ContextRecord> {
    [ContextRecord(q.action, q.goal, "", q.failure, q.backlog, Stats(10, 10, 0, 0, now)),
     ContextRecord(q.action, q.goal, "", q.failure, q.backlog + "+", Stats(30, 0, 30, 0, now)),
     ContextRecord(q.action, q.goal, "", q.failure + "+", q.backlog, Stats(200, 200, 0, 0, now))]
  }

  lemma CircleStats(q: Query, now: Time)
    requires now > 0
    ensures var cs := CircleRecords(q, now);
            && First(ExactContext(q), cs) == Some(cs[0])
            && Total(ContextStats(), ReducedContext(q), cs) == Stats(40, 10, 30, 0, now)
            && Total(ContextStats(), GoalContext(q), cs) == Stats(240, 210, 30, 0, now)
  {
    var cs := CircleRecords(q, now);
    assert cs == [cs[0], cs[1], cs[2]];
    TotalOfThree(ReducedContext(q), cs[0], cs[1], cs[2]);
    TotalOfThree(GoalContext(q), cs[0], cs[1], cs[2]);
  }

  lemma CircleLevels(q: Query, now: Time, sqrt: real -> real) returns (a: Candidate, b: Candidate, c: Candidate)
    requires IsSqrt(sqrt) && now > 0
    ensures var cs := CircleRecords(q, now);
            && Level0([], cs, q, now, sqrt) == Some(a)
            && Level1([], cs, q, now, sqrt) == Some(b)
            && Level2([], cs, q, now, sqrt) == Some(c)
    ensures a.level == EXACT && a.rec == PreferAction && a.confidence == 1.0 && a.score == 1.03
    ensures b.level == REDUCED && b.rec == AvoidAction && b.confidence == 1.0 && b.score == 1.02
    ensures c.level == GENERALIZED && c.rec == PreferAction && c.confidence == 1.0 && c.score == 1.01
  {
    CircleStats(q, now);
    FullEvidence(EXACT, Stats(10, 10, 0, 0, now), now, sqrt);
    FullEvidence(REDUCED, Stats(40, 10, 30, 0, now), now, sqrt);
    FullEvidence(GENERALIZED, Stats(240, 210, 30, 0, now), now, sqrt);
    a := Level0([], CircleRecords(q, now), q, now, sqrt).value;
    b := Level1([], CircleRecords(q, now), q, now, sqrt).value;
    c := Level2([], CircleRecords(q, now), q, now, sqrt).value;
  }

  /** The circle happens: these records lead to it, and another order of comparison picks another
      recommendation. */
  lemma CircularPreference(q: Query, now: Time, sqrt: real -> real) returns (a: Candidate, b: Candidate, c: Candidate)
    requires IsSqrt(sqrt) && now > 0
    ensures LocalCandidates([], CircleRecords(q, now), q, now, sqrt) == [a, b, c]
    ensures Actionable(a) && Actionable(b) && Actionable(c)
    ensures ShouldPrefer(a, b) && ShouldPrefer(b, c) && ShouldPrefer(c, a)
    ensures Best([a, b, c]) == c && Best([c, a, b]) == b && c.rec != b.rec
  {
    a, b, c := CircleLevels(q, now, sqrt);
    assert [a] + [b] == [a, b] && [a, b] + [c] == [a, b, c];
    assert [c] + [a] == [c, a] && [c, a] + [b] == [c, a, b];
    BestSnoc([a], b);
    BestSnoc([a, b], c);
    BestSnoc([c], a);
    BestSnoc([c, a], b);
  }

  // The pick from records

  /** The pick among the actionable local levels, from their recommendations and scores alone. */
  function LocalPick(local: seq<Candidate>): Candidate
    requires 0 < |local| <= 3
  {
    if |local| == 1 then local[0]
    else if |local| == 2 then
      var a, b := local[0], local[1];
      if a.rec != b.rec && b.score <= a.score then a else b
    else
      var a, b, c := local[0], local[1], local[2];
      if a.rec != b.rec == c.rec && b.score <= a.score && c.score <= a.score then a
      else if b.rec != c.rec && (a.rec == b.rec || a.score < b.score) && c.score <= b.score then b
      else c
  }

  lemma LocalPickIsBest(local: seq<Candidate>)
    requires 0 < |local| <= 3 && Ascending(local) && forall i :: 0 <= i < |local| ==> Actionable(local[i])
    ensures Best(local) == LocalPick(local)
  {
    if |local| == 2 {
      assert local == [local[0]] + [local[1]];
      PreferAbove(local[1], local[0]);
      BestSnoc([local[0]], local[1]);
    } else if |local| == 3 {
      assert local == [local[0], local[1], local[2]];
      ThreeLevels(local[0], local[1], local[2]);
    }
  }

  lemma LocalCount(ps: seq<ProviderRecord>, cs: seq<ContextRecord>, q: Query, now: Time, sqrt: real -> real)
    ensures var local := ActionableOnly(LocalCandidates(ps, cs, q, now, sqrt));
            |local| <= 3 && forall i :: 0 <= i < |local| ==> Actionable(local[i])
  {
    ActionableFacts(LocalCandidates(ps, cs, q, now, sqrt));
  }

  lemma {:induction false} ActionableFacts(cs: seq<Candidate>)
    ensures |ActionableOnly(cs)| <= |cs|
    ensures forall i :: 0 <= i < |ActionableOnly(cs)| ==> Actionable(ActionableOnly(cs)[i])
  {
    if cs != [] { ActionableFacts(cs[..|cs| - 1]); }
  }

  /** For all records with non-negative counts, whether or not the local levels agree: the pick is told
      from the recommendations and scores of the actionable ones, unless the global feedback is
      actionable and preferred to it, or there is none of them. */
  lemma PickFromRecords(
    ps: seq<ProviderRecord>, cs: seq<ContextRecord>, global: map<string, GlobalFeedback>, q: Query, now: Time,
    sqrt: real -> real)
    requires GoodRecords(ps, cs) && IsSqrt(sqrt)
    ensures var local := ActionableOnly(LocalCandidates(ps, cs, q, now, sqrt));
            var world := Level3(global, q, now, sqrt);
            var fits := world.Some? && Actionable(world.value);
            && |local| <= 3
            && Pick(LocalCandidates(ps, cs, q, now, sqrt) + Listed(world)) ==
               if local == [] then (if fits then world else None)
               else if fits && ShouldPrefer(world.value, LocalPick(local)) then world else Some(LocalPick(local))
  {
    var local := ActionableOnly(LocalCandidates(ps, cs, q, now, sqrt));
    LocalAscends(ps, cs, q, now, sqrt);
    LocalCount(ps, cs, q, now, sqrt);
    if local != [] { LocalPickIsBest(local); }
    PickWithGlobal(LocalCandidates(ps, cs, q, now, sqrt), Level3(global, q, now, sqrt));
  }

  lemma LocalAscends(ps: seq<ProviderRecord>, cs: seq<ContextRecord>, q: Query, now: Time, sqrt: real -> real)
    requires GoodRecords(ps, cs) && IsSqrt(sqrt)
    ensures Ascending(ActionableOnly(LocalCandidates(ps, cs, q, now, sqrt)))
  {
    GeneralLevelsAreSurer(ps, cs, q, now, sqrt);
    ThreeAscend(Level0(ps, cs, q, now, sqrt), Level1(ps, cs, q, now, sqrt), Level2(ps, cs, q, now, sqrt));
  }

  lemma ThreeAscend(c0: Option<Candidate>, c1: Option<Candidate>, c2: Option<Candidate>)
    requires c0.Some? ==> c0.value.level == EXACT && Scored(c0.value) && c1.Some? && Above(c1.value, c0.value)
    requires c1.Some? ==> c1.value.level == REDUCED && Scored(c1.value) && c2.Some? && Above(c2.value, c1.value)
    requires c2.Some? ==> Scored(c2.value)
    ensures Ascending(ActionableOnly(Listed(c0) + Listed(c1) + Listed(c2)))
  {
    ThreeKept(c0, c1, c2);
    ThreeKeptAscend(c0, c1, c2);
  }

  lemma ThreeKeptAscend(c0: Option<Candidate>, c1: Option<Candidate>, c2: Option<Candidate>)
    requires c0.Some? ==> Scored(c0.value) && c1.Some? && Above(c1.value, c0.value)
    requires c1.Some? ==> Scored(c1.value) && c2.Some? && Above(c2.value, c1.value)
    requires c2.Some? ==> Scored(c2.value)
    ensures Ascending(Kept(c0) + Kept(c1) + Kept(c2))
  {
    TwoKeptAscend(c0, c1);
    var two := Kept(c0) + Kept(c1);
    if c2.Some? {
      forall i | 0 <= i < |two| ensures Above(c2.value, two[i]) {
        assert two[i] == c1.value || (c0.Some? && two[i] == c0.value);
      }
    }
    AppendAscends(two, c2);
  }

  lemma TwoKeptAscend(c0: Option<Candidate>, c1: Option<Candidate>)
    requires c0.Some? ==> Scored(c0.value) && c1.Some? && Above(c1.value, c0.value)
    requires c1.Some? ==> Scored(c1.value)
    ensures Ascending(Kept(c0) + Kept(c1))
  {
    AppendAscends(Kept(c0), c1);
  }

  function Kept(c: Option<Candidate>): seq<Candidate> {
    if c.Some? && Actionable(c.value) then [c.value] else []
  }

  lemma ThreeKept(c0: Option<Candidate>, c1: Option<Candidate>, c2: Option<Candidate>)
    ensures ActionableOnly(Listed(c0) + Listed(c1) + Listed(c2)) == Kept(c0) + Kept(c1) + Kept(c2)
  {
    ActionableConcat(Listed(c0) + Listed(c1), Listed(c2));
    ActionableConcat(Listed(c0), Listed(c1));
    OneActionable(c0);
    OneActionable(c1);
    OneActionable(c2);
  }

  lemma OneActionable(c: Option<Candidate>)
    ensures ActionableOnly(Listed(c)) == Kept(c)
  {
    if c.Some? { assert [c.value][..0] == []; }
  }
}
