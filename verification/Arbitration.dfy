/** Signal arbitration: suppression by isolation and by low confidence, hard override by priority,
    then reinforcement or neutralization of what is left. */
module Arbitration {
  import opened Options
  import opened Filters

  datatype SignalType =
    | Stability | Calibration | Causal | Comparative | PathLearning | TransitionLearning | Exploration

  datatype Recommendation = Neutral | Prefer | Avoid

  datatype Signal = Signal(kind: SignalType, rec: Recommendation, adjustment: real, confidence: real, source: string)

  datatype Rule =
    | ExplorationIsolation | ConfidenceSuppression | HardOverride | ConflictNeutralization | Reinforcement
  datatype Suppressed = Suppressed(signal: Signal, rule: Rule)
  datatype Reason = NoSignals | AllSuppressed | ConflictNeutralized | SingleSignal | Reinforced

  datatype Result = Result(
    final: real, applied: seq<Signal>, suppressed: seq<Suppressed>, winner: Option<Signal>, rules: seq<Rule>,
    reason: Reason)

  const CONFIDENCE_THRESHOLD: real := 0.4

  /** Lower number, higher priority. */
  function Priority(t: SignalType): int {
    match t
    case Stability => 1
    case Calibration => 2
    case Causal => 3
    case Comparative => 4
    case PathLearning => 5
    case TransitionLearning => 6
    case Exploration => 7
  }

  predicate HigherPriority(a: SignalType, b: SignalType) {
    Priority(a) < Priority(b)
  }

  predicate IsLearning(t: SignalType) {
    t == PathLearning || t == TransitionLearning || t == Comparative
  }

  predicate BlocksExploration(t: SignalType) {
    t == Stability || t == Calibration
  }

  predicate Contradicts(a: Recommendation, b: Recommendation) {
    (a == Prefer && b == Avoid) || (a == Avoid && b == Prefer)
  }

  // ---- The stable sort

  function RecRank(r: Recommendation): int {
    match r case Neutral => 0 case Prefer => 1 case Avoid => 2
  }

  predicate Before(a: Signal, b: Signal) {
    if a.kind != b.kind then Priority(a.kind) < Priority(b.kind) else RecRank(a.rec) > RecRank(b.rec)
  }

  /** `x` goes in front of the first element that is not before it. */
  function Insert(x: Signal, s: seq<Signal>): seq<Signal> {
    if s == [] || !Before(s[0], x) then [x] + s else [s[0]] + Insert(x, s[1..])
  }

  function Sort(s: seq<Signal>): seq<Signal> {
    if s == [] then [] else Insert(s[0], Sort(s[1..]))
  }

  ghost predicate Ordered(s: seq<Signal>) {
    forall i, j :: 0 <= i < j < |s| ==> !Before(s[j], s[i])
  }

  function SameKey(x: Signal): Signal -> bool {
    (y: Signal) => y.kind == x.kind && y.rec == x.rec
  }

  lemma {:induction false} InsertKeeps(x: Signal, s: seq<Signal>)
    ensures multiset(Insert(x, s)) == multiset{x} + multiset(s)
    ensures forall y :: y in Insert(x, s) <==> y == x || y in s
  {
    if s != [] && Before(s[0], x) {
      InsertKeeps(x, s[1..]);
      assert s == [s[0]] + s[1..];
    }
  }

  lemma {:induction false} InsertOrders(x: Signal, s: seq<Signal>)
    requires Ordered(s)
    ensures Ordered(Insert(x, s))
  {
    if s != [] && Before(s[0], x) {
      var rest := Insert(x, s[1..]);
      InsertOrders(x, s[1..]);
      InsertKeeps(x, s[1..]);
      forall j | 0 <= j < |rest| ensures !Before(rest[j], s[0]) {
        assert rest[j] in rest;
        assert forall y :: y in s[1..] ==> !Before(y, s[0]);
      }
    } else {
      forall j | 0 <= j < |s| ensures !Before(s[j], x) {
        assert j > 0 ==> !Before(s[j], s[0]);
      }
    }
  }

  lemma SwapDistinct(a: seq<Signal>, b: seq<Signal>, c: seq<Signal>)
    ensures a == [] || b == [] ==> a + (b + c) == b + (a + c)
  {
  }

  lemma {:induction false} InsertIsStable(x: Signal, s: seq<Signal>, z: Signal)
    ensures Filter(SameKey(z), Insert(x, s)) == Filter(SameKey(z), [x]) + Filter(SameKey(z), s)
  {
    if s == [] || !Before(s[0], x) {
      FilterConcat(SameKey(z), [x], s);
    } else {
      var rest := s[1..];
      InsertIsStable(x, rest, z);
      assert s == [s[0]] + rest;
      FilterConcat(SameKey(z), [s[0]], Insert(x, rest));
      FilterConcat(SameKey(z), [s[0]], rest);
      SwapDistinct(Filter(SameKey(z), [x]), Filter(SameKey(z), [s[0]]), Filter(SameKey(z), rest));
    }
  }

  /** The sort orders its input, keeps every signal, and keeps the order of signals with equal keys. */
  lemma {:induction false} SortIsStable(s: seq<Signal>, z: Signal)
    ensures Ordered(Sort(s)) && multiset(Sort(s)) == multiset(s)
    ensures Filter(SameKey(z), Sort(s)) == Filter(SameKey(z), s)
  {
    if s != [] {
      SortIsStable(s[1..], z);
      InsertKeeps(s[0], Sort(s[1..]));
      InsertOrders(s[0], Sort(s[1..]));
      InsertIsStable(s[0], Sort(s[1..]), z);
      assert s == [s[0]] + s[1..];
      FilterConcat(SameKey(z), [s[0]], s[1..]);
    }
  }

  // ---- The phases

  ghost predicate HasBlocker(s: seq<Signal>) {
    exists x :: x in s && BlocksExploration(x.kind) && x.rec != Neutral
  }

  function NotExploration(): Signal -> bool {
    (x: Signal) => x.kind != Exploration
  }

  function NotLearning(): Signal -> bool {
    (x: Signal) => !IsLearning(x.kind)
  }

  /** Some directional signal of higher priority points the other way. */
  predicate Overridden(x: Signal, all: seq<Signal>) {
    exists i :: 0 <= i < |all| && all[i].rec != Neutral
      && HigherPriority(all[i].kind, x.kind) && Contradicts(all[i].rec, x.rec)
  }

  function Survives(all: seq<Signal>): Signal -> bool {
    (x: Signal) => x.rec == Neutral || !Overridden(x, all)
  }

  predicate Conflict(s: seq<Signal>) {
    (exists i :: 0 <= i < |s| && s[i].rec == Prefer) && (exists i :: 0 <= i < |s| && s[i].rec == Avoid)
  }

  function Not(p: Signal -> bool): Signal -> bool {
    (x: Signal) => !p(x)
  }

  function Tag(s: seq<Signal>, rule: Rule): (r: seq<Suppressed>)
    ensures |r| == |s| && forall i :: 0 <= i < |s| ==> r[i] == Suppressed(s[i], rule)
  {
    seq(|s|, i requires 0 <= i < |s| => Suppressed(s[i], rule))
  }

  ghost function Isolated(s: seq<Signal>): seq<Signal> {
    if HasBlocker(s) then Filter(NotExploration(), s) else s
  }

  function Confident(s: seq<Signal>, confidence: real): seq<Signal> {
    if confidence >= CONFIDENCE_THRESHOLD then s else Filter(NotLearning(), s)
  }

  function Unopposed(s: seq<Signal>): seq<Signal> {
    Filter(Survives(s), s)
  }

  function Adjustment(): Signal -> real {
    (x: Signal) => x.adjustment
  }

  /** Pulled toward zero, with strength 0.3. */
  function Neutralized(total: real): real {
    total * (1.0 - 0.3)
  }

  /** What the surviving signals add up to. */
  function Score(active: seq<Signal>): real {
    if Conflict(active) then Neutralized(Sum(Adjustment(), active)) else Sum(Adjustment(), active)
  }

  /** The signals still standing after all three phases. */
  ghost function Standing(signals: seq<Signal>, confidence: real): seq<Signal> {
    Unopposed(Confident(Isolated(Sort(signals)), confidence))
  }

  /** What the three phases drop, in their order, each with its rule. */
  ghost function Dropped(signals: seq<Signal>, confidence: real): seq<Suppressed> {
    var s1 := Sort(signals);
    var s2 := Isolated(s1);
    var s3 := Confident(s2, confidence);
    Tag(if HasBlocker(s1) then Filter(Not(NotExploration()), s1) else [], ExplorationIsolation)
    + Tag(if confidence >= CONFIDENCE_THRESHOLD then [] else Filter(Not(NotLearning()), s2), ConfidenceSuppression)
    + Tag(Filter(Not(Survives(s3)), s3), HardOverride)
  }

  /** The rules that had an effect: those that suppressed something, then the one that combined what
      was left, if anything was. */
  function RulesFor(active: seq<Signal>, suppressed: seq<Suppressed>): seq<Rule> {
    SuppressingRules(suppressed) + CombiningRule(active)
  }

  function SuppressingRules(suppressed: seq<Suppressed>): seq<Rule> {
    IfUsed(ExplorationIsolation, suppressed) + IfUsed(ConfidenceSuppression, suppressed)
    + IfUsed(HardOverride, suppressed)
  }

  function IfUsed(rule: Rule, suppressed: seq<Suppressed>): seq<Rule> {
    if exists i :: 0 <= i < |suppressed| && suppressed[i].rule == rule then [rule] else []
  }

  function CombiningRule(active: seq<Signal>): seq<Rule> {
    if active == [] then [] else if Conflict(active) then [ConflictNeutralization] else [Reinforcement]
  }

  // ---- The loops

  method ApplyExplorationIsolation(signals: seq<Signal>) returns (active: seq<Signal>, suppressed: seq<Signal>)
    ensures active == Isolated(signals)
    ensures suppressed == if HasBlocker(signals) then Filter(Not(NotExploration()), signals) else []
  {
    var hasBlocker := false;
    var i := 0;
    while i < |signals| && !hasBlocker
      invariant i <= |signals|
      invariant hasBlocker ==> HasBlocker(signals)
      invariant !hasBlocker ==> forall k :: 0 <= k < i ==>
                !(BlocksExploration(signals[k].kind) && signals[k].rec != Neutral)
    {
      if BlocksExploration(signals[i].kind) && signals[i].rec != Neutral {
        hasBlocker := true;
      }
      i := i + 1;
    }
    if !hasBlocker {
      return signals, [];
    }
    active, suppressed := Partition(NotExploration(), signals);
    if suppressed == [] {
      NoneDropped(NotExploration(), signals);
      return signals, [];
    }
  }

  method ApplyConfidenceSuppression(signals: seq<Signal>, confidence: real)
    returns (active: seq<Signal>, suppressed: seq<Signal>)
    ensures active == Confident(signals, confidence)
    ensures suppressed == if confidence >= CONFIDENCE_THRESHOLD then [] else Filter(Not(NotLearning()), signals)
  {
    if confidence >= CONFIDENCE_THRESHOLD {
      return signals, [];
    }
    active, suppressed := Partition(NotLearning(), signals);
    if suppressed == [] {
      NoneDropped(NotLearning(), signals);
      return signals, [];
    }
  }

  lemma NoneDropped(keep: Signal -> bool, s: seq<Signal>)
    requires Filter(Not(keep), s) == []
    ensures Filter(keep, s) == s
  {
    FilterMembers(Not(keep), s);
    assert forall x :: x in s ==> Not(keep)(x) ==> x in Filter(Not(keep), s);
    FilterAll(keep, s);
  }

  /** The loop both suppression rules share. */
  method Partition(keep: Signal -> bool, signals: seq<Signal>) returns (active: seq<Signal>, suppressed: seq<Signal>)
    ensures active == Filter(keep, signals) && suppressed == Filter(Not(keep), signals)
  {
    active, suppressed := [], [];
    for i := 0 to |signals|
      invariant active == Filter(keep, signals[..i]) && suppressed == Filter(Not(keep), signals[..i])
    {
      FilterStep(keep, signals, i);
      FilterStep(Not(keep), signals, i);
      if keep(signals[i]) {
        active := active + [signals[i]];
      } else {
        suppressed := suppressed + [signals[i]];
      }
    }
    assert signals[..|signals|] == signals;
  }

  method ApplyHardOverride(signals: seq<Signal>) returns (active: seq<Signal>, suppressed: seq<Signal>)
    ensures active == Unopposed(signals)
    ensures suppressed == Filter(Not(Survives(signals)), signals)
  {
    if |signals| <= 1 {
      LonelySurvives(signals);
      return signals, [];
    }
    var dominants := Dominants(signals);
    active, suppressed := [], [];
    for i := 0 to |signals|
      invariant active == Filter(Survives(signals), signals[..i])
      invariant suppressed == Filter(Not(Survives(signals)), signals[..i])
    {
      FilterStep(Survives(signals), signals, i);
      FilterStep(Not(Survives(signals)), signals, i);
      var overridden := false;
      if signals[i].rec != Neutral {
        overridden := FindOverride(signals[i], dominants, signals);
      }
      if overridden {
        suppressed := suppressed + [signals[i]];
      } else {
        active := active + [signals[i]];
      }
    }
    assert signals[..|signals|] == signals;
  }

  lemma LonelySurvives(s: seq<Signal>)
    requires |s| <= 1
    ensures Unopposed(s) == s && Filter(Not(Survives(s)), s) == []
  {
    forall x | x in s ensures Survives(s)(x) {
      assert x == s[0] && !Overridden(x, s);
    }
    FilterAll(Survives(s), s);
    FilterNone(Not(Survives(s)), s);
  }

  /** Every directional signal, overridden or not. */
  method Dominants(signals: seq<Signal>) returns (dominants: seq<Signal>)
    ensures dominants == Filter(Directional(), signals)
  {
    dominants := [];
    for i := 0 to |signals|
      invariant dominants == Filter(Directional(), signals[..i])
    {
      FilterStep(Directional(), signals, i);
      if signals[i].rec != Neutral {
        dominants := dominants + [signals[i]];
      }
    }
    assert signals[..|signals|] == signals;
  }

  function Directional(): Signal -> bool {
    (x: Signal) => x.rec != Neutral
  }

  method FindOverride(x: Signal, dominants: seq<Signal>, all: seq<Signal>) returns (found: bool)
    requires dominants == Filter(Directional(), all)
    ensures found <==> Overridden(x, all)
  {
    FilterMembers(Directional(), all);
    for i := 0 to |dominants|
      invariant forall k :: 0 <= k < i ==>
                !(HigherPriority(dominants[k].kind, x.kind) && Contradicts(dominants[k].rec, x.rec))
    {
      if HigherPriority(dominants[i].kind, x.kind) && Contradicts(dominants[i].rec, x.rec) {
        assert dominants[i] in all;
        return true;
      }
    }
    forall i | 0 <= i < |all| && all[i].rec != Neutral
      ensures !(HigherPriority(all[i].kind, x.kind) && Contradicts(all[i].rec, x.rec))
    {
      assert all[i] in dominants;
    }
    return false;
  }

  method HasConflict(signals: seq<Signal>) returns (r: bool)
    ensures r == Conflict(signals)
  {
    var hasPrefer, hasAvoid := false, false;
    for i := 0 to |signals|
      invariant hasPrefer <==> exists k :: 0 <= k < i && signals[k].rec == Prefer
      invariant hasAvoid <==> exists k :: 0 <= k < i && signals[k].rec == Avoid
    {
      if signals[i].rec == Prefer {
        hasPrefer := true;
      }
      if signals[i].rec == Avoid {
        hasAvoid := true;
      }
    }
    return hasPrefer && hasAvoid;
  }

  method TotalAdjustment(signals: seq<Signal>) returns (total: real)
    ensures total == Sum(Adjustment(), signals)
  {
    total := 0.0;
    for i := 0 to |signals|
      invariant total == Sum(Adjustment(), signals[..i])
    {
      assert signals[..i + 1][..i] == signals[..i];
      total := total + signals[i].adjustment;
    }
    assert signals[..|signals|] == signals;
  }

  /** `w` is the first signal of the highest priority present. */
  ghost predicate FirstOfHighest(w: Signal, active: seq<Signal>) {
    exists k :: 0 <= k < |active| && active[k] == w
      && (forall j :: 0 <= j < |active| ==> Priority(w.kind) <= Priority(active[j].kind))
      && (forall j :: 0 <= j < k ==> Priority(w.kind) < Priority(active[j].kind))
  }

  /** No signal has a higher priority than the first. */
  ghost predicate HeadedByHighest(s: seq<Signal>) {
    forall x :: x in s ==> Priority(s[0].kind) <= Priority(x.kind)
  }

  lemma WinnerIsFirst(w: Signal, active: seq<Signal>)
    requires FirstOfHighest(w, active) && HeadedByHighest(active)
    ensures w == active[0]
  {
  }

  method Winner(active: seq<Signal>) returns (w: Signal)
    requires active != []
    ensures FirstOfHighest(w, active)
  {
    w := active[0];
    ghost var at := 0;
    for i := 0 to |active|
      invariant 0 <= at < |active| && active[at] == w && (at == 0 || at < i)
      invariant forall j :: 0 <= j < i ==> Priority(w.kind) <= Priority(active[j].kind)
      invariant forall j :: 0 <= j < at ==> Priority(w.kind) < Priority(active[j].kind)
    {
      if HigherPriority(active[i].kind, w.kind) {
        w, at := active[i], i;
      }
    }
  }

  ghost function Signals(s: seq<Suppressed>): multiset<Signal> {
    if s == [] then multiset{} else Signals(s[..|s| - 1]) + multiset{s[|s| - 1].signal}
  }

  lemma {:induction false} SignalsConcat(a: seq<Suppressed>, b: seq<Suppressed>)
    ensures Signals(a + b) == Signals(a) + Signals(b)
  {
    if b == [] {
      assert a + b == a;
    } else {
      assert (a + b)[..|a + b| - 1] == a + b[..|b| - 1];
      SignalsConcat(a, b[..|b| - 1]);
    }
  }

  lemma {:induction false} SignalsOfTagged(s: seq<Signal>, rule: Rule)
    ensures Signals(Tag(s, rule)) == multiset(s)
  {
    if s != [] {
      var front := s[..|s| - 1];
      SignalsOfTagged(front, rule);
      assert Tag(s, rule)[..|s| - 1] == Tag(front, rule);
      assert s == front + [s[|s| - 1]];
    }
  }

  /** Arbitration of one path's signals.  Every signal is either applied or suppressed, the score is
      that of the signals left standing, and the winner is the first of them, of the highest priority. */
  method ResolveSignals(signals: seq<Signal>, confidence: real) returns (r: Result)
    ensures r.final == Score(Standing(signals, confidence))
    ensures r.applied == Standing(signals, confidence)
    ensures r.suppressed == Dropped(signals, confidence)
    ensures multiset(r.applied) + Signals(r.suppressed) == multiset(signals)
    ensures var counted := CountedSignals(signals, confidence);
            && DecidedByTop(counted, r.applied)
            && (r.reason == ConflictNeutralized <==> TopIsDivided(counted))
            && (if TopIsDivided(counted) then 10.0 * r.final == 7.0 * Sum(Adjustment(), r.applied)
                else r.final == Sum(Adjustment(), r.applied))
    ensures r.winner.Some? <==> r.applied != [] && !Conflict(r.applied)
    ensures r.winner.Some? ==> r.winner.value == r.applied[0]
    ensures HeadedByHighest(r.applied)
    ensures r.reason == if signals == [] then NoSignals else ReasonFor(r.applied)
    ensures r.rules == RulesFor(r.applied, r.suppressed)
  {
    r := RunPhases(signals, confidence);
    StandingIsOrdered(signals, confidence);
    if r.winner.Some? { WinnerIsFirst(r.winner.value, r.applied); }
    InputDecides(signals, confidence);
    NothingIsLost(signals, confidence);
    ScoreIsDamped(r.applied);
  }

  /** A conflict is pulled toward zero by three tenths: the score keeps the sign of the sum and lies
      closer to zero, unless the sum is zero; without a conflict it is the sum. */
  lemma ScoreIsDamped(active: seq<Signal>)
    ensures var sum, score := Sum(Adjustment(), active), Score(active);
            && (Conflict(active) ==> 10.0 * score == 7.0 * sum)
            && (Conflict(active) && sum > 0.0 ==> 0.0 < score < sum)
            && (Conflict(active) && sum < 0.0 ==> sum < score < 0.0)
            && (!Conflict(active) ==> score == sum)
  {
  }

  /** The phases in their order. */
  method RunPhases(signals: seq<Signal>, confidence: real) returns (r: Result)
    ensures r.applied == Standing(signals, confidence) && r.suppressed == Dropped(signals, confidence)
    ensures r.final == Score(r.applied)
    ensures r.winner.Some? <==> r.applied != [] && !Conflict(r.applied)
    ensures r.winner.Some? ==> FirstOfHighest(r.winner.value, r.applied)
    ensures r.reason == if signals == [] then NoSignals else ReasonFor(r.applied)
    ensures r.rules == RulesFor(r.applied, r.suppressed)
    ensures r.reason == ConflictNeutralized <==> Conflict(r.applied)
  {
    if signals == [] {
      NothingToResolve(confidence);
      return Result(0.0, [], [], None, [], NoSignals);
    }
    var active, suppressed, rules := Suppress(signals, confidence);
    var final, winner, rule, reason := Combine(active);
    return Result(final, active, suppressed, winner, rules + rule, reason);
  }

  lemma {:induction false} FilterKeepsOrder(p: Signal -> bool, s: seq<Signal>)
    requires Ordered(s)
    ensures Ordered(Filter(p, s))
  {
    if s != [] {
      var front, x := s[..|s| - 1], s[|s| - 1];
      FilterKeepsOrder(p, front);
      FilterMembers(p, front);
      var f := Filter(p, front);
      forall i | 0 <= i < |f| ensures !Before(x, f[i]) {
        assert f[i] in f;
        assert f[i] in front;
      }
    }
  }

  lemma StandingIsOrdered(signals: seq<Signal>, confidence: real)
    ensures HeadedByHighest(Standing(signals, confidence))
  {
    if signals != [] { SortIsStable(signals, signals[0]); }
    var sorted := Sort(signals);
    FilterKeepsOrder(NotExploration(), sorted);
    FilterKeepsOrder(NotLearning(), Isolated(sorted));
    FilterKeepsOrder(Survives(Confident(Isolated(sorted), confidence)), Confident(Isolated(sorted), confidence));
    var s := Standing(signals, confidence);
    forall x | x in s ensures Priority(s[0].kind) <= Priority(x.kind) {
      var i :| 0 <= i < |s| && s[i] == x;
      assert i > 0 ==> !Before(s[i], s[0]);
    }
  }

  /** The sort and the three suppressing phases. */
  method Suppress(signals: seq<Signal>, confidence: real)
    returns (active: seq<Signal>, suppressed: seq<Suppressed>, rules: seq<Rule>)
    ensures active == Standing(signals, confidence) && suppressed == Dropped(signals, confidence)
    ensures rules == SuppressingRules(suppressed)
  {
    var sorted := Sort(signals);
    var active1, out1 := ApplyExplorationIsolation(sorted);
    suppressed, rules := Tag(out1, ExplorationIsolation), Named(out1, ExplorationIsolation);
    var active2, out2 := ApplyConfidenceSuppression(active1, confidence);
    suppressed := suppressed + Tag(out2, ConfidenceSuppression);
    rules := rules + Named(out2, ConfidenceSuppression);
    var active3, out3 := ApplyHardOverride(active2);
    suppressed := suppressed + Tag(out3, HardOverride);
    rules := rules + Named(out3, HardOverride);
    active := active3;
    RulesUsed(out1, out2, out3);
  }

  /** A rule is named when it has suppressed something. */
  function Named(out: seq<Signal>, rule: Rule): seq<Rule> {
    if |out| > 0 then [rule] else []
  }

  lemma RulesUsed(out1: seq<Signal>, out2: seq<Signal>, out3: seq<Signal>)
    ensures SuppressingRules(Tag(out1, ExplorationIsolation) + Tag(out2, ConfidenceSuppression)
                             + Tag(out3, HardOverride))
            == Named(out1, ExplorationIsolation) + Named(out2, ConfidenceSuppression) + Named(out3, HardOverride)
  {
    var all := Tag(out1, ExplorationIsolation) + Tag(out2, ConfidenceSuppression) + Tag(out3, HardOverride);
    if |out1| > 0 { assert all[0].rule == ExplorationIsolation; }
    if |out2| > 0 { assert all[|out1|].rule == ConfidenceSuppression; }
    if |out3| > 0 { assert all[|out1| + |out2|].rule == HardOverride; }
  }

  lemma NothingToResolve(confidence: real)
    ensures Standing([], confidence) == [] && Dropped([], confidence) == [] && RulesFor([], []) == []
  {
  }

  /** Every signal is either left standing or dropped. */
  lemma NothingIsLost(signals: seq<Signal>, confidence: real)
    ensures multiset(Standing(signals, confidence)) + Signals(Dropped(signals, confidence)) == multiset(signals)
  {
    var s1 := Sort(signals);
    var s2 := Isolated(s1);
    var s3 := Confident(s2, confidence);
    var out1 := if HasBlocker(s1) then Filter(Not(NotExploration()), s1) else [];
    var out2 := if confidence >= CONFIDENCE_THRESHOLD then [] else Filter(Not(NotLearning()), s2);
    var out3 := Filter(Not(Survives(s3)), s3);
    Conserved(signals, confidence, s2, out1, s3, out2, Unopposed(s3), out3);
    SuppressedSignals(out1, out2, out3);
  }

  lemma Conserved(signals: seq<Signal>, confidence: real, active1: seq<Signal>, out1: seq<Signal>,
                  active2: seq<Signal>, out2: seq<Signal>, active3: seq<Signal>, out3: seq<Signal>)
    requires active1 == Isolated(Sort(signals))
    requires out1 == if HasBlocker(Sort(signals)) then Filter(Not(NotExploration()), Sort(signals)) else []
    requires active2 == Confident(active1, confidence)
    requires out2 == if confidence >= CONFIDENCE_THRESHOLD then [] else Filter(Not(NotLearning()), active1)
    requires active3 == Unopposed(active2) && out3 == Filter(Not(Survives(active2)), active2)
    ensures multiset(active3) + (multiset(out1) + multiset(out2) + multiset(out3)) == multiset(signals)
  {
    SortKeeps(signals);
    if HasBlocker(Sort(signals)) { FilterSplits(NotExploration(), Sort(signals)); }
    if confidence < CONFIDENCE_THRESHOLD { FilterSplits(NotLearning(), active1); }
    FilterSplits(Survives(active2), active2);
    AddUp(multiset(signals), multiset(active1), multiset(out1), multiset(active2), multiset(out2), multiset(active3),
          multiset(out3));
  }

  lemma AddUp(all: multiset<Signal>, m1: multiset<Signal>, o1: multiset<Signal>, m2: multiset<Signal>,
              o2: multiset<Signal>, m3: multiset<Signal>, o3: multiset<Signal>)
    requires m1 + o1 == all && m2 + o2 == m1 && m3 + o3 == m2
    ensures m3 + (o1 + o2 + o3) == all
  {
  }

  lemma FilterSplits(p: Signal -> bool, s: seq<Signal>)
    ensures multiset(Filter(p, s)) + multiset(Filter(Not(p), s)) == multiset(s)
  {
    forall x ensures multiset(Filter(p, s))[x] + multiset(Filter(Not(p), s))[x] == multiset(s)[x] {
      FilterCounts(p, s, x);
      FilterCounts(Not(p), s, x);
    }
  }

  /** Neutralization of what is in conflict, reinforcement of what agrees. */
  method Combine(active: seq<Signal>) returns (final: real, winner: Option<Signal>, rule: seq<Rule>, reason: Reason)
    ensures final == Score(active)
    ensures winner.Some? <==> active != [] && !Conflict(active)
    ensures winner.Some? ==> FirstOfHighest(winner.value, active)
    ensures rule == CombiningRule(active)
    ensures reason == ReasonFor(active)
  {
    if active == [] {
      return 0.0, None, [], AllSuppressed;
    }
    var total := TotalAdjustment(active);
    var conflict := HasConflict(active);
    if conflict {
      return Neutralized(total), None, [ConflictNeutralization], ConflictNeutralized;
    }
    var w := Winner(active);
    return total, Some(w), [Reinforcement], if |active| == 1 then SingleSignal else Reinforced;
  }

  function ReasonFor(active: seq<Signal>): Reason {
    if active == [] then AllSuppressed
    else if Conflict(active) then ConflictNeutralized
    else if |active| == 1 then SingleSignal else Reinforced
  }

  lemma SuppressedSignals(out1: seq<Signal>, out2: seq<Signal>, out3: seq<Signal>)
    ensures Signals(Tag(out1, ExplorationIsolation) + Tag(out2, ConfidenceSuppression) + Tag(out3, HardOverride))
            == multiset(out1) + multiset(out2) + multiset(out3)
  {
    SignalsOfTagged(out1, ExplorationIsolation);
    SignalsOfTagged(out2, ConfidenceSuppression);
    SignalsOfTagged(out3, HardOverride);
    SignalsConcat(Tag(out1, ExplorationIsolation), Tag(out2, ConfidenceSuppression));
    SignalsConcat(Tag(out1, ExplorationIsolation) + Tag(out2, ConfidenceSuppression), Tag(out3, HardOverride));
  }

  // ---- Closed form of the override

  /** `k` is the highest-priority type with a directional signal. */
  ghost predicate TopDirectional(s: seq<Signal>, k: SignalType) {
    && (exists x :: x in s && x.kind == k && x.rec != Neutral)
    && forall x :: x in s && x.rec != Neutral ==> Priority(k) <= Priority(x.kind)
  }

  ghost predicate HasBoth(s: seq<Signal>, k: SignalType) {
    (exists x :: x in s && x.kind == k && x.rec == Prefer) && (exists x :: x in s && x.kind == k && x.rec == Avoid)
  }

  function Opposite(r: Recommendation): Recommendation {
    match r case Neutral => Neutral case Prefer => Avoid case Avoid => Prefer
  }

  /** Neutral, or agreeing with `r` and of a priority no lower than any dissenter's. */
  ghost function Agreeing(s: seq<Signal>, r: Recommendation): Signal -> bool {
    (x: Signal) => x.rec == Neutral
      || (x.rec == r && forall d :: d in s && d.rec == Opposite(r) ==> Priority(x.kind) <= Priority(d.kind))
  }

  /** Neutral, or of the top directional type. */
  ghost function TopOrNeutral(k: SignalType): Signal -> bool {
    (x: Signal) => x.rec == Neutral || x.kind == k
  }

  lemma PriorityInjective(a: SignalType, b: SignalType)
    requires Priority(a) == Priority(b)
    ensures a == b
  {
  }

  /** When the top directional type pulls both ways, exactly its signals and the neutral ones are
      left, and they are in conflict. */
  lemma DividedTopIsNeutralized(s: seq<Signal>, k: SignalType)
    requires TopDirectional(s, k) && HasBoth(s, k)
    ensures Unopposed(s) == Filter(TopOrNeutral(k), s) && Conflict(Unopposed(s))
  {
    var p :| p in s && p.kind == k && p.rec == Prefer;
    var a :| a in s && a.kind == k && a.rec == Avoid;
    forall x | x in s ensures Survives(s)(x) == TopOrNeutral(k)(x) {
      if x.rec != Neutral && x.kind != k {
        if Priority(x.kind) == Priority(k) { PriorityInjective(x.kind, k); }
        var d := if x.rec == Prefer then a else p;
        var i :| 0 <= i < |s| && s[i] == d;
      }
    }
    FilterExt(Survives(s), TopOrNeutral(k), s);
    FilterMembers(TopOrNeutral(k), s);
    assert p in Unopposed(s) && a in Unopposed(s);
    ConflictByMembers(Unopposed(s), p, a);
  }

  lemma ConflictByMembers(s: seq<Signal>, p: Signal, a: Signal)
    requires p in s && p.rec == Prefer && a in s && a.rec == Avoid
    ensures Conflict(s)
  {
    var i :| 0 <= i < |s| && s[i] == p;
    var j :| 0 <= j < |s| && s[j] == a;
  }

  /** When the top directional type speaks with one voice `r`, exactly the neutral signals and the
      agreeing ones no lower than the first dissenter are left: no dissenter, and no conflict. */
  lemma UnitedTopWins(s: seq<Signal>, k: SignalType, r: Recommendation)
    requires TopDirectional(s, k) && !HasBoth(s, k)
    requires r != Neutral && exists x :: x in s && x.kind == k && x.rec == r
    ensures Unopposed(s) == Filter(Agreeing(s, r), s)
    ensures forall x :: x in Unopposed(s) ==> x.rec != Opposite(r)
    ensures !Conflict(Unopposed(s))
  {
    var top :| top in s && top.kind == k && top.rec == r;
    forall x | x in s ensures Survives(s)(x) == Agreeing(s, r)(x) {
      AgreeingSurvives(s, k, r, top, x);
    }
    FilterExt(Survives(s), Agreeing(s, r), s);
    FilterMembers(Agreeing(s, r), s);
  }

  lemma AgreeingSurvives(s: seq<Signal>, k: SignalType, r: Recommendation, top: Signal, x: Signal)
    requires TopDirectional(s, k) && !HasBoth(s, k) && r != Neutral
    requires top in s && top.kind == k && top.rec == r && x in s
    ensures Survives(s)(x) == Agreeing(s, r)(x)
  {
    if x.rec == Opposite(r) {
      if Priority(x.kind) == Priority(k) { PriorityInjective(x.kind, k); }
      var i :| 0 <= i < |s| && s[i] == top;
      assert Overridden(x, s);
    } else if x.rec == r {
      if d :| d in s && d.rec == Opposite(r) && Priority(x.kind) > Priority(d.kind) {
        var i :| 0 <= i < |s| && s[i] == d;
        assert Overridden(x, s);
      } else {
        forall i | 0 <= i < |s| && HigherPriority(s[i].kind, x.kind) ensures !Contradicts(s[i].rec, x.rec) {
          assert s[i] in s;
        }
      }
    }
  }

  /** Neutralization happens exactly when the top directional type contains both directions. */
  lemma NeutralizedIff(s: seq<Signal>, k: SignalType)
    requires TopDirectional(s, k)
    ensures Conflict(Unopposed(s)) <==> HasBoth(s, k)
  {
    if HasBoth(s, k) {
      DividedTopIsNeutralized(s, k);
    } else {
      var x :| x in s && x.kind == k && x.rec != Neutral;
      UnitedTopWins(s, k, x.rec);
    }
  }

  /** Without a directional signal nothing is overridden and nothing conflicts. */
  lemma AllNeutral(s: seq<Signal>)
    requires forall x :: x in s ==> x.rec == Neutral
    ensures Unopposed(s) == s && !Conflict(s)
  {
    FilterAll(Survives(s), s);
  }

  // ---- What the score depends on

  /** Not dropped by either suppression rule. */
  function Counted(blocked: bool, low: bool): Signal -> bool {
    (x: Signal) => !(blocked && x.kind == Exploration) && !(low && IsLearning(x.kind))
  }

  lemma SuppressionCounts(s: seq<Signal>, confidence: real, x: Signal)
    ensures multiset(Confident(Isolated(s), confidence))[x] ==
            if Counted(HasBlocker(s), confidence < CONFIDENCE_THRESHOLD)(x) then multiset(s)[x] else 0
  {
    FilterCounts(NotExploration(), s, x);
    FilterCounts(NotLearning(), Isolated(s), x);
  }

  lemma UnopposedMultiset(a: seq<Signal>, b: seq<Signal>)
    requires multiset(a) == multiset(b)
    ensures multiset(Unopposed(a)) == multiset(Unopposed(b))
  {
    assert forall x :: x in a <==> x in multiset(a);
    assert forall x :: x in b <==> x in multiset(b);
    forall x ensures Survives(a)(x) == Survives(b)(x) {
      SurvivesByMembers(a, b, x);
      SurvivesByMembers(b, a, x);
    }
    forall x ensures multiset(Unopposed(a))[x] == multiset(Unopposed(b))[x] {
      FilterCounts(Survives(a), a, x);
      FilterCounts(Survives(b), b, x);
    }
  }

  lemma SurvivesByMembers(a: seq<Signal>, b: seq<Signal>, x: Signal)
    requires forall y :: y in b ==> y in a
    ensures Survives(a)(x) ==> Survives(b)(x)
  {
    if x.rec != Neutral && Overridden(x, b) {
      var i :| 0 <= i < |b| && b[i].rec != Neutral && HigherPriority(b[i].kind, x.kind) && Contradicts(b[i].rec, x.rec);
      assert b[i] in a;
      var j :| 0 <= j < |a| && a[j] == b[i];
      assert Overridden(x, a);
    }
  }

  lemma ConflictMultiset(a: seq<Signal>, b: seq<Signal>)
    requires multiset(a) == multiset(b)
    ensures Conflict(a) == Conflict(b)
  {
    assert forall x :: x in a <==> x in multiset(a);
    assert forall x :: x in b <==> x in multiset(b);
    if Conflict(a) {
      var i, j :| 0 <= i < |a| && a[i].rec == Prefer && 0 <= j < |a| && a[j].rec == Avoid;
      ConflictByMembers(b, a[i], a[j]);
    }
    if Conflict(b) {
      var i, j :| 0 <= i < |b| && b[i].rec == Prefer && 0 <= j < |b| && b[j].rec == Avoid;
      ConflictByMembers(a, b[i], b[j]);
    }
  }

  lemma ScoreMultiset(a: seq<Signal>, b: seq<Signal>)
    requires multiset(a) == multiset(b)
    ensures Score(a) == Score(b)
  {
    SumPermutation(Adjustment(), a, b);
    ConflictMultiset(a, b);
  }

  /** The score depends only on the multiset of the counted signals: if two inputs agree on those,
      and on whether a directional stability or calibration signal is present, they score alike. */
  lemma ScoreDependsOnCounted(a: seq<Signal>, b: seq<Signal>, confidence: real)
    requires HasBlocker(a) == HasBlocker(b)
    requires var counted := Counted(HasBlocker(a), confidence < CONFIDENCE_THRESHOLD);
             multiset(Filter(counted, a)) == multiset(Filter(counted, b))
    ensures Score(Standing(a, confidence)) == Score(Standing(b, confidence))
  {
    StandingFromCounted(a, confidence);
    StandingFromCounted(b, confidence);
    UnopposedMultiset(CountedSignals(a, confidence), CountedSignals(b, confidence));
    ScoreMultiset(Standing(a, confidence), Standing(b, confidence));
  }

  // ---- The outcome in terms of the input

  /** The input signals that neither suppression rule drops, in the order they came. */
  ghost function CountedSignals(signals: seq<Signal>, confidence: real): seq<Signal> {
    Filter(Counted(HasBlocker(signals), confidence < CONFIDENCE_THRESHOLD), signals)
  }

  /** What is applied, told from the counted signals alone: without a directional one, all of them;
      else the highest-priority directional type decides. */
  ghost predicate DecidedByTop(counted: seq<Signal>, applied: seq<Signal>) {
    && ((forall x :: x in counted ==> x.rec == Neutral) ==> multiset(applied) == multiset(counted))
    && (forall k :: TopDirectional(counted, k) && HasBoth(counted, k) ==>
          multiset(applied) == multiset(Filter(TopOrNeutral(k), counted)))
    && (forall k, r :: TopDirectional(counted, k) && !HasBoth(counted, k) && Speaks(counted, k, r) ==>
          multiset(applied) == multiset(Filter(Agreeing(counted, r), counted)))
  }

  /** The highest-priority directional type pulls both ways. */
  ghost predicate TopIsDivided(s: seq<Signal>) {
    exists k :: TopDirectional(s, k) && HasBoth(s, k)
  }

  ghost predicate Speaks(s: seq<Signal>, k: SignalType, r: Recommendation) {
    r != Neutral && exists x :: x in s && x.kind == k && x.rec == r
  }

  lemma StandingFromCounted(signals: seq<Signal>, confidence: real)
    ensures multiset(Standing(signals, confidence)) == multiset(Unopposed(CountedSignals(signals, confidence)))
  {
    var sorted := Sort(signals);
    var counted := CountedSignals(signals, confidence);
    var left := Confident(Isolated(sorted), confidence);
    SortKeeps(signals);
    forall x ensures multiset(left)[x] == multiset(counted)[x] {
      SuppressionCounts(sorted, confidence, x);
      FilterCounts(Counted(HasBlocker(signals), confidence < CONFIDENCE_THRESHOLD), signals, x);
    }
    UnopposedMultiset(left, counted);
  }

  lemma UnopposedIsDecidedByTop(c: seq<Signal>)
    ensures DecidedByTop(c, Unopposed(c))
  {
    if forall x :: x in c ==> x.rec == Neutral { AllNeutral(c); }
    forall k | TopDirectional(c, k) && HasBoth(c, k) ensures Unopposed(c) == Filter(TopOrNeutral(k), c) {
      DividedTopIsNeutralized(c, k);
    }
    forall k, r | TopDirectional(c, k) && !HasBoth(c, k) && Speaks(c, k, r)
      ensures Unopposed(c) == Filter(Agreeing(c, r), c)
    {
      UnitedTopWins(c, k, r);
    }
  }

  /** A directional signal of the highest priority. */
  lemma {:induction false} TopExists(s: seq<Signal>) returns (k: SignalType)
    requires exists x :: x in s && x.rec != Neutral
    ensures TopDirectional(s, k)
  {
    var front, x := s[..|s| - 1], s[|s| - 1];
    assert s == front + [x];
    if y :| y in front && y.rec != Neutral {
      k := TopExists(front);
      if x.rec != Neutral && HigherPriority(x.kind, k) { k := x.kind; }
    } else {
      k := x.kind;
    }
  }

  lemma ConflictIffDivided(c: seq<Signal>)
    ensures Conflict(Unopposed(c)) <==> TopIsDivided(c)
  {
    if forall x :: x in c ==> x.rec == Neutral {
      AllNeutral(c);
    } else {
      var k := TopExists(c);
      NeutralizedIff(c, k);
      forall k' | TopDirectional(c, k') ensures k' == k {
        PriorityInjective(k, k');
      }
    }
  }

  /** Whatever the phases do on the way, the signals left standing, and whether they are neutralized,
      can be told from the counted input signals. */
  lemma InputDecides(signals: seq<Signal>, confidence: real)
    ensures var c := CountedSignals(signals, confidence);
            && DecidedByTop(c, Standing(signals, confidence))
            && (Conflict(Standing(signals, confidence)) <==> TopIsDivided(c))
  {
    var c := CountedSignals(signals, confidence);
    StandingFromCounted(signals, confidence);
    UnopposedIsDecidedByTop(c);
    ConflictIffDivided(c);
    ConflictMultiset(Standing(signals, confidence), Unopposed(c));
  }

  /** Which input signals count, spelled out: not an exploration signal beside a directional stability
      or calibration signal, and below a confidence of four tenths no signal of the three learning
      types. */
  lemma CountedMeans(signals: seq<Signal>, confidence: real, x: Signal)
    ensures x in CountedSignals(signals, confidence) <==>
            && x in signals
            && !(x.kind == Exploration
                 && exists b :: b in signals && (b.kind == Stability || b.kind == Calibration) && b.rec != Neutral)
            && !(10.0 * confidence < 4.0
                 && (x.kind == Comparative || x.kind == PathLearning || x.kind == TransitionLearning))
  {
    FilterMembers(Counted(HasBlocker(signals), confidence < CONFIDENCE_THRESHOLD), signals);
    if b :| b in signals && (b.kind == Stability || b.kind == Calibration) && b.rec != Neutral {
      assert BlocksExploration(b.kind) && HasBlocker(signals);
    }
  }

  /** The priorities, from stability down to exploration. */
  lemma PriorityOrder()
    ensures HigherPriority(Stability, Calibration) && HigherPriority(Calibration, Causal)
    ensures HigherPriority(Causal, Comparative) && HigherPriority(Comparative, PathLearning)
    ensures HigherPriority(PathLearning, TransitionLearning) && HigherPriority(TransitionLearning, Exploration)
  {
  }

  /** In the sorted order no signal comes after one of lower priority, and within a type avoid comes
      first and neutral last. */
  lemma SortedOrder(s: seq<Signal>, i: nat, j: nat)
    requires i < j < |Sort(s)|
    ensures var x, y := Sort(s)[i], Sort(s)[j];
            && !HigherPriority(y.kind, x.kind)
            && (x.kind == y.kind ==> (y.rec == Avoid ==> x.rec == Avoid) && (x.rec == Neutral ==> y.rec == Neutral))
  {
    SortIsStable(s, Sort(s)[i]);
    assert !Before(Sort(s)[j], Sort(s)[i]);
  }

  // ---- Isolation as its comment describes it

  /** A directional stability or calibration signal points the other way. */
  ghost predicate Blocked(x: Signal, s: seq<Signal>) {
    exists b :: b in s && BlocksExploration(b.kind) && b.rec != Neutral && Contradicts(b.rec, x.rec)
  }

  ghost function NotBlocked(s: seq<Signal>): Signal -> bool {
    (x: Signal) => x.kind != Exploration || !Blocked(x, s)
  }

  /** Isolation that suppresses only the exploration signals that contradict a blocker. */
  ghost function Documented(s: seq<Signal>): seq<Signal> {
    Filter(NotBlocked(s), s)
  }

  /** Isolation suppresses just the contradicting exploration signals if and only if no directional
      blocker is present or every exploration signal contradicts one. */
  lemma IsolatedAsDocumentedIff(s: seq<Signal>)
    ensures Isolated(s) == Documented(s) <==>
            !HasBlocker(s) || forall x :: x in s && x.kind == Exploration ==> Blocked(x, s)
  {
    if HasBlocker(s) {
      FiltersAgreeIff(NotExploration(), NotBlocked(s), s);
      assert forall x :: NotExploration()(x) == NotBlocked(s)(x) <==> (x.kind == Exploration ==> Blocked(x, s));
    } else {
      FilterAll(NotBlocked(s), s);
    }
  }

  ghost function ConfidentKeep(confidence: real): Signal -> bool {
    (x: Signal) => confidence >= CONFIDENCE_THRESHOLD || !IsLearning(x.kind)
  }

  lemma ConfidentIsFilter(s: seq<Signal>, confidence: real)
    ensures Confident(s, confidence) == Filter(ConfidentKeep(confidence), s)
  {
    if confidence >= CONFIDENCE_THRESHOLD {
      FilterAll(ConfidentKeep(confidence), s);
    } else {
      FilterExt(NotLearning(), ConfidentKeep(confidence), s);
    }
  }

  lemma ConfidentCommutes(keep: Signal -> bool, s: seq<Signal>, confidence: real)
    ensures Confident(Filter(keep, s), confidence) == Filter(keep, Confident(s, confidence))
  {
    var conf := ConfidentKeep(confidence);
    ConfidentIsFilter(s, confidence);
    ConfidentIsFilter(Filter(keep, s), confidence);
    FilterTwice(conf, keep, s);
    FilterTwice(keep, conf, s);
    FilterExt(Both(conf, keep), Both(keep, conf), s);
  }

  /** Exploration has the lowest priority: taking exploration signals away changes no other fate. */
  lemma UnopposedWithout(keep: Signal -> bool, t: seq<Signal>)
    requires forall x :: x in t && !keep(x) ==> x.kind == Exploration
    ensures Unopposed(Filter(keep, t)) == Filter(Both(Survives(t), keep), t)
  {
    var kept := Filter(keep, t);
    FilterMembers(keep, t);
    forall x | x in kept ensures Survives(kept)(x) == Survives(t)(x) {
      SurvivesByMembers(t, kept, x);
      SurvivesWithout(keep, t, x);
    }
    FilterExt(Survives(kept), Survives(t), kept);
    FilterTwice(Survives(t), keep, t);
  }

  lemma SurvivesWithout(keep: Signal -> bool, t: seq<Signal>, x: Signal)
    requires forall y :: y in t && !keep(y) ==> y.kind == Exploration
    ensures Survives(Filter(keep, t))(x) ==> Survives(t)(x)
  {
    var kept := Filter(keep, t);
    if x.rec != Neutral && Overridden(x, t) {
      var i :| 0 <= i < |t| && t[i].rec != Neutral && HigherPriority(t[i].kind, x.kind) && Contradicts(t[i].rec, x.rec);
      assert t[i] in kept by { FilterMembers(keep, t); }
      var j :| 0 <= j < |kept| && kept[j] == t[i];
      assert Overridden(x, kept);
    }
  }

  /** The rule as documented would be idle: the hard override suppresses the contradicting exploration
      signals anyway, so what is left standing is what no isolation at all would leave. */
  lemma DocumentedIsSubsumed(s: seq<Signal>, confidence: real)
    ensures Unopposed(Confident(Documented(s), confidence)) == Unopposed(Confident(s, confidence))
  {
    var t, keep := Confident(s, confidence), NotBlocked(s);
    ConfidentCommutes(keep, s, confidence);
    UnopposedWithout(keep, t);
    forall x | x in t ensures Both(Survives(t), keep)(x) == Survives(t)(x) {
      if !keep(x) { BlockedIsOverridden(s, confidence, x); }
    }
    FilterExt(Both(Survives(t), keep), Survives(t), t);
  }

  lemma BlockedIsOverridden(s: seq<Signal>, confidence: real, x: Signal)
    requires x.kind == Exploration && Blocked(x, s)
    ensures Overridden(x, Confident(s, confidence))
  {
    var t := Confident(s, confidence);
    var b :| b in s && BlocksExploration(b.kind) && b.rec != Neutral && Contradicts(b.rec, x.rec);
    StaysConfident(s, confidence, b);
    var i :| 0 <= i < |t| && t[i] == b;
  }

  lemma StaysConfident(s: seq<Signal>, confidence: real, b: Signal)
    requires b in s && !IsLearning(b.kind)
    ensures b in Confident(s, confidence)
  {
    if confidence < CONFIDENCE_THRESHOLD { FilterMembers(NotLearning(), s); }
  }

  /** So isolation makes a difference to what is left standing exactly when a directional blocker is
      present and the hard override would have spared some exploration signal. */
  lemma StandingAsDocumentedIff(s: seq<Signal>, confidence: real)
    ensures Unopposed(Confident(Isolated(s), confidence)) == Unopposed(Confident(Documented(s), confidence)) <==>
            !HasBlocker(s) || forall x :: x in s && x.kind == Exploration ==>
                                x.rec != Neutral && Overridden(x, Confident(s, confidence))
  {
    DocumentedIsSubsumed(s, confidence);
    if HasBlocker(s) {
      var t, keep := Confident(s, confidence), NotExploration();
      ConfidentCommutes(keep, s, confidence);
      UnopposedWithout(keep, t);
      FiltersAgreeIff(Both(Survives(t), keep), Survives(t), t);
      ConfidentIsFilter(s, confidence);
      FilterMembers(ConfidentKeep(confidence), s);
      assert forall x :: x in s && x.kind == Exploration ==> x in t;
      assert forall x :: Both(Survives(t), keep)(x) == Survives(t)(x) <==> !(x.kind == Exploration && Survives(t)(x));
    }
  }

  lemma SortedPair(x: Signal, y: Signal)
    requires Before(x, y)
    ensures Sort([x, y]) == [x, y]
  {
    assert [x, y][1..] == [y] && [y][1..] == [];
    assert Sort([y]) == [y];
  }

  lemma FilterPair(p: Signal -> bool, x: Signal, y: Signal)
    requires p(x)
    ensures Filter(p, [x, y]) == if p(y) then [x, y] else [x]
  {
    assert [x, y][..1] == [x] && [x][..0] == [];
    assert Filter(p, [x]) == [x];
  }

  lemma AgreeingPairStands(x: Signal, y: Signal)
    requires x.rec == y.rec
    ensures Unopposed([x, y]) == [x, y]
  {
    assert Survives([x, y])(x) && Survives([x, y])(y);
    FilterPair(Survives([x, y]), x, y);
  }

  lemma AgreeingPairScores(x: Signal, y: Signal)
    requires x.rec == y.rec
    ensures Score([x, y]) == Score([x]) + y.adjustment
  {
    assert !Conflict([x]) && !Conflict([x, y]);
    assert [x, y][..1] == [x];
    assert Sum(Adjustment(), [x, y]) == Sum(Adjustment(), [x]) + y.adjustment;
  }

  lemma ConfidentPair(stable: Signal, explore: Signal, confidence: real)
    requires stable.kind == Stability && explore.kind == Exploration
    ensures Confident([stable], confidence) == [stable] && Confident([stable, explore], confidence) == [stable, explore]
  {
    FilterAll(NotLearning(), [stable]);
    FilterAll(NotLearning(), [stable, explore]);
  }

  lemma IsolatedPair(stable: Signal, explore: Signal)
    requires stable.kind == Stability && explore.kind == Exploration && stable.rec != Neutral
    ensures Isolated([stable, explore]) == [stable]
  {
    assert stable in [stable, explore] && HasBlocker([stable, explore]);
    FilterPair(NotExploration(), stable, explore);
  }

  /** An exploration signal that agrees with a directional stability signal is dropped too, where the
      documented rule would have applied it; with it the score loses the signal's adjustment. */
  lemma AgreeingExplorationIsDropped(stable: Signal, explore: Signal, confidence: real)
    requires stable.kind == Stability && explore.kind == Exploration && stable.rec == explore.rec != Neutral
    ensures Standing([stable, explore], confidence) == [stable]
    ensures Unopposed(Confident(Documented(Sort([stable, explore])), confidence)) == [stable, explore]
    ensures Score([stable, explore]) == Score([stable]) + explore.adjustment
  {
    SortedPair(stable, explore);
    IsolatedPair(stable, explore);
    ConfidentPair(stable, explore, confidence);
    LonelySurvives([stable]);
    DocumentedIsSubsumed([stable, explore], confidence);
    AgreeingPairStands(stable, explore);
    AgreeingPairScores(stable, explore);
  }

  lemma SortKeeps(s: seq<Signal>)
    ensures multiset(Sort(s)) == multiset(s) && HasBlocker(Sort(s)) == HasBlocker(s)
  {
    if s != [] {
      SortIsStable(s, s[0]);
      assert forall x :: x in Sort(s) <==> x in multiset(Sort(s));
      assert forall x :: x in s <==> x in multiset(s);
    }
  }

  /** The final adjustment is the same for every order of the input. */
  lemma OrderIsIrrelevant(a: seq<Signal>, b: seq<Signal>, confidence: real)
    requires multiset(a) == multiset(b)
    ensures Score(Standing(a, confidence)) == Score(Standing(b, confidence))
  {
    assert forall x :: x in a <==> x in multiset(a);
    assert forall x :: x in b <==> x in multiset(b);
    var counted := Counted(HasBlocker(a), confidence < CONFIDENCE_THRESHOLD);
    forall x ensures multiset(Filter(counted, a))[x] == multiset(Filter(counted, b))[x] {
      FilterCounts(counted, a, x);
      FilterCounts(counted, b, x);
    }
    ScoreDependsOnCounted(a, b, confidence);
  }

  /** Below the confidence threshold, learning signals have no say at all: inputs that differ only in
      them score alike. */
  lemma LearningIsSilenced(a: seq<Signal>, b: seq<Signal>, confidence: real)
    requires confidence < CONFIDENCE_THRESHOLD
    requires multiset(Filter(NotLearning(), a)) == multiset(Filter(NotLearning(), b))
    ensures Score(Standing(a, confidence)) == Score(Standing(b, confidence))
  {
    SameBlocker(NotLearning(), a, b);
    SameCounted(NotLearning(), a, b, confidence);
  }

  /** Exploration signals have no say whenever a directional stability or calibration signal is
      present. */
  lemma ExplorationIsSilenced(a: seq<Signal>, b: seq<Signal>, confidence: real)
    requires HasBlocker(a)
    requires multiset(Filter(NotExploration(), a)) == multiset(Filter(NotExploration(), b))
    ensures Score(Standing(a, confidence)) == Score(Standing(b, confidence))
  {
    SameBlocker(NotExploration(), a, b);
    SameCounted(NotExploration(), a, b, confidence);
  }

  lemma SameBlocker(keep: Signal -> bool, a: seq<Signal>, b: seq<Signal>)
    requires multiset(Filter(keep, a)) == multiset(Filter(keep, b))
    requires forall x: Signal :: BlocksExploration(x.kind) ==> keep(x)
    ensures HasBlocker(a) == HasBlocker(b)
  {
    forall x: Signal | BlocksExploration(x.kind) ensures x in a <==> x in b {
      FilterCounts(keep, a, x);
      FilterCounts(keep, b, x);
      assert x in a <==> multiset(a)[x] > 0;
      assert x in b <==> multiset(b)[x] > 0;
    }
  }

  lemma SameCounted(keep: Signal -> bool, a: seq<Signal>, b: seq<Signal>, confidence: real)
    requires multiset(Filter(keep, a)) == multiset(Filter(keep, b)) && HasBlocker(a) == HasBlocker(b)
    requires forall x :: Counted(HasBlocker(a), confidence < CONFIDENCE_THRESHOLD)(x) ==> keep(x)
    ensures Score(Standing(a, confidence)) == Score(Standing(b, confidence))
  {
    var counted := Counted(HasBlocker(a), confidence < CONFIDENCE_THRESHOLD);
    forall x ensures multiset(Filter(counted, a))[x] == multiset(Filter(counted, b))[x] {
      FilterCounts(counted, a, x);
      FilterCounts(counted, b, x);
      FilterCounts(keep, a, x);
      FilterCounts(keep, b, x);
    }
    ScoreDependsOnCounted(a, b, confidence);
  }
}
