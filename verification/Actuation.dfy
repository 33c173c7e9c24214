/** Actuation rules: proposals from reflection signals and objectives, merged to one per action type. */
module Actuation {

  datatype ActionType =
    | RebalancePortfolio | AdjustPricing | ShiftScheduling | IncreaseDiscovery
    | TriggerAutomation | ReduceLoad | StabilizeIncome

  /** The reflection signals with a rule, and all others. */
  datatype SignalType =
    | LowEfficiency | PricingMisalignment | OverloadRisk | IncomeInstability | AutomationOpportunity | OtherSignal

  datatype Source = Reflection(signalType: SignalType) | ObjectiveFinancialRisk | ObjectiveOverloadRisk

  datatype Proposal = Proposal(kind: ActionType, source: Source, confidence: real, priority: real)
  datatype ReflectionSignal = ReflectionSignal(signalType: SignalType, strength: real)
  datatype Inputs = Inputs(signals: seq<ReflectionSignal>, netUtility: real, financialRisk: real, overloadRisk: real)

  const LOW_UTILITY: real := 0.4
  const HIGH_FINANCIAL_RISK: real := 0.7
  const HIGH_OVERLOAD_RISK: real := 0.7
  const ESCALATION_BOOST: real := 0.2
  const MAX_DECISIONS: int := 10
  const MIN_STRENGTH: real := 0.1

  /** Position in the alphabetical order of the type names. */
  function Rank(t: ActionType): int {
    match t
    case AdjustPricing => 0
    case IncreaseDiscovery => 1
    case RebalancePortfolio => 2
    case ReduceLoad => 3
    case ShiftScheduling => 4
    case StabilizeIncome => 5
    case TriggerAutomation => 6
  }

  /** The name the type is sorted by. */
  function Name(t: ActionType): string {
    match t
    case RebalancePortfolio => "rebalance_portfolio"
    case AdjustPricing => "adjust_pricing"
    case ShiftScheduling => "shift_scheduling"
    case IncreaseDiscovery => "increase_discovery"
    case TriggerAutomation => "trigger_automation"
    case ReduceLoad => "reduce_load"
    case StabilizeIncome => "stabilize_income"
  }

  /** `a` comes before `b` in the dictionary: they differ first at `k`. */
  ghost predicate DiffersAt(a: string, b: string, k: nat) {
    k < |a| && k < |b| && a[..k] == b[..k] && a[k] < b[k]
  }

  lemma RankIsAlphabetical(a: ActionType, b: ActionType)
    ensures Rank(a) < Rank(b) ==> exists k :: DiffersAt(Name(a), Name(b), k)
  {
    if Rank(a) < Rank(b) {
      var x, y := Name(a), Name(b);
      if x[0] < y[0] {
        assert DiffersAt(x, y, 0);
      } else if x[1] < y[1] {
        assert x[..1] == y[..1] && DiffersAt(x, y, 1);
      } else {
        assert x[..2] == y[..2] && DiffersAt(x, y, 2);
      }
    }
  }

  function Clamp01(v: real): real {
    if v < 0.0 then 0.0 else if v > 1.0 then 1.0 else v
  }

  // ---- The rules

  /** What one signal proposes. */
  function Proposals(sig: ReflectionSignal): seq<Proposal> {
    var x, from := sig.strength, Reflection(sig.signalType);
    if x < MIN_STRENGTH then []
    else match sig.signalType
      case LowEfficiency => [Proposal(IncreaseDiscovery, from, x, x * 0.8),
                             Proposal(TriggerAutomation, from, x * 0.8, x * 0.6)]
      case PricingMisalignment => [Proposal(AdjustPricing, from, x, x * 0.9)]
      case OverloadRisk => [Proposal(ReduceLoad, from, x, x * 0.9), Proposal(ShiftScheduling, from, x * 0.8, x * 0.7)]
      case IncomeInstability => [Proposal(StabilizeIncome, from, x, x * 0.9)]
      case AutomationOpportunity => [Proposal(TriggerAutomation, from, x, x * 0.7)]
      case OtherSignal => []
  }

  function FromSignals(signals: seq<ReflectionSignal>): seq<Proposal> {
    if signals == [] then [] else FromSignals(signals[..|signals| - 1]) + Proposals(signals[|signals| - 1])
  }

  function Escalated(ps: seq<Proposal>): seq<Proposal> {
    seq(|ps|, i requires 0 <= i < |ps| => ps[i].(priority := Clamp01(ps[i].priority + ESCALATION_BOOST)))
  }

  function FromObjectives(inputs: Inputs): seq<Proposal> {
    (if inputs.financialRisk > HIGH_FINANCIAL_RISK then
       [Proposal(StabilizeIncome, ObjectiveFinancialRisk, inputs.financialRisk, Clamp01(inputs.financialRisk))]
     else [])
    + (if inputs.overloadRisk > HIGH_OVERLOAD_RISK then
         [Proposal(ReduceLoad, ObjectiveOverloadRisk, inputs.overloadRisk, Clamp01(inputs.overloadRisk))]
       else [])
  }

  /** Everything proposed, before merging. */
  function AllProposals(inputs: Inputs): seq<Proposal> {
    var ps := FromSignals(inputs.signals);
    (if inputs.netUtility < LOW_UTILITY then Escalated(ps) else ps) + FromObjectives(inputs)
  }

  // ---- What the inputs call for, by action type

  /** A signal of at least a tenth calls for this proposal. */
  ghost predicate Asks(sig: ReflectionSignal, p: Proposal) {
    var x, from := sig.strength, sig.signalType;
    && 10.0 * x >= 1.0 && p.source == Reflection(from)
    && match p.kind
       case AdjustPricing => from == PricingMisalignment && Weighs(p, x, 10.0, 9.0)
       case IncreaseDiscovery => from == LowEfficiency && Weighs(p, x, 10.0, 8.0)
       case TriggerAutomation =>
         || (from == LowEfficiency && Weighs(p, x, 8.0, 6.0))
         || (from == AutomationOpportunity && Weighs(p, x, 10.0, 7.0))
       case ReduceLoad => from == OverloadRisk && Weighs(p, x, 10.0, 9.0)
       case ShiftScheduling => from == OverloadRisk && Weighs(p, x, 8.0, 7.0)
       case StabilizeIncome => from == IncomeInstability && Weighs(p, x, 10.0, 9.0)
       case RebalancePortfolio => false
  }

  /** Confidence and priority in tenths of the strength. */
  ghost predicate Weighs(p: Proposal, x: real, confidence: real, priority: real) {
    10.0 * p.confidence == confidence * x && 10.0 * p.priority == priority * x
  }

  /** Below a net utility of four tenths a priority is raised by two tenths, within the unit interval. */
  ghost predicate RaisedTo(netUtility: real, before: real, priority: real) {
    if 10.0 * netUtility >= 4.0 then priority == before
    else if 10.0 * before > 8.0 then priority == 1.0
    else if 10.0 * before < -2.0 then priority == 0.0
    else 10.0 * priority == 10.0 * before + 2.0
  }

  /** The proposal comes from a signal, or from a risk above seven tenths. */
  ghost predicate Called(inputs: Inputs, p: Proposal) {
    || (exists i, b :: Raises(inputs, i, b, p))
    || (p.kind == StabilizeIncome && p.source == ObjectiveFinancialRisk && FromRisk(p, inputs.financialRisk))
    || (p.kind == ReduceLoad && p.source == ObjectiveOverloadRisk && FromRisk(p, inputs.overloadRisk))
  }

  ghost predicate Raises(inputs: Inputs, i: int, b: Proposal, p: Proposal) {
    && 0 <= i < |inputs.signals| && Asks(inputs.signals[i], b)
    && p == b.(priority := p.priority) && RaisedTo(inputs.netUtility, b.priority, p.priority)
  }

  ghost predicate FromRisk(p: Proposal, risk: real) {
    10.0 * risk > 7.0 && p.confidence == risk && p.priority == if risk > 1.0 then 1.0 else risk
  }

  lemma AsksIsProposed(sig: ReflectionSignal, p: Proposal)
    ensures Asks(sig, p) <==> p in Proposals(sig)
  {
  }

  lemma {:induction false} FromSignalsMembers(signals: seq<ReflectionSignal>, p: Proposal)
    ensures p in FromSignals(signals) <==> exists i :: 0 <= i < |signals| && Asks(signals[i], p)
  {
    if signals != [] {
      var n := |signals| - 1;
      FromSignalsMembers(signals[..n], p);
      AsksIsProposed(signals[n], p);
      AskedBefore(signals, p);
    }
  }

  lemma AskedBefore(signals: seq<ReflectionSignal>, p: Proposal)
    requires signals != []
    ensures var n := |signals| - 1;
            (exists i :: 0 <= i < |signals| && Asks(signals[i], p)) <==>
            (exists i :: 0 <= i < n && Asks(signals[..n][i], p)) || Asks(signals[n], p)
  {
    var n := |signals| - 1;
    if i :| 0 <= i < n && Asks(signals[..n][i], p) { assert signals[i] == signals[..n][i]; }
    if i :| 0 <= i < |signals| && Asks(signals[i], p) {
      assert i < n ==> signals[..n][i] == signals[i];
    }
  }

  lemma RaisedByClamp(netUtility: real, before: real, priority: real)
    ensures RaisedTo(netUtility, before, priority) <==>
            priority == if netUtility < LOW_UTILITY then Clamp01(before + ESCALATION_BOOST) else before
  {
  }

  /** The signals' part of the proposals. */
  lemma SignalPartCalled(inputs: Inputs, p: Proposal)
    ensures var ps := FromSignals(inputs.signals);
            p in (if inputs.netUtility < LOW_UTILITY then Escalated(ps) else ps) <==>
            exists i, b :: Raises(inputs, i, b, p)
  {
    var ps, u := FromSignals(inputs.signals), inputs.netUtility;
    var raised := if u < LOW_UTILITY then Escalated(ps) else ps;
    if p in raised {
      var k :| 0 <= k < |raised| && raised[k] == p;
      assert ps[k] in ps;
      FromSignalsMembers(inputs.signals, ps[k]);
      var i :| 0 <= i < |inputs.signals| && Asks(inputs.signals[i], ps[k]);
      RaisedByClamp(u, ps[k].priority, p.priority);
      assert Raises(inputs, i, ps[k], p);
    }
    if i, b :| Raises(inputs, i, b, p) {
      FromSignalsMembers(inputs.signals, b);
      var k :| 0 <= k < |ps| && ps[k] == b;
      RaisedByClamp(u, b.priority, p.priority);
      assert raised[k] == p;
    }
  }

  lemma ObjectivePartCalled(inputs: Inputs, p: Proposal)
    ensures p in FromObjectives(inputs) <==>
            || (p.kind == StabilizeIncome && p.source == ObjectiveFinancialRisk && FromRisk(p, inputs.financialRisk))
            || (p.kind == ReduceLoad && p.source == ObjectiveOverloadRisk && FromRisk(p, inputs.overloadRisk))
  {
  }

  /** What is proposed is exactly what the inputs call for. */
  lemma ProposedIsCalled(inputs: Inputs, p: Proposal)
    ensures p in AllProposals(inputs) <==> Called(inputs, p)
  {
    SignalPartCalled(inputs, p);
    ObjectivePartCalled(inputs, p);
  }

  ghost predicate Strong(inputs: Inputs, from: SignalType) {
    exists i :: 0 <= i < |inputs.signals| && inputs.signals[i].signalType == from
      && 10.0 * inputs.signals[i].strength >= 1.0
  }

  /** Which action types are decided. */
  ghost predicate DecidesByInputs(result: seq<Proposal>, inputs: Inputs) {
    && (Proposed(AdjustPricing, result) <==> Strong(inputs, PricingMisalignment))
    && (Proposed(IncreaseDiscovery, result) <==> Strong(inputs, LowEfficiency))
    && (Proposed(TriggerAutomation, result) <==> Strong(inputs, LowEfficiency) || Strong(inputs, AutomationOpportunity))
    && (Proposed(ShiftScheduling, result) <==> Strong(inputs, OverloadRisk))
    && (Proposed(ReduceLoad, result) <==> Strong(inputs, OverloadRisk) || 10.0 * inputs.overloadRisk > 7.0)
    && (Proposed(StabilizeIncome, result) <==> Strong(inputs, IncomeInstability) || 10.0 * inputs.financialRisk > 7.0)
    && !Proposed(RebalancePortfolio, result)
  }

  /** Every decision is one the inputs call for, and no other of its type has a higher priority. */
  ghost predicate GreatestCalled(result: seq<Proposal>, inputs: Inputs) {
    forall i :: 0 <= i < |result| ==>
      && Called(inputs, result[i])
      && forall p :: Called(inputs, p) && p.kind == result[i].kind ==> p.priority <= result[i].priority
  }

  /** Something of the type is called for. */
  ghost predicate Wanted(inputs: Inputs, t: ActionType) {
    exists p :: Called(inputs, p) && p.kind == t
  }

  lemma MergeDecides(result: seq<Proposal>, inputs: Inputs, t: ActionType)
    requires IsMerge(result, AllProposals(inputs))
    ensures Proposed(t, result) <==> Wanted(inputs, t)
  {
    var ps := AllProposals(inputs);
    if i :| 0 <= i < |result| && result[i].kind == t {
      assert IsChampion(result[i], ps);
      ProposedIsCalled(inputs, result[i]);
    }
    if p :| Called(inputs, p) && p.kind == t {
      ProposedIsCalled(inputs, p);
      var k :| 0 <= k < |ps| && ps[k] == p;
      assert Proposed(t, ps);
    }
  }

  lemma MergeIsGreatest(result: seq<Proposal>, inputs: Inputs)
    requires IsMerge(result, AllProposals(inputs))
    ensures GreatestCalled(result, inputs)
  {
    var ps := AllProposals(inputs);
    forall i | 0 <= i < |result|
      ensures Called(inputs, result[i])
      ensures forall p :: Called(inputs, p) && p.kind == result[i].kind ==> p.priority <= result[i].priority
    {
      assert IsChampion(result[i], ps);
      ProposedIsCalled(inputs, result[i]);
      forall p | Called(inputs, p) && p.kind == result[i].kind ensures p.priority <= result[i].priority {
        ProposedIsCalled(inputs, p);
      }
    }
  }

  /** Signals of this type ask for this action. */
  ghost predicate AsksFor(from: SignalType, t: ActionType) {
    match t
    case AdjustPricing => from == PricingMisalignment
    case IncreaseDiscovery => from == LowEfficiency
    case TriggerAutomation => from == LowEfficiency || from == AutomationOpportunity
    case ShiftScheduling => from == OverloadRisk
    case ReduceLoad => from == OverloadRisk
    case StabilizeIncome => from == IncomeInstability
    case RebalancePortfolio => false
  }

  ghost predicate RiskAsksFor(inputs: Inputs, t: ActionType) {
    (t == ReduceLoad && 10.0 * inputs.overloadRisk > 7.0) || (t == StabilizeIncome && 10.0 * inputs.financialRisk > 7.0)
  }

  lemma StrongAsks(sig: ReflectionSignal, t: ActionType) returns (b: Proposal)
    requires 10.0 * sig.strength >= 1.0 && AsksFor(sig.signalType, t)
    ensures Asks(sig, b) && b.kind == t
  {
    var ps := Proposals(sig);
    b := if |ps| > 1 && ps[1].kind == t then ps[1] else ps[0];
    AsksIsProposed(sig, b);
  }

  lemma AskedIsWanted(inputs: Inputs, i: int, b: Proposal)
    requires 0 <= i < |inputs.signals| && Asks(inputs.signals[i], b)
    ensures Wanted(inputs, b.kind)
  {
    var u := inputs.netUtility;
    var p := b.(priority := if u < LOW_UTILITY then Clamp01(b.priority + ESCALATION_BOOST) else b.priority);
    RaisedByClamp(u, b.priority, p.priority);
    assert Raises(inputs, i, b, p);
    assert Called(inputs, p);
  }

  lemma RiskIsWanted(inputs: Inputs, t: ActionType)
    requires RiskAsksFor(inputs, t)
    ensures Wanted(inputs, t)
  {
    if t == ReduceLoad {
      var r := inputs.overloadRisk;
      assert Called(inputs, Proposal(t, ObjectiveOverloadRisk, r, if r > 1.0 then 1.0 else r));
    } else {
      var r := inputs.financialRisk;
      assert Called(inputs, Proposal(t, ObjectiveFinancialRisk, r, if r > 1.0 then 1.0 else r));
    }
  }

  lemma WantedIff(inputs: Inputs, t: ActionType)
    ensures Wanted(inputs, t) <==> (exists from :: AsksFor(from, t) && Strong(inputs, from)) || RiskAsksFor(inputs, t)
  {
    if p :| Called(inputs, p) && p.kind == t {
      if i, b :| Raises(inputs, i, b, p) {
        assert AsksFor(inputs.signals[i].signalType, t) && Strong(inputs, inputs.signals[i].signalType);
      }
    }
    if from :| AsksFor(from, t) && Strong(inputs, from) {
      var i :| 0 <= i < |inputs.signals| && inputs.signals[i].signalType == from
               && 10.0 * inputs.signals[i].strength >= 1.0;
      var b := StrongAsks(inputs.signals[i], t);
      AskedIsWanted(inputs, i, b);
    }
    if RiskAsksFor(inputs, t) { RiskIsWanted(inputs, t); }
  }

  lemma MergeDecidesByInputs(result: seq<Proposal>, inputs: Inputs)
    requires IsMerge(result, AllProposals(inputs))
    ensures DecidesByInputs(result, inputs)
  {
    forall t
      ensures Proposed(t, result) <==>
              (exists from :: AsksFor(from, t) && Strong(inputs, from)) || RiskAsksFor(inputs, t)
    {
      MergeDecides(result, inputs, t);
      WantedIff(inputs, t);
    }
    ByType(result, inputs);
  }

  lemma ByType(result: seq<Proposal>, inputs: Inputs)
    requires forall t :: Proposed(t, result) <==>
               (exists from :: AsksFor(from, t) && Strong(inputs, from)) || RiskAsksFor(inputs, t)
    ensures DecidesByInputs(result, inputs)
  {
    assert AsksFor(PricingMisalignment, AdjustPricing) && AsksFor(LowEfficiency, IncreaseDiscovery);
    assert AsksFor(LowEfficiency, TriggerAutomation) && AsksFor(AutomationOpportunity, TriggerAutomation);
    assert AsksFor(OverloadRisk, ShiftScheduling) && AsksFor(OverloadRisk, ReduceLoad);
    assert AsksFor(IncomeInstability, StabilizeIncome);
  }

  // ---- The merge, said without maps and sorting

  /** `p` is the first proposal of its type with the greatest priority of that type. */
  ghost predicate IsChampion(p: Proposal, ps: seq<Proposal>) {
    exists i :: ChampionAt(ps, i) && ps[i] == p
  }

  ghost predicate ChampionAt(ps: seq<Proposal>, i: int) {
    && 0 <= i < |ps|
    && (forall j :: 0 <= j < |ps| && ps[j].kind == ps[i].kind ==> ps[j].priority <= ps[i].priority)
    && (forall j :: 0 <= j < i && ps[j].kind == ps[i].kind ==> ps[j].priority < ps[i].priority)
  }

  ghost predicate Proposed(t: ActionType, ps: seq<Proposal>) {
    exists i :: 0 <= i < |ps| && ps[i].kind == t
  }

  /** One proposal per proposed type, the champion of its type, in strict type order. */
  ghost predicate IsMerge(result: seq<Proposal>, ps: seq<Proposal>) {
    && (forall i, j :: 0 <= i < j < |result| ==> Rank(result[i].kind) < Rank(result[j].kind))
    && (forall i :: 0 <= i < |result| ==> IsChampion(result[i], ps))
    && (forall t :: Proposed(t, ps) ==> Proposed(t, result))
  }

  lemma ChampionUnique(p: Proposal, q: Proposal, ps: seq<Proposal>)
    requires IsChampion(p, ps) && IsChampion(q, ps) && p.kind == q.kind
    ensures p == q
  {
    var i :| ChampionAt(ps, i) && ps[i] == p;
    var j :| ChampionAt(ps, j) && ps[j] == q;
  }

  lemma SameTypes(a: seq<Proposal>, pa: seq<Proposal>, b: seq<Proposal>, pb: seq<Proposal>)
    requires IsMerge(a, pa) && IsMerge(b, pb)
    requires |pa| == |pb| && forall i :: 0 <= i < |pa| ==> pa[i].kind == pb[i].kind
    ensures forall i :: 0 <= i < |a| ==> Proposed(a[i].kind, b)
  {
    forall i | 0 <= i < |a| ensures Proposed(a[i].kind, b) {
      assert IsChampion(a[i], pa);
      var k :| ChampionAt(pa, k) && pa[k] == a[i];
      assert pb[k].kind == a[i].kind;
      assert Proposed(a[i].kind, pb);
    }
  }

  ghost predicate Increasing(s: seq<int>) {
    forall i, j :: 0 <= i < j < |s| ==> s[i] < s[j]
  }

  ghost function Elements(s: seq<int>): set<int> {
    set x | x in s
  }

  /** Two strictly increasing sequences with the same elements are the same. */
  lemma {:induction false} IncreasingUnique(a: seq<int>, b: seq<int>)
    requires Increasing(a) && Increasing(b) && Elements(a) == Elements(b)
    ensures a == b
  {
    SameEmptiness(a, b);
    SameEmptiness(b, a);
    if a != [] {
      var x := PeelLast(a, b);
      IncreasingUnique(a[..|a| - 1], b[..|b| - 1]);
    }
  }

  lemma SameEmptiness(a: seq<int>, b: seq<int>)
    requires Elements(a) == Elements(b)
    ensures a != [] ==> b != []
  {
    if a != [] { assert a[0] in Elements(b); }
  }

  lemma PeelLast(a: seq<int>, b: seq<int>) returns (x: int)
    requires Increasing(a) && Increasing(b) && Elements(a) == Elements(b) && a != [] && b != []
    ensures a == a[..|a| - 1] + [x] && b == b[..|b| - 1] + [x]
    ensures Increasing(a[..|a| - 1]) && Increasing(b[..|b| - 1]) && Elements(a[..|a| - 1]) == Elements(b[..|b| - 1])
  {
    x := a[|a| - 1];
    LastIsMax(a);
    LastIsMax(b);
    assert x in Elements(b) && b[|b| - 1] in Elements(a);
  }

  lemma LastIsMax(s: seq<int>)
    requires Increasing(s) && s != []
    ensures forall x :: x in Elements(s) ==> x <= s[|s| - 1]
    ensures Elements(s[..|s| - 1]) == Elements(s) - {s[|s| - 1]} && s[|s| - 1] in Elements(s)
    ensures s == s[..|s| - 1] + [s[|s| - 1]]
  {
  }

  function Ranks(s: seq<Proposal>): seq<int> {
    seq(|s|, i requires 0 <= i < |s| => Rank(s[i].kind))
  }

  lemma RanksIncluded(a: seq<Proposal>, b: seq<Proposal>)
    requires forall i :: 0 <= i < |a| ==> Proposed(a[i].kind, b)
    ensures forall x :: x in Ranks(a) ==> x in Ranks(b)
  {
    forall x | x in Ranks(a) ensures x in Ranks(b) {
      var i :| 0 <= i < |a| && Ranks(a)[i] == x;
      var k :| 0 <= k < |b| && b[k].kind == a[i].kind;
      assert Ranks(b)[k] == x;
    }
  }

  /** Two strictly ordered lists with the same types have them at the same places. */
  lemma TypesAlign(a: seq<Proposal>, b: seq<Proposal>)
    requires forall i, j :: 0 <= i < j < |a| ==> Rank(a[i].kind) < Rank(a[j].kind)
    requires forall i, j :: 0 <= i < j < |b| ==> Rank(b[i].kind) < Rank(b[j].kind)
    requires forall i :: 0 <= i < |a| ==> Proposed(a[i].kind, b)
    requires forall i :: 0 <= i < |b| ==> Proposed(b[i].kind, a)
    ensures |a| == |b| && forall i :: 0 <= i < |a| ==> a[i].kind == b[i].kind
  {
    RanksIncluded(a, b);
    RanksIncluded(b, a);
    assert Elements(Ranks(a)) == Elements(Ranks(b));
    IncreasingUnique(Ranks(a), Ranks(b));
    assert |Ranks(a)| == |a| && |Ranks(b)| == |b|;
    forall i | 0 <= i < |a| ensures a[i].kind == b[i].kind {
      assert Ranks(a)[i] == Ranks(b)[i];
    }
  }

  /** The merge is determined by the proposals: no order of iterating the map can change it. */
  lemma MergeUnique(a: seq<Proposal>, b: seq<Proposal>, ps: seq<Proposal>)
    requires IsMerge(a, ps) && IsMerge(b, ps)
    ensures a == b
  {
    SameTypes(a, ps, b, ps);
    SameTypes(b, ps, a, ps);
    TypesAlign(a, b);
    forall i | 0 <= i < |a| ensures a[i] == b[i] {
      ChampionUnique(a[i], b[i], ps);
    }
  }

  // ---- The code

  /** The proposals of a run, in rule order. */
  method CollectProposals(inputs: Inputs) returns (ps: seq<Proposal>)
    ensures ps == AllProposals(inputs)
    ensures forall p :: p in ps <==> Called(inputs, p)
  {
    ps := [];
    for i := 0 to |inputs.signals|
      invariant ps == FromSignals(inputs.signals[..i])
    {
      assert inputs.signals[..i + 1][..i] == inputs.signals[..i];
      ps := ps + Proposals(inputs.signals[i]);
    }
    assert inputs.signals[..|inputs.signals|] == inputs.signals;
    if inputs.netUtility < LOW_UTILITY {
      var raw := ps;
      for i := 0 to |ps|
        invariant |ps| == |raw|
        invariant forall j :: 0 <= j < i ==> ps[j] == Escalated(raw)[j]
        invariant forall j :: i <= j < |ps| ==> ps[j] == raw[j]
      {
        ps := ps[i := ps[i].(priority := Clamp01(ps[i].priority + ESCALATION_BOOST))];
      }
      assert ps == Escalated(raw);
    }
    ghost var sofar := ps;
    if inputs.financialRisk > HIGH_FINANCIAL_RISK {
      ps := ps + [Proposal(StabilizeIncome, ObjectiveFinancialRisk, inputs.financialRisk,
                           Clamp01(inputs.financialRisk))];
    }
    if inputs.overloadRisk > HIGH_OVERLOAD_RISK {
      ps := ps + [Proposal(ReduceLoad, ObjectiveOverloadRisk, inputs.overloadRisk, Clamp01(inputs.overloadRisk))];
    }
    assert ps == sofar + FromObjectives(inputs);
    forall p ensures p in ps <==> Called(inputs, p) { ProposedIsCalled(inputs, p); }
  }

  /** The map of best proposals by type. */
  ghost predicate IsBestMap(best: map<ActionType, Proposal>, ps: seq<Proposal>) {
    && (forall t :: t in best ==> best[t].kind == t && IsChampion(best[t], ps))
    && (forall t :: Proposed(t, ps) ==> t in best)
  }

  function BestWith(best: map<ActionType, Proposal>, p: Proposal): map<ActionType, Proposal> {
    if p.kind !in best || p.priority > best[p.kind].priority then best[p.kind := p] else best
  }

  lemma BestMapStep(best: map<ActionType, Proposal>, ps: seq<Proposal>, p: Proposal)
    requires IsBestMap(best, ps)
    ensures IsBestMap(BestWith(best, p), ps + [p])
  {
    var best' := BestWith(best, p);
    var longer := ps + [p];
    forall t | t in best' ensures best'[t].kind == t && IsChampion(best'[t], longer) {
      if best'[t] == p && (t !in best || best[t] != p) {
        NewChampion(best, ps, p);
      } else {
        OldChampion(best[t], ps, p);
      }
    }
    forall t | Proposed(t, longer) ensures t in best' {
      var i :| 0 <= i < |longer| && longer[i].kind == t;
      if i < |ps| { assert ps[i].kind == t; }
    }
  }

  lemma NewChampion(best: map<ActionType, Proposal>, ps: seq<Proposal>, p: Proposal)
    requires IsBestMap(best, ps) && (p.kind !in best || p.priority > best[p.kind].priority)
    ensures IsChampion(p, ps + [p])
  {
    var longer := ps + [p];
    forall j | 0 <= j < |ps| && ps[j].kind == p.kind ensures ps[j].priority < p.priority {
      assert Proposed(p.kind, ps);
      var i :| ChampionAt(ps, i) && ps[i] == best[p.kind];
    }
    assert ChampionAt(longer, |ps|);
  }

  lemma OldChampion(c: Proposal, ps: seq<Proposal>, p: Proposal)
    requires IsChampion(c, ps) && (p.kind == c.kind ==> p.priority <= c.priority)
    ensures IsChampion(c, ps + [p])
  {
    var i :| ChampionAt(ps, i) && ps[i] == c;
    assert ChampionAt(ps + [p], i);
  }

  /** Keeps the best proposal per type, sorts by type and caps the list. */
  method DeduplicateProposals(ps: seq<Proposal>) returns (result: seq<Proposal>)
    ensures IsMerge(result, ps) && |result| <= 7
  {
    var best := BestByType(ps);
    var sorted := SortedValues(best);
    MergeFromMap(best, ps, sorted);
    result := Cap(sorted, MAX_DECISIONS);
    AtMostSeven(sorted);
  }

  method BestByType(ps: seq<Proposal>) returns (best: map<ActionType, Proposal>)
    ensures IsBestMap(best, ps)
  {
    best := map[];
    for i := 0 to |ps|
      invariant IsBestMap(best, ps[..i])
    {
      var p := ps[i];
      BestMapStep(best, ps[..i], p);
      assert ps[..i] + [p] == ps[..i + 1];
      ghost var next := BestWith(best, p);
      if p.kind !in best || p.priority > best[p.kind].priority {
        best := best[p.kind := p];
      }
      assert best == next;
    }
    assert ps[..|ps|] == ps;
  }

  lemma MergeFromMap(best: map<ActionType, Proposal>, ps: seq<Proposal>, sorted: seq<Proposal>)
    requires IsBestMap(best, ps) && TypeOrdered(sorted)
    requires forall x :: x in sorted ==> x.kind in best && x == best[x.kind]
    requires forall t :: t in best ==> best[t] in sorted
    ensures IsMerge(sorted, ps)
  {
    forall t | Proposed(t, ps) ensures Proposed(t, sorted) {
      assert best[t] in sorted;
    }
    forall i | 0 <= i < |sorted| ensures IsChampion(sorted[i], ps) {
      assert sorted[i] in sorted;
    }
  }

  method Cap(s: seq<Proposal>, n: nat) returns (r: seq<Proposal>)
    ensures |r| <= n && r <= s && (|s| <= n ==> r == s)
  {
    r := s;
    if |r| > n {
      r := r[..n];
    }
  }

  /** The map's values in type order, whatever order they are taken from the map in. */
  method SortedValues(best: map<ActionType, Proposal>) returns (result: seq<Proposal>)
    requires forall t :: t in best ==> best[t].kind == t
    ensures TypeOrdered(result)
    ensures forall x :: x in result ==> x.kind in best && x == best[x.kind]
    ensures forall t :: t in best ==> best[t] in result
  {
    result := [];
    var todo := best.Keys;
    while todo != {}
      invariant todo <= best.Keys && TypeOrdered(result)
      invariant forall x :: x in result ==> x.kind in best && x.kind !in todo && x == best[x.kind]
      invariant forall t :: t in best && t !in todo ==> best[t] in result
    {
      var t :| t in todo;
      result := InsertByType(best[t], result);
      todo := todo - {t};
    }
  }

  ghost predicate TypeOrdered(s: seq<Proposal>) {
    forall i, j :: 0 <= i < j < |s| ==> Rank(s[i].kind) < Rank(s[j].kind)
  }

  method InsertByType(p: Proposal, s: seq<Proposal>) returns (r: seq<Proposal>)
    requires TypeOrdered(s) && forall x :: x in s ==> x.kind != p.kind
    ensures TypeOrdered(r) && forall x :: x in r <==> x == p || x in s
  {
    var k := 0;
    while k < |s| && Rank(s[k].kind) < Rank(p.kind)
      invariant k <= |s| && forall i :: 0 <= i < k ==> Rank(s[i].kind) < Rank(p.kind)
    {
      k := k + 1;
    }
    forall i | k <= i < |s| ensures Rank(p.kind) < Rank(s[i].kind) {
      assert s[i] in s && s[k] in s;
    }
    r := s[..k] + [p] + s[k..];
    InsertedOrder(p, s, k);
    InsertedMembers(p, s, k);
  }

  lemma InsertedMembers(p: Proposal, s: seq<Proposal>, k: nat)
    requires k <= |s|
    ensures forall x :: x in s[..k] + [p] + s[k..] <==> x == p || x in s
  {
    assert s == s[..k] + s[k..];
  }

  lemma InsertedOrder(p: Proposal, s: seq<Proposal>, k: nat)
    requires TypeOrdered(s) && k <= |s|
    requires forall i :: 0 <= i < k ==> Rank(s[i].kind) < Rank(p.kind)
    requires forall i :: k <= i < |s| ==> Rank(p.kind) < Rank(s[i].kind)
    ensures TypeOrdered(s[..k] + [p] + s[k..])
  {
    var r := s[..k] + [p] + s[k..];
    assert forall i :: 0 <= i < |r| ==> r[i] == if i < k then s[i] else if i == k then p else s[i - 1];
  }

  lemma AtMostSeven(s: seq<Proposal>)
    requires forall i, j :: 0 <= i < j < |s| ==> Rank(s[i].kind) < Rank(s[j].kind)
    ensures |s| <= 7
  {
    var i := 0;
    while i < |s|
      invariant 0 <= i <= |s| && (i > 0 ==> Rank(s[i - 1].kind) >= i - 1)
    {
      i := i + 1;
    }
  }

  /** The rules as a whole: the one merge of all proposals, with no proposed type dropped by the cap. */
  method EvaluateRules(inputs: Inputs) returns (result: seq<Proposal>)
    ensures IsMerge(result, AllProposals(inputs)) && |result| <= 7
    ensures DecidesByInputs(result, inputs) && GreatestCalled(result, inputs)
  {
    var ps := CollectProposals(inputs);
    result := DeduplicateProposals(ps);
    MergeDecidesByInputs(result, inputs);
    MergeIsGreatest(result, inputs);
  }

  // ---- Low utility only escalates

  lemma OneSignalPriorities(sig: ReflectionSignal)
    requires 0.0 <= sig.strength <= 1.0
    ensures forall i :: 0 <= i < |Proposals(sig)| ==> 0.0 <= Proposals(sig)[i].priority <= 1.0
  {
  }

  lemma {:induction false} SignalPriorities(signals: seq<ReflectionSignal>)
    requires forall i :: 0 <= i < |signals| ==> 0.0 <= signals[i].strength <= 1.0
    ensures forall i :: 0 <= i < |FromSignals(signals)| ==> 0.0 <= FromSignals(signals)[i].priority <= 1.0
  {
    if signals != [] {
      SignalPriorities(signals[..|signals| - 1]);
      OneSignalPriorities(signals[|signals| - 1]);
    }
  }

  /** Between two runs that differ only in net utility, one low and one not: the same types are
      decided, in the same order, and no priority is lower under low utility. */
  lemma LowUtilityOnlyEscalates(low: Inputs, normal: Inputs, a: seq<Proposal>, b: seq<Proposal>)
    requires low.netUtility < LOW_UTILITY <= normal.netUtility && low == normal.(netUtility := low.netUtility)
    requires forall i :: 0 <= i < |low.signals| ==> 0.0 <= low.signals[i].strength <= 1.0
    requires IsMerge(a, AllProposals(low)) && IsMerge(b, AllProposals(normal))
    ensures |a| == |b| && forall i :: 0 <= i < |a| ==> a[i].kind == b[i].kind && a[i].priority >= b[i].priority
  {
    var pl, pn := AllProposals(low), AllProposals(normal);
    SignalPriorities(low.signals);
    assert |pl| == |pn| && forall i :: 0 <= i < |pl| ==> pl[i].kind == pn[i].kind && pl[i].priority >= pn[i].priority;
    SameTypes(a, pl, b, pn);
    SameTypes(b, pn, a, pl);
    TypesAlign(a, b);
    forall i | 0 <= i < |a| ensures a[i].priority >= b[i].priority {
      HigherChampion(a[i], pl, b[i], pn);
    }
  }

  lemma HigherChampion(p: Proposal, pl: seq<Proposal>, q: Proposal, pn: seq<Proposal>)
    requires |pl| == |pn| && forall i :: 0 <= i < |pl| ==> pl[i].kind == pn[i].kind && pl[i].priority >= pn[i].priority
    requires IsChampion(p, pl) && IsChampion(q, pn) && p.kind == q.kind
    ensures p.priority >= q.priority
  {
    var i :| ChampionAt(pl, i) && pl[i] == p;
    var j :| ChampionAt(pn, j) && pn[j] == q;
    assert pl[j].kind == p.kind;
  }
}
