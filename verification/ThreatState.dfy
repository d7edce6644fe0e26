/**
 The threat-state machine: an unbounded history of weighted signals, noisy-OR
 aggregates, a ceiling by source diversity, forced de-escalation and one gated
 way to the top state.
 */
module ThreatState {
  import opened Binary64
  import opened FiniteSets
  import opened JsText
  import opened NoisyOr

  /** NORMAL 0, OBSERVE 1, SUSPICIOUS 2, PROBABLE_THREAT 3, VERIFIED_THREAT 4, CRITICAL_LIFE_SAFETY 5. */
  type State = n: nat | n <= 5

  datatype SourceType = Camera | Access | Field | Sensor | Cyber | Intel
  datatype SourceTrust = Trusted | Degraded | Suspicious | Quarantined
  datatype Kind = Supporting | Contradicting
  datatype Impact = Low | Moderate | High | Extreme
  datatype Severity = Sev5 | Sev4 | Sev3 | Sev2 | Sev1

  datatype Signal = Signal(
    signalId: Text,
    sourceId: Text,
    sourceType: SourceType,
    sourceTrust: SourceTrust,
    kind: Kind,
    confidence: Number,
    humanAuthorised: bool,
    lifeSafety: bool)

  datatype Processed = Processed(signal: Signal, weightedConfidence: Unit)

  /** The prose of a transition's reason is not modelled; what it says is. */
  datatype Reason = Reason(lifeSafety: bool, forced: bool, capped: bool)

  datatype Transition = Transition(from: State, to: State, signalId: Text, reason: Reason)

  datatype Hypothesis = Hypothesis(
    state: State,
    detectionConfidence: Unit,
    threatProbability: Unit,
    impact: Impact,
    severity: Severity,
    signals: seq<Processed>,
    ignored: seq<Signal>,
    transitions: seq<Transition>)

  // ----- aggregates -----

  /** Clamping anything already between 0 and 1 again leaves it alone. */
  function Clamp01(x: real): (r: Unit)
    ensures 0.0 <= x <= 1.0 ==> r == x
  {
    if x < 0.0 then 0.0 else if x > 1.0 then 1.0 else x
  }

  function TrustWeight(trust: SourceTrust): Unit {
    match trust
    case Trusted => 1.0
    case Degraded => 0.5
    case Suspicious => 0.25
    case Quarantined => 0.0
  }

  function OfKind(signals: seq<Processed>, kind: Kind): (filtered: seq<Processed>)
    ensures forall p :: p in filtered <==> p in signals && p.signal.kind == kind
  {
    if signals == [] then []
    else
      assert signals == signals[..|signals| - 1] + [signals[|signals| - 1]];
      OfKind(signals[..|signals| - 1], kind)
      + (if signals[|signals| - 1].signal.kind == kind then [signals[|signals| - 1]] else [])
  }

  function Mapped<A, B>(f: A -> B, s: seq<A>): (r: seq<B>)
    ensures |r| == |s| && forall i :: 0 <= i < |s| ==> r[i] == f(s[i])
  {
    seq(|s|, i requires 0 <= i < |s| => f(s[i]))
  }

  function WeightOf(p: Processed): Unit {
    p.weightedConfidence
  }

  function Weights(signals: seq<Processed>): (weights: seq<Unit>)
    ensures |weights| == |signals| && forall i :: 0 <= i < |signals| ==> weights[i] == signals[i].weightedConfidence
  {
    Mapped(WeightOf, signals)
  }

  function Strength(signals: seq<Processed>, kind: Kind): Unit {
    CombineNoisyOr(Weights(OfKind(signals, kind)))
  }

  function ThreatProbability(signals: seq<Processed>): Unit {
    MinusOrZero(Strength(signals, Supporting), Strength(signals, Contradicting))
  }

  function DetectionConfidence(signals: seq<Processed>): Unit {
    CombineNoisyOr(Weights(signals))
  }

  /** Distinct sources behind supporting signals of at least half weight. */
  function DiverseSources(signals: seq<Processed>): set<Text> {
    set p | p in signals && p.signal.kind.Supporting? && p.weightedConfidence >= 0.5 :: p.signal.sourceId
  }

  /** The thresholds are the doubles nearest to the decimals written. */
  function BaseState(p: Unit): State {
    if p >= Round(0.85) then 4
    else if p >= Round(0.65) then 3
    else if p >= Round(0.4) then 2
    else if p >= Round(0.2) then 1
    else 0
  }

  predicate QualifyingHuman(p: Processed) {
    p.signal.kind.Supporting? && p.signal.humanAuthorised && p.signal.sourceType.Field?
  }

  /** The ceiling by diversity, with the exception for an authorised person in the field. */
  function Ceiling(signals: seq<Processed>): State {
    if |DiverseSources(signals)| >= 2 then 4
    else if !exists p :: p in signals && QualifyingHuman(p) then 2
    else if exists p :: p in signals && QualifyingHuman(p) && p.signal.confidence >= Round(0.9) then 4
    else 3
  }

  function ImpactScore(impact: Impact): nat {
    match impact
    case Low => 0
    case Moderate => 1
    case High => 2
    case Extreme => 3
  }

  function DeriveSeverity(state: State, impact: Impact): Severity {
    if state == 5 then Sev1
    else
      var score := state + ImpactScore(impact);
      if score <= 1 then Sev5 else if score <= 3 then Sev4 else if score <= 5 then Sev3 else if score <= 6 then Sev2 else Sev1
  }

  function CreateHypothesis(impact: Impact): Hypothesis {
    Hypothesis(0, 0.0, 0.0, impact, DeriveSeverity(0, impact), [], [], [])
  }

  // ----- one signal -----

  function Process(s: Signal): Processed {
    Processed(s, Clamp01(Times(Clamp01(s.confidence), TrustWeight(s.sourceTrust))))
  }

  function Min(a: State, b: State): State {
    if a <= b then a else b
  }

  predicate Forces(s: Signal) {
    s.kind.Contradicting? && Process(s).weightedConfidence >= Round(0.6)
  }

  /** The state the evidence supports under the ceiling, after any forced de-escalation. */
  function PreGateState(h: Hypothesis, s: Signal): State {
    var signals := h.signals + [Process(s)];
    var capped := Min(BaseState(ThreatProbability(signals)), Ceiling(signals));
    if Forces(s) then Min(capped, if h.state == 0 then 0 else h.state - 1) else capped
  }

  /** The life-safety gate: a qualified signal, on a hypothesis that stands at PROBABLE_THREAT without it. */
  predicate PassesGate(h: Hypothesis, s: Signal) {
    && s.lifeSafety && (s.sourceTrust.Trusted? || s.humanAuthorised)
    && PreGateState(h, s) >= 3
  }

  predicate Accepted(s: Signal) {
    !s.sourceTrust.Quarantined?
  }

  function ApplySignal(h: Hypothesis, s: Signal): Hypothesis {
    if !Accepted(s) then h.(ignored := h.ignored + [s])
    else
      var signals := h.signals + [Process(s)];
      var state: State := if PassesGate(h, s) then 5 else PreGateState(h, s);
      var reason := Reason(PassesGate(h, s), Forces(s), Ceiling(signals) < BaseState(ThreatProbability(signals)));
      h.(state := state,
         detectionConfidence := DetectionConfidence(signals),
         threatProbability := ThreatProbability(signals),
         severity := DeriveSeverity(state, h.impact),
         signals := signals,
         transitions := if state != h.state then h.transitions + [Transition(h.state, state, s.signalId, reason)] else h.transitions)
  }

  /** A whole history, first signal first. */
  function Run(h: Hypothesis, history: seq<Signal>): Hypothesis {
    if history == [] then h else ApplySignal(Run(h, history[..|history| - 1]), history[|history| - 1])
  }

  // ----- the aggregates and the order of signals -----

  /** Mapping element by element respects multisets. */
  lemma {:induction false} MappedMultiset<A, B>(f: A -> B, a: seq<A>, b: seq<A>)
    requires multiset(a) == multiset(b)
    ensures multiset(Mapped(f, a)) == multiset(Mapped(f, b))
  {
    if a == [] {
      EmptyPermutation(b);
    } else {
      var i := Matching(a, b);
      MappedMultiset(f, a[..|a| - 1], b[..i] + b[i + 1..]);
      MappedSplit(f, a, |a| - 1);
      MappedSplit(f, b, i);
      assert a[..|a| - 1] + a[|a|..] == a[..|a| - 1];
    }
  }

  lemma MappedSplit<A, B>(f: A -> B, a: seq<A>, i: nat)
    requires i < |a|
    ensures multiset(Mapped(f, a)) == multiset(Mapped(f, a[..i] + a[i + 1..])) + multiset{f(a[i])}
  {
    assert Mapped(f, a[..i] + a[i + 1..]) == Mapped(f, a[..i]) + Mapped(f, a[i + 1..]);
    assert Mapped(f, a) == Mapped(f, a[..i]) + [f(a[i])] + Mapped(f, a[i + 1..]);
  }

  lemma {:induction false} KindMultiset(a: seq<Processed>, kind: Kind, p: Processed)
    ensures multiset(OfKind(a, kind))[p] == if p.signal.kind == kind then multiset(a)[p] else 0
  {
    hide OfKind;
    if a == [] {
      NoneOfKind(kind);
    } else {
      var front, last := a[..|a| - 1], a[|a| - 1];
      KindMultiset(front, kind, p);
      assert a == front + [last];
      OfKindAppend(front, last, kind);
    }
  }

  lemma KindsOfMultiset(a: seq<Processed>, b: seq<Processed>, kind: Kind)
    requires multiset(a) == multiset(b)
    ensures multiset(OfKind(a, kind)) == multiset(OfKind(b, kind))
  {
    forall p: Processed
      ensures multiset(OfKind(a, kind))[p] == multiset(OfKind(b, kind))[p]
    {
      KindMultiset(a, kind, p);
      KindMultiset(b, kind, p);
    }
  }

  lemma StrengthOrderError(a: seq<Processed>, b: seq<Processed>)
    requires multiset(a) == multiset(b)
    ensures |a| == |b| && Within(CombineNoisyOr(Weights(a)), CombineNoisyOr(Weights(b)), HalfUlps(4 * |a| + 2))
  {
    hide CombineNoisyOr, Mapped, HalfUlps;
    assert |a| == |multiset(a)| && |b| == |multiset(b)|;
    MappedMultiset(WeightOf, a, b);
    OrderError(Weights(a), Weights(b));
  }

  lemma {:induction false} KindsPartition(signals: seq<Processed>)
    ensures |OfKind(signals, Supporting)| + |OfKind(signals, Contradicting)| == |signals|
  {
    if signals != [] {
      KindsPartition(signals[..|signals| - 1]);
    }
  }

  lemma MinusErrors(x: Unit, y: Unit, x': Unit, y': Unit, n: nat, m: nat)
    requires Within(x, x', HalfUlps(n)) && Within(y, y', HalfUlps(m))
    ensures Within(MinusOrZero(x, y), MinusOrZero(x', y'), HalfUlps(n + m + 2))
  {
    hide MinusOrZero;
    MinusError(x, y);
    MinusError(x', y');
  }

  /**
   Which sources stand behind a hypothesis and how high it may rise depend only on
   which signals were accepted and how often. Its figures do so up to rounding: two
   units in the last place a signal, and three more.
   */
  lemma AggregatesIgnoreOrder(a: seq<Processed>, b: seq<Processed>)
    requires multiset(a) == multiset(b)
    ensures |a| == |b| && DiverseSources(a) == DiverseSources(b) && Ceiling(a) == Ceiling(b)
    ensures Within(DetectionConfidence(a), DetectionConfidence(b), HalfUlps(4 * |a| + 2))
    ensures Within(ThreatProbability(a), ThreatProbability(b), HalfUlps(4 * |a| + 6))
  {
    hide CombineNoisyOr, Weights, OfKind, QualifyingHuman, HalfUlps, MinusOrZero, Within, Round;
    StrengthOrderError(a, b);
    KindsPartition(a);
    KindsOfMultiset(a, b, Supporting);
    KindsOfMultiset(a, b, Contradicting);
    StrengthOrderError(OfKind(a, Supporting), OfKind(b, Supporting));
    StrengthOrderError(OfKind(a, Contradicting), OfKind(b, Contradicting));
    MinusErrors(Strength(a, Supporting), Strength(a, Contradicting), Strength(b, Supporting), Strength(b, Contradicting),
                4 * |OfKind(a, Supporting)| + 2, 4 * |OfKind(a, Contradicting)| + 2);
    assert 4 * |OfKind(a, Supporting)| + 2 + (4 * |OfKind(a, Contradicting)| + 2) + 2 == 4 * |a| + 6;
    forall p: Processed
      ensures p in a <==> p in b
    {
      assert p in a <==> p in multiset(a);
      assert p in b <==> p in multiset(b);
    }
  }

  /** No threshold lies within the error of the computed probability. */
  predicate ClearOfThresholds(p: Unit, e: real) {
    && !Within(p, Round(0.85), e) && !Within(p, Round(0.65), e)
    && !Within(p, Round(0.4), e) && !Within(p, Round(0.2), e)
  }

  /** The order can move the state the evidence supports only where a threshold is within the error. */
  lemma StateIgnoresOrderOffThresholds(a: seq<Processed>, b: seq<Processed>)
    requires multiset(a) == multiset(b) && ClearOfThresholds(ThreatProbability(a), HalfUlps(4 * |a| + 6))
    ensures Min(BaseState(ThreatProbability(a)), Ceiling(a)) == Min(BaseState(ThreatProbability(b)), Ceiling(b))
  {
    hide ThreatProbability, DetectionConfidence, Ceiling, Round;
    AggregatesIgnoreOrder(a, b);
  }

  // ----- what one signal does -----

  lemma OfKindAppend(signals: seq<Processed>, p: Processed, kind: Kind)
    ensures OfKind(signals + [p], kind) == if p.signal.kind == kind then OfKind(signals, kind) + [p] else OfKind(signals, kind)
  {
    assert (signals + [p])[..|signals|] == signals;
    assert OfKind(signals, kind) + [] == OfKind(signals, kind);
  }

  /** One more supporting signal leaves the contradictions alone and adds to the support. */
  lemma SupportGrows(signals: seq<Processed>, p: Processed)
    requires p.signal.kind.Supporting?
    ensures ThreatProbability(signals + [p]) >= ThreatProbability(signals)
  {
    hide OfKind, CombineNoisyOr, Weights, MinusOrZero;
    OfKindAppend(signals, p, Supporting);
    OfKindAppend(signals, p, Contradicting);
    WeightsAppend(OfKind(signals, Supporting), p);
    NoisyOrGrows(Weights(OfKind(signals, Supporting)), p.weightedConfidence);
    MinusMonotone(Strength(signals, Supporting), Strength(signals + [p], Supporting), Strength(signals, Contradicting));
  }

  lemma WeightsAppend(signals: seq<Processed>, p: Processed)
    ensures Weights(signals + [p]) == Weights(signals) + [p.weightedConfidence]
  {
  }

  lemma CeilingGrows(signals: seq<Processed>, p: Processed)
    ensures Ceiling(signals) <= Ceiling(signals + [p])
  {
    var after := signals + [p];
    assert forall q :: q in signals ==> q in after;
    assert DiverseSources(signals) <= DiverseSources(after);
    SubsetIsNoLarger(DiverseSources(signals), DiverseSources(after));
  }

  lemma BaseStateMonotone(p: Unit, q: Unit)
    requires p <= q
    ensures BaseState(p) <= BaseState(q)
  {
    hide Round;
  }

  /** A weight below one half of anything never reaches one half, and a certain source at half weight just does. */
  lemma HalvedConfidence(c: Unit)
    requires IsDouble(c)
    ensures Times(c, 1.0) == c && Times(c, 0.5) <= 0.5 && Times(c, 0.25) <= 0.25
    ensures Times(c, 0.5) == 0.5 <==> c == 1.0
  {
    TimesOne(c);
    HalvesRound(c);
  }

  /**
   What the weights amount to: only a trusted source can force a de-escalation,
   and only a trusted one, or a degraded one in full certainty, counts towards
   diversity.
   */
  lemma WhoCanWeighIn(s: Signal)
    requires Accepted(s)
    ensures Forces(s) <==> s.kind.Contradicting? && s.sourceTrust.Trusted? && s.confidence >= Round(0.6)
    ensures Process(s).weightedConfidence >= 0.5 <==>
            (s.sourceTrust.Trusted? && s.confidence >= 0.5) || (s.sourceTrust.Degraded? && s.confidence >= 1.0)
  {
    hide Round, Times;
    SixTenths();
    ConfidenceIsDouble(s.confidence);
    HalvedConfidence(Clamp01(s.confidence));
  }

  lemma SixTenths()
    ensures 0.5 < Round(0.6) < 1.0 && 0.25 < Round(0.4) && 0.125 < Round(0.2)
  {
    hide Round;
    RoundError(0.6);
    RoundError(0.4);
    RoundError(0.2);
  }

  lemma ThresholdOrder()
    ensures Round(0.2) <= Round(0.4) <= Round(0.65) <= Round(0.85)
  {
    hide Round;
    RoundMonotone(0.2, 0.4);
    RoundMonotone(0.4, 0.65);
    RoundMonotone(0.65, 0.85);
  }

  lemma ConfidenceIsDouble(c: Number)
    ensures IsDouble(Clamp01(c))
  {
    hide Round;
    ZeroAndOne();
  }

  lemma OneSignal(p: Processed)
    requires p.signal.kind.Supporting?
    ensures ThreatProbability([p]) == DetectionConfidence([p]) == OneMinus(OneMinus(p.weightedConfidence))
  {
    hide Times, OneMinus, IsDouble, Round;
    OfKindAppend([], p, Supporting);
    OfKindAppend([], p, Contradicting);
    assert [] + [p] == [p];
    assert Weights([p]) == [p.weightedConfidence] && Weights([]) == [];
    OneFactor(p.weightedConfidence);
    DoubleOneMinus(p.weightedConfidence);
    NothingSubtracted(OneMinus(OneMinus(p.weightedConfidence)));
    DoubleOneMinus(OneMinus(p.weightedConfidence));
    NoWeights();
  }

  lemma DoubleOneMinus(w: Unit)
    ensures IsDouble(OneMinus(w)) && Times(1.0, OneMinus(w)) == OneMinus(w) && OneMinus(1.0) == 0.0
  {
    hide Round;
    ZeroAndOne();
    RoundIsDouble(1.0 - w);
  }

  lemma NothingSubtracted(x: Unit)
    ensures IsDouble(x) ==> MinusOrZero(x, 0.0) == x
  {
    hide Round;
  }

  lemma TwiceComplemented(w: Unit)
    ensures Within(OneMinus(OneMinus(w)), w, HalfUlps(2))
  {
    hide OneMinus;
    OneMinusError(w);
    OneMinusError(OneMinus(w));
  }

  lemma QuarterStays()
    ensures OneMinus(OneMinus(0.25)) == 0.25
  {
    hide Round;
    RoundedComplements();
    RoundSecond(0.25, 4503599627370496);
  }

  /**
   The first signal of a hypothesis, if it is supporting and no authorised report
   from the field: the probability is its weight up to two half units in the last
   place, and however strong it is the state stops at SUSPICIOUS, from a suspicious
   source at OBSERVE.
   */
  lemma FirstSignal(impact: Impact, s: Signal)
    requires Accepted(s) && s.kind.Supporting? && !(s.humanAuthorised && s.sourceType.Field?)
    ensures var h := ApplySignal(CreateHypothesis(impact), s);
            var w := Process(s).weightedConfidence;
            && h.threatProbability == h.detectionConfidence == OneMinus(OneMinus(w))
            && Within(h.threatProbability, w, HalfUlps(2))
            && h.state == (if h.threatProbability >= Round(0.4) then 2 else if h.threatProbability >= Round(0.2) then 1 else 0)
            && (s.sourceTrust.Suspicious? ==> h.state <= 1)
            && (h.state == 0 <==> h.transitions == [])
  {
    hide Round, CombineNoisyOr, OneMinus, Times, MinusOrZero, OfKind, Weights;
    var p := Process(s);
    OneSignal(p);
    SixTenths();
    ThresholdOrder();
    if s.sourceTrust.Suspicious? {
      ConfidenceIsDouble(s.confidence);
      HalvedConfidence(Clamp01(s.confidence));
      QuarterStays();
      OneMinusAntitone(p.weightedConfidence, 0.25);
      OneMinusAntitone(OneMinus(0.25), OneMinus(p.weightedConfidence));
    }
    assert DiverseSources([p]) <= {s.sourceId};
    SubsetIsNoLarger(DiverseSources([p]), {s.sourceId});
    assert [] + [p] == [p];
    TwiceComplemented(p.weightedConfidence);
  }

  /** A strong contradiction that does not pass the gate strictly lowers any state above NORMAL. */
  lemma StrongContradictionLowers(h: Hypothesis, s: Signal)
    requires Accepted(s) && Forces(s) && !PassesGate(h, s)
    ensures h.state > 0 ==> ApplySignal(h, s).state < h.state
    ensures h.state == 0 ==> ApplySignal(h, s).state == 0
  {
  }

  /** Urgency, most urgent highest. */
  function Urgency(severity: Severity): nat {
    match severity
    case Sev5 => 0
    case Sev4 => 1
    case Sev3 => 2
    case Sev2 => 3
    case Sev1 => 4
  }

  /** Severity never becomes less urgent as the state or the impact rises. */
  lemma SeverityMonotone(state: State, higher: State, impact: Impact, worse: Impact)
    requires state <= higher && ImpactScore(impact) <= ImpactScore(worse)
    ensures Urgency(DeriveSeverity(state, impact)) <= Urgency(DeriveSeverity(higher, worse))
    ensures DeriveSeverity(state, impact).Sev1? <==> state == 5 || (state == 4 && impact.Extreme?)
    ensures DeriveSeverity(state, impact).Sev2? <==> (state == 3 && impact.Extreme?) || (state == 4 && impact.High?)
    ensures DeriveSeverity(state, impact).Sev3? <==>
            || (state == 1 && impact.Extreme?) || (state == 2 && impact in {High, Extreme})
            || (state == 3 && impact in {Moderate, High}) || (state == 4 && impact in {Low, Moderate})
    ensures DeriveSeverity(state, impact).Sev4? <==>
            || (state == 0 && impact in {High, Extreme}) || (state == 1 && impact in {Moderate, High})
            || (state == 2 && impact in {Low, Moderate}) || (state == 3 && impact.Low?)
    ensures DeriveSeverity(state, impact).Sev5? <==> (state == 0 && impact in {Low, Moderate}) || (state == 1 && impact.Low?)
  {
  }

  /** A person in the field, authorised and in support, is on record with at least this confidence. */
  predicate Vouched(signals: seq<Processed>, confidence: real) {
    exists p :: p in signals && p.signal.kind.Supporting? && p.signal.humanAuthorised && p.signal.sourceType.Field?
                && p.signal.confidence >= confidence
  }

  predicate VouchedAtAll(signals: seq<Processed>) {
    exists p :: p in signals && p.signal.kind.Supporting? && p.signal.humanAuthorised && p.signal.sourceType.Field?
  }

  /** How the evidence on record carries a state, threshold by threshold. */
  predicate Carries(signals: seq<Processed>, probability: real, state: State) {
    match state
    case 0 => true
    case 1 => probability >= Round(0.2)
    case 2 => probability >= Round(0.4)
    case 3 => probability >= Round(0.65) && (|DiverseSources(signals)| >= 2 || VouchedAtAll(signals))
    case 4 => probability >= Round(0.85) && (|DiverseSources(signals)| >= 2 || Vouched(signals, Round(0.9)))
    case _ => false
  }

  /** The signal may lift a hypothesis to the top, told from the record it leaves behind. */
  predicate LiftsToTop(before: Hypothesis, s: Signal, after: Hypothesis) {
    && s.lifeSafety && (s.sourceTrust.Trusted? || s.humanAuthorised)
    && after.threatProbability >= Round(0.65)
    && (|DiverseSources(after.signals)| >= 2 || VouchedAtAll(after.signals))
    && (s.kind.Contradicting? && Process(s).weightedConfidence >= Round(0.6) ==> before.state >= 4)
  }

  lemma CeilingCarries(signals: seq<Processed>)
    ensures Ceiling(signals) in {2, 3, 4}
    ensures Ceiling(signals) >= 3 <==> |DiverseSources(signals)| >= 2 || VouchedAtAll(signals)
    ensures Ceiling(signals) >= 4 <==> |DiverseSources(signals)| >= 2 || Vouched(signals, Round(0.9))
  {
    hide DiverseSources, Round;
    assert VouchedAtAll(signals) <==> exists p :: p in signals && QualifyingHuman(p);
    assert Vouched(signals, Round(0.9)) <==> exists p :: p in signals && QualifyingHuman(p) && p.signal.confidence >= Round(0.9);
  }

  lemma PreGateCarries(h: Hypothesis, s: Signal, state: State)
    requires 1 <= state <= 4
    ensures var signals := h.signals + [Process(s)];
            PreGateState(h, s) >= state <==>
            Carries(signals, ThreatProbability(signals), state) && (Forces(s) ==> h.state > state)
  {
    hide ThreatProbability, Ceiling, Round, DiverseSources, Process, Vouched, VouchedAtAll, Forces;
    CeilingCarries(h.signals + [Process(s)]);
    ThresholdOrder();
  }

  /**
   Where an accepted signal leaves a hypothesis, read off the record: at the top
   exactly when it lifts it there, and otherwise at or above a state exactly when
   the evidence carries that state and a strong contradiction, if it is one, found
   the hypothesis above it.
   */
  lemma StateIsReadOffTheRecord(h: Hypothesis, s: Signal, state: State)
    requires Accepted(s) && 1 <= state <= 4
    ensures var after := ApplySignal(h, s);
            && (after.state == 5 <==> LiftsToTop(h, s, after))
            && (after.state < 5 ==>
                  (after.state >= state <==>
                   && Carries(after.signals, after.threatProbability, state)
                   && (s.kind.Contradicting? && Process(s).weightedConfidence >= Round(0.6) ==> h.state > state)))
  {
    hide ThreatProbability, DetectionConfidence, Ceiling, Round, DiverseSources, Process, Vouched, VouchedAtAll, BaseState,
         PreGateState, DeriveSeverity;
    PreGateCarries(h, s, state);
    PreGateCarries(h, s, 3);
    PreGateBelowTop(h, s);
  }

  /**
   A change of state leaves one entry that tells why: the gate, a strong
   contradiction, and whether the probability asked for a state that
   corroboration did not allow. No change leaves none.
   */
  lemma TransitionsTellWhy(h: Hypothesis, s: Signal)
    requires Accepted(s)
    ensures var after := ApplySignal(h, s);
            var lacking := |DiverseSources(after.signals)| < 2
                           && ((after.threatProbability >= Round(0.65) && !VouchedAtAll(after.signals))
                               || (after.threatProbability >= Round(0.85) && !Vouched(after.signals, Round(0.9))));
            after.transitions ==
            if after.state == h.state then h.transitions
            else h.transitions + [Transition(h.state, after.state, s.signalId, Reason(LiftsToTop(h, s, after), Forces(s), lacking))]
  {
    hide ThreatProbability, DetectionConfidence, Ceiling, Round, DiverseSources, Process, Vouched, VouchedAtAll, PreGateState,
         DeriveSeverity, Forces, LiftsToTop;
    StateIsReadOffTheRecord(h, s, 1);
    PreGateBelowTop(h, s);
    CeilingCarries(h.signals + [Process(s)]);
    ThresholdOrder();
  }

  // ----- over every history -----

  ghost predicate Chained(h: Hypothesis) {
    && (h.transitions == [] ==> h.state == 0)
    && (h.transitions != [] ==> h.transitions[0].from == 0 && h.transitions[|h.transitions| - 1].to == h.state)
    && (forall i :: 0 <= i < |h.transitions| ==> h.transitions[i].from != h.transitions[i].to)
    && (forall i :: 0 < i < |h.transitions| ==> h.transitions[i - 1].to == h.transitions[i].from)
  }

  /** The recorded figures are the aggregates of the recorded signals, and only the gate exceeds what they support. */
  ghost predicate Consistent(h: Hypothesis) {
    && h.threatProbability == ThreatProbability(h.signals) && h.detectionConfidence == DetectionConfidence(h.signals)
    && h.severity == DeriveSeverity(h.state, h.impact)
    && (h.state != 5 ==> h.state <= Min(BaseState(ThreatProbability(h.signals)), Ceiling(h.signals)))
  }

  lemma ApplyKeeps(h: Hypothesis, s: Signal)
    requires Chained(h) && Consistent(h)
    ensures Chained(ApplySignal(h, s)) && Consistent(ApplySignal(h, s))
  {
    hide ThreatProbability, DetectionConfidence, Ceiling, BaseState;
  }

  lemma NothingAggregated()
    ensures ThreatProbability([]) == 0.0 && DetectionConfidence([]) == 0.0
  {
    hide Times, OneMinus, IsDouble;
    assert Weights(OfKind([], Supporting)) == [] && Weights(OfKind([], Contradicting)) == [] && Weights([]) == [];
    NoWeights();
    DoubleOneMinus(0.0);
  }

  lemma {:induction false} RunKeeps(impact: Impact, history: seq<Signal>)
    ensures Chained(Run(CreateHypothesis(impact), history)) && Consistent(Run(CreateHypothesis(impact), history))
  {
    hide ApplySignal, Chained, Consistent;
    if history == [] {
      FreshIsConsistent(impact);
    } else {
      RunKeeps(impact, history[..|history| - 1]);
      ApplyKeeps(Run(CreateHypothesis(impact), history[..|history| - 1]), history[|history| - 1]);
    }
  }

  lemma FreshIsConsistent(impact: Impact)
    ensures Chained(CreateHypothesis(impact)) && Consistent(CreateHypothesis(impact))
  {
    NothingAggregated();
  }

  /** The transition log leads, without a gap, from NORMAL to the state the hypothesis is in. */
  lemma TransitionsChain(impact: Impact, history: seq<Signal>)
    ensures Chained(Run(CreateHypothesis(impact), history))
  {
    hide Run, Chained;
    RunKeeps(impact, history);
  }

  /** Probability and confidence are probabilities, and the recorded ones are those of the recorded signals. */
  lemma FiguresAreAggregates(impact: Impact, history: seq<Signal>)
    ensures var h := Run(CreateHypothesis(impact), history);
            && h.threatProbability == ThreatProbability(h.signals) && h.detectionConfidence == DetectionConfidence(h.signals)
            && 0.0 <= h.threatProbability <= 1.0 && 0.0 <= h.detectionConfidence <= 1.0
            && h.severity == DeriveSeverity(h.state, h.impact)
  {
    hide Run, Chained;
    RunKeeps(impact, history);
  }

  function AcceptedOf(history: seq<Signal>): seq<Signal> {
    if history == [] then []
    else AcceptedOf(history[..|history| - 1]) + (if Accepted(history[|history| - 1]) then [history[|history| - 1]] else [])
  }

  function QuarantinedOf(history: seq<Signal>): seq<Signal> {
    if history == [] then []
    else QuarantinedOf(history[..|history| - 1]) + (if Accepted(history[|history| - 1]) then [] else [history[|history| - 1]])
  }

  lemma IgnoredIsNotRead(h: Hypothesis, s: Signal, ignored: seq<Signal>)
    requires Accepted(s)
    ensures ApplySignal(h.(ignored := ignored), s) == ApplySignal(h, s).(ignored := ignored)
  {
    hide ThreatProbability, DetectionConfidence, Ceiling, BaseState, Process;
  }

  lemma RunStep(h: Hypothesis, history: seq<Signal>, s: Signal)
    ensures Run(h, history + [s]) == ApplySignal(Run(h, history), s)
  {
    hide ApplySignal;
    assert (history + [s])[..|history|] == history;
  }

  /** Erasing the quarantined signals from a history changes the record of ignored signals and nothing else. */
  lemma {:induction false} QuarantineOnlyRecords(h: Hypothesis, history: seq<Signal>)
    ensures Run(h, history) == Run(h, AcceptedOf(history)).(ignored := h.ignored + QuarantinedOf(history))
    ensures Run(h, AcceptedOf(history)).ignored == h.ignored
  {
    hide ApplySignal;
    if history == [] {
      assert h.ignored + [] == h.ignored;
    } else {
      var front := history[..|history| - 1];
      var last := history[|history| - 1];
      QuarantineOnlyRecords(h, front);
      if Accepted(last) {
        RunStep(h, AcceptedOf(front), last);
        IgnoredIsNotRead(Run(h, AcceptedOf(front)), last, h.ignored + QuarantinedOf(front));
        IgnoredIsNotRead(Run(h, AcceptedOf(front)), last, h.ignored);
        assert QuarantinedOf(history) == QuarantinedOf(front) + [];
        assert QuarantinedOf(front) + [] == QuarantinedOf(front);
      } else {
        QuarantinedIsRecorded(Run(h, front), last);
        assert AcceptedOf(history) == AcceptedOf(front) + [];
        assert AcceptedOf(front) + [] == AcceptedOf(front);
        assert (h.ignored + QuarantinedOf(front)) + [last] == h.ignored + (QuarantinedOf(front) + [last]);
      }
    }
  }

  lemma QuarantinedIsRecorded(h: Hypothesis, s: Signal)
    requires !Accepted(s)
    ensures ApplySignal(h, s) == h.(ignored := h.ignored + [s])
  {
  }

  /** The top state holds exactly when the last accepted signal passed the life-safety gate. */
  lemma TopStateIsTheGate(impact: Impact, history: seq<Signal>)
    ensures var accepted := AcceptedOf(history);
            var h := CreateHypothesis(impact);
            Run(h, history).state == 5 <==>
            && accepted != []
            && LiftsToTop(Run(h, accepted[..|accepted| - 1]), accepted[|accepted| - 1], Run(h, history))
  {
    hide ThreatProbability, DetectionConfidence, Ceiling, BaseState, Run, ApplySignal, Vouched, VouchedAtAll, DiverseSources, Round, Process;
    var h := CreateHypothesis(impact);
    var accepted := AcceptedOf(history);
    QuarantineOnlyRecords(h, history);
    if accepted == [] {
      NoHistory(h);
    } else {
      assert accepted == accepted[..|accepted| - 1] + [accepted[|accepted| - 1]];
      RunStep(h, accepted[..|accepted| - 1], accepted[|accepted| - 1]);
      AllAccepted(history);
      StateIsReadOffTheRecord(Run(h, accepted[..|accepted| - 1]), accepted[|accepted| - 1], 1);
    }
  }

  lemma NoHistory(h: Hypothesis)
    ensures Run(h, []) == h
  {
  }

  lemma {:induction false} AllAccepted(history: seq<Signal>)
    ensures forall i :: 0 <= i < |AcceptedOf(history)| ==> Accepted(AcceptedOf(history)[i])
  {
    if history != [] {
      AllAccepted(history[..|history| - 1]);
    }
  }

  lemma PreGateBelowTop(h: Hypothesis, s: Signal)
    ensures PreGateState(h, s) <= 4
  {
    hide ThreatProbability;
  }

  /** The signals recorded are the accepted ones, processed, in order. */
  lemma {:induction false} RecordedAreAccepted(h: Hypothesis, history: seq<Signal>)
    requires h.signals == []
    ensures Run(h, history).signals == Mapped(Process, AcceptedOf(history))
  {
    hide ThreatProbability, DetectionConfidence, Ceiling, BaseState, Process;
    if history != [] {
      RecordedAreAccepted(h, history[..|history| - 1]);
    }
  }

  /** The accepted supporting signals come from one source, and none is an authorised report from the field. */
  ghost predicate OneSource(signals: seq<Signal>, sourceId: Text) {
    forall s :: s in signals && Accepted(s) && s.kind.Supporting? ==>
      s.sourceId == sourceId && !(s.humanAuthorised && s.sourceType.Field?)
  }

  /** A supporting report by a trusted source at half confidence or more, or by a degraded one in full certainty. */
  predicate CountsAsSource(s: Signal) {
    s.kind.Supporting? && ((s.sourceTrust.Trusted? && s.confidence >= 0.5) || (s.sourceTrust.Degraded? && s.confidence >= 1.0))
  }

  /**
   Which sources stand behind a hypothesis: exactly those of a report that
   counts. Suspicious and quarantined sources never do.
   */
  lemma SourcesThatCount(impact: Impact, history: seq<Signal>, id: Text)
    ensures id in DiverseSources(Run(CreateHypothesis(impact), history).signals) <==>
            exists s :: s in history && CountsAsSource(s) && s.sourceId == id
  {
    hide Run, ApplySignal, Process, AcceptedOf, DeriveSeverity, Forces, Accepted, CountsAsSource;
    var h := CreateHypothesis(impact);
    RecordedAreAccepted(h, history);
    AcceptedAreFromHistory(history);
    var signals, accepted := Run(h, history).signals, AcceptedOf(history);
    if id in DiverseSources(signals) {
      var p :| p in signals && p.signal.kind.Supporting? && p.weightedConfidence >= 0.5 && p.signal.sourceId == id;
      var i :| 0 <= i < |signals| && signals[i] == p;
      WhenItCounts(accepted[i]);
    }
    if exists s :: s in history && CountsAsSource(s) && s.sourceId == id {
      var s :| s in history && CountsAsSource(s) && s.sourceId == id;
      WhenItCounts(s);
      AcceptedIsKept(history, s);
      var i :| 0 <= i < |accepted| && accepted[i] == s;
      assert signals[i] == Process(s);
    }
  }

  lemma WhenItCounts(s: Signal)
    ensures Process(s).signal == s && (CountsAsSource(s) ==> Accepted(s))
    ensures Accepted(s) ==> (CountsAsSource(s) <==> s.kind.Supporting? && Process(s).weightedConfidence >= 0.5)
  {
    hide Process, Forces;
    ProcessKeepsSignal(s);
    if Accepted(s) {
      WhoCanWeighIn(s);
    }
  }

  lemma {:induction false} AcceptedIsKept(history: seq<Signal>, s: Signal)
    requires s in history && Accepted(s)
    ensures s in AcceptedOf(history)
  {
    var front := history[..|history| - 1];
    assert history == front + [history[|history| - 1]];
    if s in front {
      AcceptedIsKept(front, s);
    }
  }

  /**
   However many signals one source sends, without a second supporting source and
   without an authorised report from the field the state never exceeds SUSPICIOUS.
   */
  lemma OneSourceStaysBelow(impact: Impact, history: seq<Signal>, sourceId: Text)
    requires OneSource(history, sourceId)
    ensures Run(CreateHypothesis(impact), history).state <= 2
  {
    hide ApplySignal, Run, ThreatProbability, DetectionConfidence, BaseState, Ceiling, AcceptedOf, LiftsToTop, Chained, OneSource, Process,
         DeriveSeverity, Accepted;
    var h := CreateHypothesis(impact);
    var accepted := AcceptedOf(history);
    RunKeeps(impact, history);
    RecordedAreAccepted(h, history);
    AcceptedFromOneSource(history, sourceId);
    CeilingOfOneSource(accepted, sourceId);
    TopStateIsTheGate(impact, history);
    if Run(h, history).state == 5 {
      TopNeedsCeiling(Run(h, accepted[..|accepted| - 1]), accepted[|accepted| - 1], Run(h, history));
    }
  }

  lemma AcceptedFromOneSource(history: seq<Signal>, sourceId: Text)
    requires OneSource(history, sourceId)
    ensures OneSource(AcceptedOf(history), sourceId)
    ensures forall s :: s in AcceptedOf(history) ==> Accepted(s)
  {
    hide AcceptedOf;
    AcceptedAreFromHistory(history);
  }

  lemma TopNeedsCeiling(before: Hypothesis, s: Signal, after: Hypothesis)
    requires LiftsToTop(before, s, after)
    ensures Ceiling(after.signals) >= 3
  {
    hide Ceiling, Vouched, VouchedAtAll, DiverseSources, Round, Process;
    CeilingCarries(after.signals);
  }

  lemma {:induction false} AcceptedAreFromHistory(history: seq<Signal>)
    ensures forall s :: s in AcceptedOf(history) ==> s in history && Accepted(s)
  {
    if history != [] {
      AcceptedAreFromHistory(history[..|history| - 1]);
    }
  }

  lemma {:induction false} AcceptedOfAccepted(signals: seq<Signal>)
    requires forall s :: s in signals ==> Accepted(s)
    ensures AcceptedOf(signals) == signals
  {
    hide Accepted;
    if signals != [] {
      var front := signals[..|signals| - 1];
      assert signals == front + [signals[|signals| - 1]];
      assert forall s :: s in front ==> s in signals;
      AcceptedOfAccepted(front);
    }
  }
  lemma CeilingOfOneSource(signals: seq<Signal>, sourceId: Text)
    requires OneSource(signals, sourceId) && forall s :: s in signals ==> Accepted(s)
    ensures Ceiling(Mapped(Process, signals)) == 2
  {
    hide Process;
    var recorded := Mapped(Process, signals);
    forall p | p in recorded && p.signal.kind.Supporting?
      ensures p.signal.sourceId == sourceId && !QualifyingHuman(p)
    {
      var i :| 0 <= i < |recorded| && recorded[i] == p;
      ProcessKeepsSignal(signals[i]);
      assert signals[i] in signals;
    }
    assert DiverseSources(recorded) <= {sourceId};
    SubsetIsNoLarger(DiverseSources(recorded), {sourceId});
  }

  lemma ProcessKeepsSignal(s: Signal)
    ensures Process(s).signal == s
  {
  }

  /** More support never makes a hypothesis less probable, nor less grave unless it stood at the top by the gate. */
  lemma SupportNeverLowers(impact: Impact, history: seq<Signal>, s: Signal)
    requires Accepted(s) && s.kind.Supporting?
    ensures var h := Run(CreateHypothesis(impact), history);
            && ApplySignal(h, s).threatProbability >= h.threatProbability
            && (h.state != 5 ==> ApplySignal(h, s).state >= h.state)
  {
    hide Run, ThreatProbability, DetectionConfidence, Ceiling, BaseState;
    RunKeeps(impact, history);
    var h := Run(CreateHypothesis(impact), history);
    SupportGrows(h.signals, Process(s));
    CeilingGrows(h.signals, Process(s));
    BaseStateMonotone(ThreatProbability(h.signals), ThreatProbability(h.signals + [Process(s)]));
  }

  /**
   Two histories that accept the same signals the same number of times reach the
   same figures up to rounding, and the same supported state unless a threshold is
   within that error.
   */
  lemma FiguresIgnoreOrder(impact: Impact, a: seq<Signal>, b: seq<Signal>)
    requires multiset(AcceptedOf(a)) == multiset(AcceptedOf(b))
    ensures var h, g := Run(CreateHypothesis(impact), a), Run(CreateHypothesis(impact), b);
            && |h.signals| == |g.signals| && Ceiling(h.signals) == Ceiling(g.signals)
            && Within(h.threatProbability, g.threatProbability, HalfUlps(4 * |h.signals| + 6))
            && Within(h.detectionConfidence, g.detectionConfidence, HalfUlps(4 * |h.signals| + 2))
            && (ClearOfThresholds(h.threatProbability, HalfUlps(4 * |h.signals| + 6)) ==>
                BaseState(h.threatProbability) == BaseState(g.threatProbability))
  {
    hide Run, Chained, AcceptedOf, ThreatProbability, DetectionConfidence, Ceiling, Round;
    RunKeeps(impact, a);
    RunKeeps(impact, b);
    RecordedAreAccepted(CreateHypothesis(impact), a);
    RecordedAreAccepted(CreateHypothesis(impact), b);
    MappedMultiset(Process, AcceptedOf(a), AcceptedOf(b));
    AggregatesIgnoreOrder(Run(CreateHypothesis(impact), a).signals, Run(CreateHypothesis(impact), b).signals);
  }

  // ----- the error is real: an order that moves the state -----

  /** A report of one trusted camera. */
  function CameraReport(confidence: Number, kind: Kind): Signal {
    Signal([], [], Camera, Trusted, kind, confidence, false, false)
  }

  function FourReports(first: Unit, second: Unit, third: Unit): (history: seq<Signal>)
    ensures |history| == 4
  {
    [ CameraReport(Written(first), Supporting), CameraReport(Written(second), Supporting),
      CameraReport(Written(third), Supporting), CameraReport(Written(0.15), Contradicting) ]
  }

  lemma ReportWeight(confidence: Number, kind: Kind)
    requires 0.0 <= confidence <= 1.0 && IsDouble(confidence)
    ensures Process(CameraReport(confidence, kind)) == Processed(CameraReport(confidence, kind), confidence)
  {
    hide Times, IsDouble;
    TimesOne(confidence);
  }

  lemma KindsOfFour(a: Processed, b: Processed, c: Processed, d: Processed, kind: Kind)
    requires a.signal.kind.Supporting? && b.signal.kind.Supporting? && c.signal.kind.Supporting? && d.signal.kind.Contradicting?
    ensures OfKind([a, b, c, d], kind) == if kind.Supporting? then [a, b, c] else [d]
  {
    hide OfKind;
    assert [a, b, c, d] == [a, b, c] + [d] && [a, b, c] == [a, b] + [c] && [a, b] == [a] + [b] && [a] == [] + [a] && [d] == [] + [d];
    NoneOfKind(kind);
    OfKindAppend([a, b, c], d, kind);
    OfKindAppend([a, b], c, kind);
    OfKindAppend([a], b, kind);
    OfKindAppend([], a, kind);
  }

  lemma FourStrengths(a: Processed, b: Processed, c: Processed, d: Processed)
    requires a.signal.kind.Supporting? && b.signal.kind.Supporting? && c.signal.kind.Supporting? && d.signal.kind.Contradicting?
    ensures ThreatProbability([a, b, c, d]) ==
            MinusOrZero(CombineNoisyOr([a.weightedConfidence, b.weightedConfidence, c.weightedConfidence]),
                        CombineNoisyOr([d.weightedConfidence]))
  {
    hide CombineNoisyOr, MinusOrZero, OfKind;
    KindsOfFour(a, b, c, d, Supporting);
    KindsOfFour(a, b, c, d, Contradicting);
    assert Weights([a, b, c]) == [a.weightedConfidence, b.weightedConfidence, c.weightedConfidence];
    assert Weights([d]) == [d.weightedConfidence];
  }

  lemma NoneOfKind(kind: Kind)
    ensures OfKind([], kind) == []
  {
  }

  /** After four reports of one camera the state is what the probability supports, up to SUSPICIOUS. */
  lemma FourReportsState(impact: Impact, first: Unit, second: Unit, third: Unit)
    ensures var h := Run(CreateHypothesis(impact), FourReports(first, second, third));
            && h.threatProbability == MinusOrZero(CombineNoisyOr([Round(first), Round(second), Round(third)]), CombineNoisyOr([Round(0.15)]))
            && h.state == Min(BaseState(h.threatProbability), 2)
  {
    hide Run, ThreatProbability, DetectionConfidence, CombineNoisyOr, MinusOrZero, BaseState, Ceiling, Chained, Round, IsDouble, AcceptedOf;
    var history := FourReports(first, second, third);
    RunKeeps(impact, history);
    AcceptedOfAccepted(history);
    RecordedAreAccepted(CreateHypothesis(impact), history);
    WrittenIsDouble(first);
    WrittenIsDouble(second);
    WrittenIsDouble(third);
    WrittenIsDouble(0.15);
    ReportWeight(Written(first), Supporting);
    ReportWeight(Written(second), Supporting);
    ReportWeight(Written(third), Supporting);
    ReportWeight(Written(0.15), Contradicting);
    var recorded := Run(CreateHypothesis(impact), history).signals;
    assert recorded == [recorded[0], recorded[1], recorded[2], recorded[3]];
    FourStrengths(recorded[0], recorded[1], recorded[2], recorded[3]);
    CeilingOfOneSource(history, []);
    var front := history[..3];
    assert history == front + [history[3]];
    RunStep(CreateHypothesis(impact), front, history[3]);
    RecordedAreAccepted(CreateHypothesis(impact), front);
    AcceptedOfAccepted(front);
    WeakContradiction(Run(CreateHypothesis(impact), front), history[3]);
  }

  lemma WrittenIsDouble(x: Unit)
    ensures 0.0 <= Written(x) <= 1.0 && IsDouble(Written(x))
  {
    RoundIsDouble(x);
  }

  /** A report that neither forces nor passes the gate leaves the state the evidence supports. */
  lemma WeakContradiction(h: Hypothesis, s: Signal)
    requires s == CameraReport(Written(0.15), Contradicting)
    ensures ApplySignal(h, s).state ==
            Min(BaseState(ThreatProbability(ApplySignal(h, s).signals)), Ceiling(ApplySignal(h, s).signals))
  {
    hide ThreatProbability, DetectionConfidence, BaseState, Ceiling, Times, IsDouble, Round;
    WrittenIsDouble(0.15);
    ReportWeight(Written(0.15), Contradicting);
    SixTenths();
    RoundMonotone(0.15, 0.5);
    ZeroAndOne();
  }

  /**
   Three supporting reports of 0.25, 0.25 and 0.2 against one contradiction of 0.15:
   with the weakest support last the state is SUSPICIOUS, with it first OBSERVE.
   */
  lemma OrderMovesTheState(impact: Impact)
    ensures var last, first := FourReports(0.25, 0.25, 0.2), FourReports(0.2, 0.25, 0.25);
            && multiset(last) == multiset(first)
            && Run(CreateHypothesis(impact), last).state == 2
            && Run(CreateHypothesis(impact), first).state == 1
  {
    hide Run, Round, CombineNoisyOr, MinusOrZero, FourReports;
    SameReports();
    FourReportsState(impact, 0.25, 0.25, 0.2);
    FourReportsState(impact, 0.2, 0.25, 0.25);
    WrittenValues();
    QuarterIsWritten();
    OrderMatters();
    ThresholdsApart();
  }

  lemma SameReports()
    ensures multiset(FourReports(0.25, 0.25, 0.2)) == multiset(FourReports(0.2, 0.25, 0.25))
  {
    hide Round, CameraReport;
    var x, y, z := CameraReport(Written(0.25), Supporting), CameraReport(Written(0.2), Supporting), CameraReport(Written(0.15), Contradicting);
    assert multiset(FourReports(0.25, 0.25, 0.2)) == multiset{x, x, y, z};
    assert multiset(FourReports(0.2, 0.25, 0.25)) == multiset{y, x, x, z};
  }

  lemma QuarterIsWritten()
    ensures Round(0.25) == QUARTER
  {
    hide Round;
    RoundSecond(0.25, 4503599627370496);
  }

  lemma ThresholdsApart()
    ensures Round(0.4) < 0.5 < Round(0.65) < Round(0.85)
  {
    hide Round;
    RoundError(0.4);
    RoundError(0.65);
    RoundError(0.85);
  }
}
