/** The three-tree ensemble over a flow's features, and what it can and cannot flag. */
module Classifier {
  import opened Words
  import opened FlowStatistics
  import opened Aggregation
  import P = Ports

  const MALWARE_THRESHOLD: real := 0.85
  const SINGLE_DIRECTION_FLOOR: nat := 5

  datatype FeatureVector = FeatureVector(
    packetCount: real, forwardCount: real, reverseCount: real,
    iatStdDevNs: real, ratioFlow: real, portEntropyBits: real)

  datatype AttackType = Benign | SynFlood | PortScan | VolumetricAnomaly

  datatype Verdict = Verdict(probability: real, attack: AttackType, malicious: bool)

  /** What is assumed of the floating-point functions, as parameters. */
  ghost predicate Lawful(maths: Maths) {
    && P.Increasing(maths.log2)
    && (forall x: real :: maths.exp2(x) > 0.0)
    && (forall x: real, y: real :: x <= y ==> maths.exp2(x) <= maths.exp2(y))
    && (forall x: real, y: real :: x <= y ==> maths.sigmoid(x) <= maths.sigmoid(y))
    && maths.sigmoid(0.0) == 0.5
  }

  function MinReal(a: real, b: real): real {
    if a < b then a else b
  }

  /** The share of connection attempts in one-sided TCP traffic, where the raw ratio only
      repeats the packet count. */
  function FlagRatio(f: FlowFeatures): real {
    f.synCount as real / Max(f.ackPshCount, 1) as real
  }

  function ToFeatureVector(f: FlowFeatures): FeatureVector {
    var fallback := f.reverseCount == 0 && f.protocol == 6 && f.synCount + f.ackPshCount >= SINGLE_DIRECTION_FLOOR;
    FeatureVector(f.packetCount as real, f.forwardCount as real, f.reverseCount as real, f.iatStdDevNs,
                  if fallback then FlagRatio(f) else f.ratioFlow, f.portEntropyBits)
  }

  function SynFloodScore(f: FeatureVector): real {
    if f.packetCount < 20.0 then -4.0
    else if f.iatStdDevNs >= 2_000_000.0 then -3.0
    else if f.ratioFlow < 8.0 then -2.0
    else
      var jitter := MinReal(f.iatStdDevNs, 20_000_000.0);
      2.0 + MinReal(f.ratioFlow / 50.0, 3.0)
      + MinReal((20_000_000 - Truncated(jitter)) as real / 10_000_000.0, 2.0)
  }

  /** Conversion to an integer, toward zero. */
  function Truncated(x: real): int {
    if x >= 0.0 then x.Floor else -(-x).Floor
  }

  function PortScanScore(f: FeatureVector, exp2: real -> real): real
    requires forall x: real :: exp2(x) > 0.0
  {
    if f.portEntropyBits < 3.0 then -4.0
    else
      var perPort := if f.portEntropyBits > 0.0 then f.packetCount / exp2(f.portEntropyBits) else f.packetCount;
      if perPort > 10.0 then -2.0 else 1.5 + MinReal(f.portEntropyBits / 2.0, 3.0)
  }

  function VolumetricScore(f: FeatureVector): real {
    if f.packetCount < 200.0 then -3.0
    else -1.0 + MinReal(f.packetCount / 500.0, 4.0) + if f.iatStdDevNs < 500_000.0 then 1.0 else 0.0
  }

  const ENSEMBLE: seq<AttackType> := [SynFlood, PortScan, VolumetricAnomaly]

  function Score(t: AttackType, f: FeatureVector, maths: Maths): real
    requires t != Benign && forall x: real :: maths.exp2(x) > 0.0
  {
    match t
    case SynFlood => SynFloodScore(f)
    case PortScan => PortScanScore(f, maths.exp2)
    case VolumetricAnomaly => VolumetricScore(f)
  }

  function Total(f: FeatureVector, maths: Maths): real
    requires forall x: real :: maths.exp2(x) > 0.0
  {
    SynFloodScore(f) + PortScanScore(f, maths.exp2) + VolumetricScore(f)
  }

  predicate Flags(f: FeatureVector, maths: Maths)
    requires forall x: real :: maths.exp2(x) > 0.0
  {
    maths.sigmoid(Total(f, maths)) > MALWARE_THRESHOLD
  }

  predicate IsMalicious(f: FlowFeatures, maths: Maths)
    requires forall x: real :: maths.exp2(x) > 0.0
  {
    Flags(ToFeatureVector(f), maths)
  }

  /** The first tree whose score no tree exceeds. */
  predicate IsWinner(t: AttackType, f: FeatureVector, maths: Maths)
    requires forall x: real :: maths.exp2(x) > 0.0
  {
    exists i | 0 <= i < |ENSEMBLE| ::
      && t == ENSEMBLE[i]
      && (forall j | 0 <= j < |ENSEMBLE| :: Score(ENSEMBLE[j], f, maths) <= Score(t, f, maths))
      && (forall j | 0 <= j < i :: Score(ENSEMBLE[j], f, maths) < Score(t, f, maths))
  }

  method Classify(f: FlowFeatures, maths: Maths) returns (r: Verdict)
    requires forall x: real :: maths.exp2(x) > 0.0
    ensures r.malicious == IsMalicious(f, maths)
    ensures r.probability == maths.sigmoid(Total(ToFeatureVector(f), maths))
    ensures if r.malicious then IsWinner(r.attack, ToFeatureVector(f), maths) else r.attack == Benign
  {
    var fv := ToFeatureVector(f);
    var total := 0.0;
    var bestScore: Option<real> := None;   // none yet: minus infinity
    var bestAttack := Benign;
    ghost var best := 0;
    var i := 0;
    while i < |ENSEMBLE|
      invariant 0 <= i <= |ENSEMBLE|
      invariant total == Partial(fv, maths, i)
      invariant bestScore.None? <==> i == 0
      invariant i > 0 ==>
                  && 0 <= best < i && bestAttack == ENSEMBLE[best] && bestScore.value == Score(bestAttack, fv, maths)
                  && (forall j | 0 <= j < i :: Score(ENSEMBLE[j], fv, maths) <= bestScore.value)
                  && (forall j | 0 <= j < best :: Score(ENSEMBLE[j], fv, maths) < bestScore.value)
    {
      hide SynFloodScore, PortScanScore, VolumetricScore;
      var score := Score(ENSEMBLE[i], fv, maths);
      total := total + score;
      if bestScore.None? || score > bestScore.value {
        bestScore := Some(score);
        bestAttack := ENSEMBLE[i];
        best := i;
      }
      i := i + 1;
    }
    assert total == Total(fv, maths) by { PartialIsTotal(fv, maths); }
    var prob := maths.sigmoid(total);
    var attack := Benign;
    if prob > MALWARE_THRESHOLD {
      attack := bestAttack;
    }
    r := Verdict(prob, attack, prob > MALWARE_THRESHOLD);
  }

  function Partial(f: FeatureVector, maths: Maths, n: nat): real
    requires n <= |ENSEMBLE| && forall x: real :: maths.exp2(x) > 0.0
  {
    if n == 0 then 0.0 else Partial(f, maths, n - 1) + Score(ENSEMBLE[n - 1], f, maths)
  }

  lemma PartialIsTotal(f: FeatureVector, maths: Maths)
    requires forall x: real :: maths.exp2(x) > 0.0
    ensures Partial(f, maths, |ENSEMBLE|) == Total(f, maths)
  {
    hide SynFloodScore, PortScanScore, VolumetricScore;
    assert Partial(f, maths, 3) == Partial(f, maths, 2) + Score(ENSEMBLE[2], f, maths);
    assert Partial(f, maths, 2) == Partial(f, maths, 1) + Score(ENSEMBLE[1], f, maths);
    assert Partial(f, maths, 1) == Partial(f, maths, 0) + Score(ENSEMBLE[0], f, maths);
  }

  // ---- Monotonicity ----

  lemma PerPortFalls(packets: real, e: real, e': real, exp2: real -> real)
    requires packets >= 0.0 && (forall x: real :: exp2(x) > 0.0) && exp2(e) <= exp2(e')
    ensures packets / exp2(e') <= packets / exp2(e)
  {
  }

  lemma QuotientFalls(a: real, b: real, c: real)
    requires a >= 0.0 && 0.0 < b <= c
    ensures a / c <= a / b
  {
  }

  /** More ports cannot lower the total score. */
  lemma TotalRisesWithEntropy(f: FeatureVector, entropy: real, maths: Maths)
    requires Lawful(maths) && f.packetCount >= 0.0 && f.portEntropyBits <= entropy
    ensures Total(f, maths) <= Total(f.(portEntropyBits := entropy), maths)
  {
    PerPortFalls(f.packetCount, f.portEntropyBits, entropy, maths.exp2);
    var g := f.(portEntropyBits := entropy);
    assert SynFloodScore(f) == SynFloodScore(g) && VolumetricScore(f) == VolumetricScore(g);
    hide SynFloodScore, VolumetricScore;
    assert PortScanScore(f, maths.exp2) <= PortScanScore(g, maths.exp2);
  }

  /** A more lopsided flow cannot have a lower total score. */
  lemma TotalRisesWithRatio(f: FeatureVector, ratio: real, maths: Maths)
    requires Lawful(maths) && f.ratioFlow <= ratio
    ensures Total(f, maths) <= Total(f.(ratioFlow := ratio), maths)
  {
  }

  /** Capping the ports never turns a benign flow malicious: what is flagged with the
      capped tracker of a source is also flagged with its exact histogram. */
  lemma {:induction false} CappingNeverFlags(f: FlowFeatures, ports: seq<u16>, maths: Maths)
    requires Lawful(maths) && |ports| < 0x1_0000_0000
    requires IsMalicious(f.(portEntropyBits := P.EntropyOf(P.PortsOf(ports), maths.log2)), maths)
    ensures IsMalicious(f.(portEntropyBits := P.ExactEntropy(ports, maths.log2, P.ALL_PORTS)), maths)
  {
    var capped, exact := P.EntropyOf(P.PortsOf(ports), maths.log2), P.ExactEntropy(ports, maths.log2, P.ALL_PORTS);
    P.CappedEntropyIsAtMostExact(ports, maths.log2);
    var v := ToFeatureVector(f.(portEntropyBits := capped));
    TotalRisesWithEntropy(v, exact, maths);
  }

  /** A flow as the aggregator reports it, whatever the port snapshot held. */
  predicate IsReported(f: FlowFeatures, s: FlowStats, snapshot: PortShard, maths: Maths) {
    Plausible(s) && f == FeaturesOf(s, snapshot, maths)
  }

  /** The one-direction fallback never turns a benign flow malicious: what it leads to
      flag, the raw packet ratio flags too. */
  lemma {:induction false} FallbackNeverFlags(f: FlowFeatures, s: FlowStats, snapshot: PortShard, maths: Maths)
    requires Lawful(maths) && IsReported(f, s, snapshot, maths) && IsMalicious(f, maths)
    ensures Flags(ToFeatureVector(f).(ratioFlow := f.ratioFlow), maths)
  {
    var v := ToFeatureVector(f);
    if v.ratioFlow != f.ratioFlow {
      QuotientFalls(s.synCount as real, 1.0, Max(s.ackPshCount, 1) as real);
      assert f.ratioFlow == s.forwardCount as real;
      assert v.ratioFlow <= s.synCount as real;
    }
    TotalRisesWithRatio(v, f.ratioFlow, maths);
  }

  /** Below 31 packets no reported flow is malicious: too few gaps for a jitter estimate
      leave the flood tree at -3 or less, and the other trees cannot make up for it. */
  lemma SmallFlowsAreBenign(f: FlowFeatures, s: FlowStats, snapshot: PortShard, maths: Maths)
    requires Lawful(maths) && IsReported(f, s, snapshot, maths) && f.packetCount <= 30
    ensures Total(ToFeatureVector(f), maths) <= -1.5 && !IsMalicious(f, maths)
  {
  }
}
