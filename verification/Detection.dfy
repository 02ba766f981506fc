/** What the ensemble flags: bounds that say which flows are reported as attacks, under
    which label, and which can never be. */
module Detection {
  import opened Words
  import opened Telemetry
  import opened Flows
  import opened FlowStatistics
  import opened Aggregation
  import opened Histories
  import opened Classifier
  import P = Ports

  /** The ratio the flood tree sees, when TCP flags stand in for the missing direction. */
  predicate SeesFlags(f: FlowFeatures) {
    f.reverseCount == 0 && f.protocol == 6 && f.synCount + f.ackPshCount >= 5
  }

  lemma RatioSeen(f: FlowFeatures)
    ensures var r := ToFeatureVector(f).ratioFlow;
            && (!SeesFlags(f) ==> r == f.ratioFlow)
            && (SeesFlags(f) && f.ackPshCount == 0 ==> r == f.synCount as real)
            && (SeesFlags(f) && f.ackPshCount > 0 ==> r * f.ackPshCount as real == f.synCount as real)
  {
  }

  // ---- The three trees ----

  predicate FloodFires(v: FeatureVector) {
    v.packetCount >= 20.0 && v.iatStdDevNs < 2_000_000.0 && v.ratioFlow >= 8.0
  }

  predicate ScanFires(v: FeatureVector, maths: Maths) {
    v.portEntropyBits >= 3.0 && v.packetCount <= 10.0 * maths.exp2(v.portEntropyBits)
  }

  lemma PerPort(n: real, e: real)
    requires e > 0.0
    ensures n / e > 10.0 <==> n > 10.0 * e
  {
  }

  /** The flood tree scores 3.96 to 7 when it fires, more for a ratio of 150 and a
      deviation below 500 us, and -4 to -2 when it does not. */
  lemma FloodScores(v: FeatureVector)
    ensures var s := SynFloodScore(v);
            && (FloodFires(v) ==> 3.96 <= s <= 7.0)
            && (FloodFires(v) && v.iatStdDevNs <= 500_000.0 ==> s >= 4.11)
            && (FloodFires(v) && v.iatStdDevNs <= 500_000.0 && v.ratioFlow >= 150.0 ==> s >= 6.95)
            && (!FloodFires(v) ==> -4.0 <= s <= -2.0)
            && (v.packetCount >= 20.0 ==> s >= -3.0)
            && (v.packetCount >= 20.0 && v.iatStdDevNs >= 2_000_000.0 ==> s == -3.0)
  {
  }

  /** The scan tree scores 3 to 4.5 when it fires, 4.5 from six bits on, and -4 to -2 when
      it does not. */
  lemma ScanScores(v: FeatureVector, maths: Maths)
    requires forall x: real :: maths.exp2(x) > 0.0
    ensures var s := PortScanScore(v, maths.exp2);
            && (ScanFires(v, maths) ==> 3.0 <= s <= 4.5)
            && (ScanFires(v, maths) && v.portEntropyBits >= 6.0 ==> s == 4.5)
            && (!ScanFires(v, maths) ==> -4.0 <= s <= -2.0)
            && (v.portEntropyBits < 3.0 ==> s == -4.0)
  {
    PerPort(v.packetCount, maths.exp2(v.portEntropyBits));
  }

  /** The volumetric tree scores -3 below 200 packets, and -0.6 to 4 above, a point of it
      for a deviation below 500 us. */
  lemma VolumeScores(v: FeatureVector)
    ensures var s := VolumetricScore(v);
            && (v.packetCount < 200.0 ==> s == -3.0)
            && (v.packetCount >= 200.0 ==> -0.6 <= s <= 4.0)
            && (v.packetCount >= 200.0 && v.iatStdDevNs < 500_000.0 ==> s >= 0.4)
            && (v.iatStdDevNs >= 500_000.0 ==> s <= 3.0)
            && (v.packetCount <= 640.0 ==> s <= 1.28)
            && (v.packetCount >= 700.0 ==> s >= 0.4)
            && (v.packetCount >= 1500.0 ==> s >= 2.0)
  {
  }

  /** What moves the flood tree: from five points at a ratio of 50 and no deviation, a
      point for each further 50, up to 150, and a tenth less for each millisecond. */
  lemma FloodSlopes(v: FeatureVector, ms: int)
    requires FloodFires(v) && v.iatStdDevNs == 0.0 && 0 <= ms < 2
    ensures v.ratioFlow == 50.0 ==> SynFloodScore(v) == 5.0
    ensures v.ratioFlow <= 100.0 ==> SynFloodScore(v.(ratioFlow := v.ratioFlow + 50.0)) == SynFloodScore(v) + 1.0
    ensures v.ratioFlow >= 150.0 ==> SynFloodScore(v) == 7.0
    ensures SynFloodScore(v.(iatStdDevNs := 1_000_000.0 * ms as real)) == SynFloodScore(v) - ms as real / 10.0
  {
    assert Truncated(1_000_000.0 * ms as real) == 1_000_000 * ms;
  }

  /** What moves the others: half a point for each bit of entropy up to six, a point for each
      500 packets up to 2000, and a point for a deviation below half a millisecond. */
  lemma OtherSlopes(v: FeatureVector, maths: Maths)
    requires forall x: real :: maths.exp2(x) > 0.0
    ensures ScanFires(v, maths) ==> 2.0 * PortScanScore(v, maths.exp2) == 3.0 + MinReal(v.portEntropyBits, 6.0)
    ensures v.packetCount >= 200.0 && v.iatStdDevNs >= 500_000.0 ==>
              500.0 * (VolumetricScore(v) + 1.0) == MinReal(v.packetCount, 2000.0)
    ensures v.packetCount >= 200.0 && v.iatStdDevNs < 500_000.0 ==>
              VolumetricScore(v) == VolumetricScore(v.(iatStdDevNs := 500_000.0)) + 1.0
  {
    PerPort(v.packetCount, maths.exp2(v.portEntropyBits));
  }

  /** The one label a verdict on these features can carry. */
  ghost predicate OnlyWinner(t: AttackType, v: FeatureVector, maths: Maths)
    requires forall x: real :: maths.exp2(x) > 0.0
  {
    IsWinner(t, v, maths) && forall u :: IsWinner(u, v, maths) ==> u == t
  }

  lemma FloodWins(v: FeatureVector, maths: Maths)
    requires forall x: real :: maths.exp2(x) > 0.0
    requires SynFloodScore(v) >= PortScanScore(v, maths.exp2) && SynFloodScore(v) >= VolumetricScore(v)
    ensures OnlyWinner(SynFlood, v, maths)
  {
    hide SynFloodScore, PortScanScore, VolumetricScore;
    assert ENSEMBLE[0] == SynFlood && Score(ENSEMBLE[0], v, maths) == SynFloodScore(v);
    assert Score(ENSEMBLE[1], v, maths) == PortScanScore(v, maths.exp2);
    assert Score(ENSEMBLE[2], v, maths) == VolumetricScore(v);
  }

  lemma ScanWins(v: FeatureVector, maths: Maths)
    requires forall x: real :: maths.exp2(x) > 0.0
    requires SynFloodScore(v) < PortScanScore(v, maths.exp2) && PortScanScore(v, maths.exp2) >= VolumetricScore(v)
    ensures OnlyWinner(PortScan, v, maths)
  {
    hide SynFloodScore, PortScanScore, VolumetricScore;
    assert ENSEMBLE[1] == PortScan && Score(ENSEMBLE[1], v, maths) == PortScanScore(v, maths.exp2);
    assert Score(ENSEMBLE[0], v, maths) == SynFloodScore(v);
    assert Score(ENSEMBLE[2], v, maths) == VolumetricScore(v);
  }

  /** Flagged whenever the sigmoid is above the threshold at this score already. */
  lemma FlaggedAbove(v: FeatureVector, score: real, maths: Maths)
    requires Lawful(maths) && Total(v, maths) >= score
    ensures maths.sigmoid(score) > 0.85 ==> Flags(v, maths)
  {
  }

  lemma BenignAtZero(v: FeatureVector, maths: Maths)
    requires Lawful(maths) && Total(v, maths) <= 0.0
    ensures !Flags(v, maths)
  {
  }

  // ---- What is flagged ----

  /** A lopsided, mechanical flow of 200 packets is a flood. */
  lemma FloodIsFlagged(f: FlowFeatures, maths: Maths)
    requires Lawful(maths)
    requires f.packetCount >= 200 && f.iatStdDevNs < 500_000.0 && ToFeatureVector(f).ratioFlow >= 150.0
    ensures var v := ToFeatureVector(f);
            && Total(v, maths) >= 3.35 && OnlyWinner(SynFlood, v, maths)
            && (maths.sigmoid(3.35) > 0.85 ==> IsMalicious(f, maths))
  {
    var v := ToFeatureVector(f);
    assert v.packetCount >= 200.0 && v.iatStdDevNs == f.iatStdDevNs;
    FloodScores(v);
    ScanScores(v, maths);
    VolumeScores(v);
    hide SynFloodScore, PortScanScore, VolumetricScore, OnlyWinner, ToFeatureVector;
    FloodWins(v, maths);
    FlaggedAbove(v, 3.35, maths);
  }

  /** Many ports and few packets for each, 700 packets in all, are flagged whatever else
      the flow looks like, and as a scan when its timing is not mechanical. */
  lemma ScanIsFlagged(f: FlowFeatures, maths: Maths)
    requires Lawful(maths) && f.portEntropyBits >= 6.0
    requires 700.0 <= f.packetCount as real <= 10.0 * maths.exp2(f.portEntropyBits)
    ensures var v := ToFeatureVector(f);
            && Total(v, maths) >= 1.9
            && (maths.sigmoid(1.9) > 0.85 ==> IsMalicious(f, maths))
            && (f.iatStdDevNs >= 2_000_000.0 ==> OnlyWinner(PortScan, v, maths))
  {
    var v := ToFeatureVector(f);
    assert v.packetCount == f.packetCount as real && v.iatStdDevNs == f.iatStdDevNs && v.portEntropyBits == f.portEntropyBits;
    FloodScores(v);
    ScanScores(v, maths);
    VolumeScores(v);
    hide SynFloodScore, PortScanScore, VolumetricScore, OnlyWinner, ToFeatureVector;
    FlaggedAbove(v, 1.9, maths);
    if f.iatStdDevNs >= 2_000_000.0 {
      ScanWins(v, maths);
    }
  }

  /** Volume decides for a flow that only just makes the flood tree fire: from 1500 packets
      on it is flagged, below 200 it is not. */
  lemma VolumeDecides(f: FlowFeatures, maths: Maths)
    requires Lawful(maths) && f.portEntropyBits < 3.0
    requires ToFeatureVector(f).ratioFlow >= 8.0 && f.iatStdDevNs < 2_000_000.0
    ensures f.packetCount >= 1500 && maths.sigmoid(1.9) > 0.85 ==> IsMalicious(f, maths)
    ensures f.packetCount < 200 ==> !IsMalicious(f, maths)
  {
    var v := ToFeatureVector(f);
    assert v.packetCount == f.packetCount as real && v.iatStdDevNs == f.iatStdDevNs && v.portEntropyBits == f.portEntropyBits;
    FloodScores(v);
    ScanScores(v, maths);
    VolumeScores(v);
    hide SynFloodScore, PortScanScore, VolumetricScore, ToFeatureVector;
    if f.packetCount >= 1500 {
      FlaggedAbove(v, 1.9, maths);
    } else if f.packetCount < 200 {
      BenignAtZero(v, maths);
    }
  }

  // ---- What is not ----

  /** Volume alone is never enough: unless the flood or the scan tree fires, the flow is
      benign, however many packets it has. */
  lemma VolumeAloneIsBenign(f: FlowFeatures, maths: Maths)
    requires Lawful(maths) && IsMalicious(f, maths)
    ensures FloodFires(ToFeatureVector(f)) || ScanFires(ToFeatureVector(f), maths)
  {
    var v := ToFeatureVector(f);
    FloodScores(v);
    ScanScores(v, maths);
    VolumeScores(v);
    hide SynFloodScore, PortScanScore, VolumetricScore, ToFeatureVector;
    if !FloodFires(v) && !ScanFires(v, maths) {
      BenignAtZero(v, maths);
    }
  }

  /** No verdict ever carries the volumetric label: a tree that fires outscores it. */
  lemma NeverLabelledVolumetric(f: FlowFeatures, maths: Maths)
    requires Lawful(maths) && maths.exp2(6.0) == 64.0 && IsMalicious(f, maths)
    ensures !IsWinner(VolumetricAnomaly, ToFeatureVector(f), maths)
  {
    VolumeAloneIsBenign(f, maths);
    var v := ToFeatureVector(f);
    FloodScores(v);
    ScanScores(v, maths);
    VolumeScores(v);
    hide SynFloodScore, PortScanScore, VolumetricScore, ToFeatureVector, IsMalicious;
    assert Score(ENSEMBLE[0], v, maths) == SynFloodScore(v);
    assert Score(ENSEMBLE[1], v, maths) == PortScanScore(v, maths.exp2);
    if ScanFires(v, maths) && v.portEntropyBits < 6.0 {
      assert maths.exp2(v.portEntropyBits) <= 64.0;
    }
  }

  lemma FloodFalls(v: FeatureVector, deviation: real)
    requires v.iatStdDevNs <= deviation
    ensures SynFloodScore(v.(iatStdDevNs := deviation)) <= SynFloodScore(v)
  {
    var w := v.(iatStdDevNs := deviation);
    FloodScores(v);
    FloodScores(w);
    if FloodFires(w) {
      assert FloodFires(v) && MinReal(v.iatStdDevNs, 20_000_000.0) == v.iatStdDevNs;
      TruncationRises(v.iatStdDevNs, deviation);
    } else if FloodFires(v) {
      hide SynFloodScore;
    }
  }

  lemma TruncationRises(x: real, y: real)
    requires x <= y
    ensures Truncated(x) <= Truncated(y)
  {
  }

  lemma OthersFall(v: FeatureVector, deviation: real, exp2: real -> real)
    requires v.iatStdDevNs <= deviation && forall x: real :: exp2(x) > 0.0
    ensures VolumetricScore(v.(iatStdDevNs := deviation)) <= VolumetricScore(v)
    ensures PortScanScore(v.(iatStdDevNs := deviation), exp2) == PortScanScore(v, exp2)
  {
  }

  /** A more mechanical timing never lowers the score. */
  lemma {:induction false} TotalFallsWithDeviation(v: FeatureVector, deviation: real, maths: Maths)
    requires Lawful(maths) && v.iatStdDevNs <= deviation
    ensures Total(v.(iatStdDevNs := deviation), maths) <= Total(v, maths)
  {
    FloodFalls(v, deviation);
    OthersFall(v, deviation, maths.exp2);
    hide SynFloodScore, PortScanScore, VolumetricScore;
  }

  // ---- Windows of packets ----

  predicate OneWayFromLower(h: seq<FlowPacketMeta>, k: FlowKey) {
    h != [] && forall m <- h :: KeyOf(m) == k && FromLowerEnd(m, k)
  }

  predicate OneWayFromHigher(h: seq<FlowPacketMeta>, k: FlowKey) {
    h != [] && forall m <- h :: KeyOf(m) == k && !FromLowerEnd(m, k)
  }

  lemma {:induction false} CountOfAll(h: seq<FlowPacketMeta>, p: FlowPacketMeta -> bool)
    ensures (forall m <- h :: p(m)) ==> Count(h, p) == |h|
    ensures (forall m <- h :: !p(m)) ==> Count(h, p) == 0
  {
    if h != [] {
      assert Last(h) in h && forall m <- Init(h) :: m in h;
      CountOfAll(Init(h), p);
    }
  }

  lemma WindowOneWay(h: seq<FlowPacketMeta>, k: FlowKey, ports: seq<u16>, maths: Maths)
    requires h != [] && forall m <- h :: KeyOf(m) == k
    ensures var w := WindowFeatures(h, ports, maths);
            && w.packetCount == |h| && w.protocol == h[0].protocol
            && (OneWayFromLower(h, k) ==> w.reverseCount == 0 && w.ratioFlow == |h| as real)
            && (OneWayFromHigher(h, k) ==> w.reverseCount == |h| && w.ratioFlow == 0.0)
            && w.synCount == Count(h, CarriesSyn) && w.ackPshCount == Count(h, CarriesAckOrPsh)
  {
    WindowDirections(h, k, ports, maths);
    CountOfAll(h, m => FromLowerEnd(m, k));
    FlagCountersCountBits(h);
    CountersCount(h);
    WindowFlags(h, ports, maths);
    assert OneWayFromLower(h, k) ==> FromLower(h, k) == |h|;
    assert OneWayFromHigher(h, k) ==> FromLower(h, k) == 0;
    assert |h| > 0;
    hide *;
    OneWayDirections(WindowFeatures(h, ports, maths), FromLower(h, k), |h|);
  }

  lemma OneWayDirections(f: FlowFeatures, forward: nat, all: nat)
    requires HasDirections(f, forward, all) && all > 0
    ensures f.packetCount == all
    ensures forward == all ==> f.reverseCount == 0 && f.ratioFlow == all as real
    ensures forward == 0 ==> f.reverseCount == all && f.ratioFlow == 0.0
  {
    if forward == 0 {
      ZeroFactor(f.ratioFlow, all);
    }
  }

  lemma WindowFlags(h: seq<FlowPacketMeta>, ports: seq<u16>, maths: Maths)
    requires h != []
    ensures var w := WindowFeatures(h, ports, maths);
            w.protocol == h[0].protocol && w.synCount == Count(h, IsSyn) && w.ackPshCount == Count(h, IsAckPsh)
  {
    hide Count, Gaps, Variance, P.EntropyOf, P.PortsOf, Be32Bytes, Max;
  }

  lemma ZeroFactor(r: real, n: nat)
    requires n > 0 && r * n as real == 0.0
    ensures r == 0.0
  {
  }

  /** A one-way barrage of bare SYNs from the lower end is flagged as a SYN flood. */
  lemma {:induction false} SynBarrageIsFlagged(h: seq<FlowPacketMeta>, k: FlowKey, ports: seq<u16>, maths: Maths)
    requires Lawful(maths) && OneWayFromLower(h, k) && |h| >= 200
    requires forall m <- h :: m.protocol == 6 && m.tcpFlags == 0x02
    requires WindowFeatures(h, ports, maths).iatStdDevNs < 500_000.0
    ensures var w := WindowFeatures(h, ports, maths);
            && OnlyWinner(SynFlood, ToFeatureVector(w), maths)
            && (maths.sigmoid(3.35) > 0.85 ==> IsMalicious(w, maths))
  {
    WindowOneWay(h, k, ports, maths);
    CountOfAll(h, CarriesSyn);
    CountOfAll(h, CarriesAckOrPsh);
    var w := WindowFeatures(h, ports, maths);
    assert h[0] in h;
    RatioSeen(w);
    hide WindowFeatures, Count, ToFeatureVector, OnlyWinner, IsMalicious;
    FloodIsFlagged(w, maths);
  }

  /** So is one of any other protocol, where the raw ratio is its packet count. */
  lemma {:induction false} BarrageIsFlagged(h: seq<FlowPacketMeta>, k: FlowKey, ports: seq<u16>, maths: Maths)
    requires Lawful(maths) && OneWayFromLower(h, k) && |h| >= 200 && h[0].protocol != 6
    requires WindowFeatures(h, ports, maths).iatStdDevNs < 500_000.0
    ensures var w := WindowFeatures(h, ports, maths);
            && OnlyWinner(SynFlood, ToFeatureVector(w), maths)
            && (maths.sigmoid(3.35) > 0.85 ==> IsMalicious(w, maths))
  {
    WindowOneWay(h, k, ports, maths);
    var w := WindowFeatures(h, ports, maths);
    RatioSeen(w);
    hide WindowFeatures, Count, ToFeatureVector, OnlyWinner, IsMalicious;
    FloodIsFlagged(w, maths);
  }

  /** The same barrage from the higher end is not: its ratio is zero, so the flood tree
      does not fire, and without many ports nothing else does. */
  lemma {:induction false} BarrageFromHigherIsBenign(h: seq<FlowPacketMeta>, k: FlowKey, ports: seq<u16>, maths: Maths)
    requires Lawful(maths) && OneWayFromHigher(h, k)
    requires WindowFeatures(h, ports, maths).portEntropyBits < 3.0
    ensures !IsMalicious(WindowFeatures(h, ports, maths), maths)
  {
    WindowOneWay(h, k, ports, maths);
    var w := WindowFeatures(h, ports, maths);
    RatioSeen(w);
    hide WindowFeatures, Count, IsMalicious;
    if IsMalicious(w, maths) {
      VolumeAloneIsBenign(w, maths);
    }
  }

  /** Nor is the visible half of an established session, where ACK or PSH segments are
      at least a seventh of the SYNs. */
  lemma {:induction false} OneSidedSessionIsBenign(h: seq<FlowPacketMeta>, k: FlowKey, ports: seq<u16>, maths: Maths)
    requires Lawful(maths) && OneWayFromLower(h, k) && h[0].protocol == 6
    requires 5 <= Count(h, CarriesSyn) + Count(h, CarriesAckOrPsh) && Count(h, CarriesSyn) <= 7 * Count(h, CarriesAckOrPsh)
    requires WindowFeatures(h, ports, maths).portEntropyBits < 3.0
    ensures !IsMalicious(WindowFeatures(h, ports, maths), maths)
  {
    WindowOneWay(h, k, ports, maths);
    hide WindowFeatures, Count, IsMalicious, OneWayFromLower, OneWayFromHigher;
    SessionIsBenign(WindowFeatures(h, ports, maths), maths);
  }

  lemma SessionIsBenign(f: FlowFeatures, maths: Maths)
    requires Lawful(maths) && SeesFlags(f) && f.synCount <= 7 * f.ackPshCount && f.portEntropyBits < 3.0
    ensures !IsMalicious(f, maths)
  {
    RatioBelowEight(f);
    var v := ToFeatureVector(f);
    assert v.portEntropyBits == f.portEntropyBits;
    hide ToFeatureVector, IsMalicious;
    if IsMalicious(f, maths) {
      VolumeAloneIsBenign(f, maths);
    }
  }

  lemma RatioBelowEight(f: FlowFeatures)
    requires SeesFlags(f) && f.synCount <= 7 * f.ackPshCount
    ensures ToFeatureVector(f).ratioFlow < 8.0
  {
    RatioSeen(f);
    hide ToFeatureVector;
    SmallRatio(ToFeatureVector(f).ratioFlow, f.ackPshCount, f.synCount);
  }

  lemma SmallRatio(r: real, acks: nat, syns: nat)
    requires acks > 0 && r * acks as real == syns as real && syns <= 7 * acks
    ensures r < 8.0
  {
    if r >= 8.0 {
      Times(8.0, r, acks as real);
    }
  }

  lemma Times(x: real, y: real, n: real)
    requires x <= y && n > 0.0
    ensures x * n <= y * n
  {
  }

  // ---- Steady timing ----

  /** Packets sent at equal distances, on a clock that has started. */
  predicate IsSteady(h: seq<FlowPacketMeta>, gap: nat) {
    && gap > 0
    && (forall i :: 0 <= i < |h| ==> h[i].timestampNs > 0)
    && forall i :: 0 < i < |h| ==> h[i].timestampNs as int == h[i - 1].timestampNs as int + gap
  }

  lemma {:induction false} SteadyGaps(h: seq<FlowPacketMeta>, gap: nat)
    requires IsSteady(h, gap) && h != []
    ensures |Gaps(h)| == |h| - 1 && forall x <- Gaps(h) :: x == gap as real
  {
    if |h| > 1 {
      SteadyGaps(Init(h), gap);
      assert h[|h| - 1].timestampNs as int == h[|h| - 2].timestampNs as int + gap;
    }
  }

  lemma {:induction false} EvenSum(g: seq<real>, x: real)
    requires forall y <- g :: y == x
    ensures Sum(g) == |g| as real * x && SquaredDeviations(g, x) == 0.0
  {
    if g != [] {
      assert Last(g) in g && forall y <- Init(g) :: y in g;
      EvenSum(Init(g), x);
    }
  }

  lemma EvenVariance(g: seq<real>, x: real)
    requires g != [] && forall y <- g :: y == x
    ensures Variance(g) == 0.0
  {
    EvenSum(g, x);
    hide Sum, SquaredDeviations;
    MeanOfEven(|g| as real, x);
    assert Sum(g) / |g| as real == x;
  }

  lemma MeanOfEven(n: real, x: real)
    requires n > 0.0
    ensures n * x / n == x && 0.0 / n == 0.0
  {
  }

  /** Steady packets have no deviation at all once there are enough of them. */
  lemma {:induction false} SteadyHasNoDeviation(h: seq<FlowPacketMeta>, gap: nat, ports: seq<u16>, maths: Maths)
    requires IsSteady(h, gap) && |h| >= 31
    ensures WindowFeatures(h, ports, maths).iatStdDevNs == maths.sqrt(0.0)
  {
    SteadyGaps(h, gap);
    EvenVariance(Gaps(h), gap as real);
    hide Gaps, Variance, Count, P.EntropyOf, P.PortsOf, Be32Bytes, Max;
  }

  // ---- Even scans ----

  lemma ShareBelow(count: nat, all: nat, ports: nat)
    requires 0 < ports && 0 < count && ports * count <= all
    ensures 0.0 < count as real / all as real <= 1.0 / ports as real
  {
    var c, a, p := count as real, all as real, ports as real;
    assert p * c <= a;
    assert c / a * a == c && 1.0 / p * p == 1.0;
    if c / a > 1.0 / p {
      Times(1.0 / p, c / a, a);
      assert 1.0 / p * a <= c;
      Times(1.0 / p * a, c, p);
    }
  }

  /** A source that spreads its observations evenly over 128 to 256 ports has seven bits of
      entropy or more, and a flow of 700 to 1280 packets from it is flagged. */
  lemma {:induction false} EvenScanIsFlagged(h: seq<FlowPacketMeta>, ports: seq<u16>, count: nat, maths: Maths)
    requires Lawful(maths) && maths.exp2(7.0) == 128.0 && maths.log2(1.0 / 128.0) == -7.0
    requires 700 <= |h| <= 1280
    requires 0 < count && 128 * count <= |ports| < 0x1_0000_0000 && |P.Elems(ports)| <= 256
    requires forall p <- ports :: P.Multiplicity(ports, p) == count
    ensures WindowFeatures(h, ports, maths).portEntropyBits >= 7.0
    ensures maths.sigmoid(1.9) > 0.85 ==> IsMalicious(WindowFeatures(h, ports, maths), maths)
  {
    EvenScanEntropy(ports, count, maths);
    var w := WindowFeatures(h, ports, maths);
    assert w.portEntropyBits == P.EntropyOf(P.PortsOf(ports), maths.log2) && w.packetCount == |h|;
    assert maths.exp2(w.portEntropyBits) >= 128.0;
    hide WindowFeatures, P.EntropyOf, P.PortsOf, P.Multiplicity, P.Elems, IsMalicious, OnlyWinner, ToFeatureVector;
    ScanIsFlagged(w, maths);
  }

  lemma {:induction false} EvenScanEntropy(ports: seq<u16>, count: nat, maths: Maths)
    requires Lawful(maths) && maths.log2(1.0 / 128.0) == -7.0
    requires 0 < count && 128 * count <= |ports| < 0x1_0000_0000 && |P.Elems(ports)| <= 256
    requires forall p <- ports :: P.Multiplicity(ports, p) == count
    ensures P.EntropyOf(P.PortsOf(ports), maths.log2) >= 7.0
  {
    P.EvenEntropy(ports, count, maths.log2);
    hide P.EntropyOf, P.PortsOf, P.Multiplicity, P.Elems;
    ShareBelow(count, |ports|, 128);
    assert maths.log2(count as real / |ports| as real) <= maths.log2(1.0 / 128.0);
  }
}
