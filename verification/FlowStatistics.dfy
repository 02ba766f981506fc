/** The streaming statistics of one flow, against the two-pass statistics of the whole
    list of packets the flow has seen. */
module FlowStatistics {
  import opened Words
  import opened Telemetry
  import opened Flows

  const MIN_IAT_SAMPLES: nat := 30
  const NEUTRAL_IAT_STDDEV_NS: real := 5_000_000.0
  const TCP_SYN: nat := 0x02
  const TCP_PSH: nat := 0x08
  const TCP_ACK: nat := 0x10
  const PROTOCOL_TCP: u8 := 6

  datatype FlowStats = FlowStats(
    firstSrcIp: u32, firstDstIp: u32, firstSrcPort: u16, firstDstPort: u16, protocol: u8,
    packetCount: nat, forwardCount: nat, reverseCount: nat, synCount: nat, ackPshCount: nat,
    lastTimestamp: u64, iatMean: real, iatM2: real, iatSamples: nat)

  const EMPTY := FlowStats(0, 0, 0, 0, 0, 0, 0, 0, 0, 0, 0, 0.0, 0.0, 0)

  predicate IsSyn(m: FlowPacketMeta) {
    m.protocol == PROTOCOL_TCP && HasBit(m.tcpFlags, TCP_SYN)
  }

  predicate IsAckPsh(m: FlowPacketMeta) {
    m.protocol == PROTOCOL_TCP && (HasBit(m.tcpFlags, TCP_ACK) || HasBit(m.tcpFlags, TCP_PSH))
  }

  /** The first packet names the flow. */
  function Named(s: FlowStats, m: FlowPacketMeta): FlowStats {
    if s.packetCount > 0 then s
    else s.(firstSrcIp := m.srcIp, firstDstIp := m.dstIp,
            firstSrcPort := m.srcPort, firstDstPort := m.dstPort, protocol := m.protocol)
  }

  function Counted(s: FlowStats, m: FlowPacketMeta): FlowStats {
    s.(packetCount := s.packetCount + 1,
       forwardCount := s.forwardCount + One(SrcIsLo(m)),
       reverseCount := s.reverseCount + One(!SrcIsLo(m)),
       synCount := s.synCount + One(IsSyn(m)),
       ackPshCount := s.ackPshCount + One(IsAckPsh(m)))
  }

  /** One more packet. */
  function Observed(s: FlowStats, m: FlowPacketMeta): FlowStats {
    Sampled(Counted(Named(s, m), m), m.timestampNs).(lastTimestamp := m.timestampNs)
  }

  /** Welford's update, when the clock has moved on since a known last packet. */
  function Sampled(s: FlowStats, now: u64): FlowStats {
    if s.lastTimestamp == 0 || now <= s.lastTimestamp then s
    else
      var iat := (now as int - s.lastTimestamp) as real;
      var n := s.iatSamples + 1;
      var mean := s.iatMean + (iat - s.iatMean) / n as real;
      s.(iatSamples := n, iatMean := mean, iatM2 := s.iatM2 + (iat - s.iatMean) * (iat - mean))
  }

  function StdDevOf(s: FlowStats, sqrt: real -> real): real {
    if s.iatSamples < MIN_IAT_SAMPLES then NEUTRAL_IAT_STDDEV_NS
    else
      var variance := s.iatM2 / s.iatSamples as real;
      if variance < 0.0 then 0.0 else sqrt(variance)
  }

  class FlowAccumulator {
    var firstSrcIp: u32
    var firstDstIp: u32
    var firstSrcPort: u16
    var firstDstPort: u16
    var protocol: u8
    var packetCount: nat
    var forwardCount: nat
    var reverseCount: nat
    var synCount: nat
    var ackPshCount: nat
    var lastTimestamp: u64
    var iatMean: real
    var iatM2: real
    var iatSamples: nat

    constructor ()
      ensures View() == EMPTY
    {
      firstSrcIp, firstDstIp, firstSrcPort, firstDstPort, protocol := 0, 0, 0, 0, 0;
      packetCount, forwardCount, reverseCount, synCount, ackPshCount := 0, 0, 0, 0, 0;
      lastTimestamp, iatMean, iatM2, iatSamples := 0, 0.0, 0.0, 0;
    }

    function View(): FlowStats
      reads this
    {
      FlowStats(firstSrcIp, firstDstIp, firstSrcPort, firstDstPort, protocol,
                packetCount, forwardCount, reverseCount, synCount, ackPshCount,
                lastTimestamp, iatMean, iatM2, iatSamples)
    }

    method Observe(m: FlowPacketMeta, srcIsLo: bool)
      requires srcIsLo == SrcIsLo(m)
      modifies this
      ensures View() == Observed(old(View()), m)
    {
      if packetCount == 0 {
        NameFlow(m);
      }
      CountPacket(m, srcIsLo);
      SampleGap(m.timestampNs);
      lastTimestamp := m.timestampNs;
    }

    method NameFlow(m: FlowPacketMeta)
      requires packetCount == 0
      modifies this
      ensures View() == Named(old(View()), m)
    {
      firstSrcIp := m.srcIp;
      firstDstIp := m.dstIp;
      firstSrcPort := m.srcPort;
      firstDstPort := m.dstPort;
      protocol := m.protocol;
    }

    method CountPacket(m: FlowPacketMeta, srcIsLo: bool)
      requires srcIsLo == SrcIsLo(m)
      modifies this
      ensures View() == Counted(old(View()), m)
    {
      packetCount := packetCount + 1;
      if srcIsLo {
        forwardCount := forwardCount + 1;
      } else {
        reverseCount := reverseCount + 1;
      }
      if m.protocol == PROTOCOL_TCP {
        if HasBit(m.tcpFlags, TCP_SYN) {
          synCount := synCount + 1;
        }
        if HasBit(m.tcpFlags, TCP_ACK) || HasBit(m.tcpFlags, TCP_PSH) {
          ackPshCount := ackPshCount + 1;
        }
      }
    }

    method SampleGap(now: u64)
      modifies this`iatSamples, this`iatMean, this`iatM2
      ensures View() == Sampled(old(View()), now)
    {
      if lastTimestamp != 0 && now > lastTimestamp {
        var iat := (now as int - lastTimestamp) as real;
        iatSamples := iatSamples + 1;
        var delta := iat - iatMean;
        iatMean := iatMean + delta / iatSamples as real;
        var delta2 := iat - iatMean;
        iatM2 := iatM2 + delta * delta2;
      }
    }

    method IatStdDevNs(sqrt: real -> real) returns (r: real)
      ensures r == StdDevOf(View(), sqrt)
    {
      if iatSamples < MIN_IAT_SAMPLES {
        return NEUTRAL_IAT_STDDEV_NS;
      }
      var variance := iatM2 / iatSamples as real;
      if variance < 0.0 {
        return 0.0;
      }
      return sqrt(variance);
    }
  }

  // ---- The two-pass definitions ----

  /** The statistics after a list of packets. */
  function StatsOf(h: seq<FlowPacketMeta>): FlowStats {
    if h == [] then EMPTY else Observed(StatsOf(Init(h)), Last(h))
  }

  function Count(h: seq<FlowPacketMeta>, p: FlowPacketMeta -> bool): (n: nat)
    ensures n <= |h|
  {
    if h == [] then 0 else Count(Init(h), p) + One(p(Last(h)))
  }

  /** The inter-arrival gaps that count as samples: forward steps of the clock from a
      packet with a known, non-zero time. */
  function Gaps(h: seq<FlowPacketMeta>): seq<real> {
    if |h| < 2 then []
    else
      var before, now := h[|h| - 2].timestampNs, Last(h).timestampNs;
      if before != 0 && now > before then Gaps(Init(h)) + [(now as int - before) as real] else Gaps(Init(h))
  }

  function Sum(g: seq<real>): real {
    if g == [] then 0.0 else Sum(Init(g)) + Last(g)
  }

  function SquaredDeviations(g: seq<real>, c: real): real {
    if g == [] then 0.0 else SquaredDeviations(Init(g), c) + (Last(g) - c) * (Last(g) - c)
  }

  lemma {:induction false} DeviationsAreNonNegative(g: seq<real>, c: real)
    ensures SquaredDeviations(g, c) >= 0.0
  {
    if g != [] {
      DeviationsAreNonNegative(Init(g), c);
      SquareIsNonNegative(Last(g) - c);
    }
  }

  lemma SquareIsNonNegative(x: real)
    ensures x * x >= 0.0
  {
  }

  /** Moving the centre away from the mean by `e` costs `n * e * e`. */
  lemma {:induction false} DeviationsAboutAnotherCentre(g: seq<real>, c: real, e: real)
    ensures SquaredDeviations(g, c + e)
            == SquaredDeviations(g, c) - 2.0 * e * (Sum(g) - |g| as real * c) + |g| as real * (e * e)
  {
    if g != [] {
      DeviationsAboutAnotherCentre(Init(g), c, e);
      var x, n := Last(g), |Init(g)| as real;
      assert (x - (c + e)) * (x - (c + e)) == (x - c) * (x - c) - 2.0 * e * (x - c) + e * e;
      assert 2.0 * e * (Sum(g) - (n + 1.0) * c) == 2.0 * e * (Sum(Init(g)) - n * c) + 2.0 * e * (x - c);
      assert (n + 1.0) * (e * e) == n * (e * e) + e * e;
    }
  }

  /** The one-pass mean and sum of squares are the two-pass ones of these samples. */
  ghost predicate TwoPass(s: FlowStats, g: seq<real>) {
    && s.iatSamples == |g|
    && s.iatMean * |g| as real == Sum(g)
    && s.iatM2 == SquaredDeviations(g, s.iatMean)
  }

  lemma DeviationsOfAppend(g: seq<real>, x: real, c: real, y: real)
    requires y == x - c
    ensures SquaredDeviations(g + [x], c) == SquaredDeviations(g, c) + y * y
  {
  }

  lemma DeviationsOffTheMean(g: seq<real>, mean: real, e: real)
    requires mean * |g| as real == Sum(g)
    ensures SquaredDeviations(g, mean + e) == SquaredDeviations(g, mean) + |g| as real * (e * e)
  {
    hide SquaredDeviations, Sum;
    DeviationsAboutAnotherCentre(g, mean, e);
    var zero := Sum(g) - |g| as real * mean;
    assert zero == 0.0;
    assert 2.0 * e * zero == 0.0;
  }

  /** One Welford step, in exact arithmetic: a sample `d` above the mean moves it by `e`. */
  lemma WelfordMean(g: seq<real>, mean: real, d: real, e: real)
    requires mean * |g| as real == Sum(g)
    requires e * (|g| as real + 1.0) == d
    ensures (mean + e) * (|g| as real + 1.0) == Sum(g + [mean + d])
  {
  }

  lemma WelfordSquares(g: seq<real>, mean: real, d: real, e: real)
    requires mean * |g| as real == Sum(g)
    requires e * (|g| as real + 1.0) == d
    ensures SquaredDeviations(g + [mean + d], mean + e) == SquaredDeviations(g, mean) + d * (d - e)
  {
    hide SquaredDeviations, Sum;
    var n, y := |g| as real, d - e;
    DeviationsOfAppend(g, mean + d, mean + e, y);
    DeviationsOffTheMean(g, mean, e);
    WelfordAlgebra(d, e, n);
  }

  lemma WelfordAlgebra(d: real, e: real, n: real)
    requires e * (n + 1.0) == d
    ensures d * (d - e) == n * (e * e) + (d - e) * (d - e)
  {
  }

  lemma SampledValues(s: FlowStats, now: u64, d: real, e: real)
    requires s.lastTimestamp != 0 && now > s.lastTimestamp
    requires d == (now as int - s.lastTimestamp) as real - s.iatMean && e == d / (s.iatSamples + 1) as real
    ensures var t := Sampled(s, now);
            t.iatSamples == s.iatSamples + 1 && t.iatMean == s.iatMean + e && t.iatM2 == s.iatM2 + d * (d - e)
  {
  }

  lemma SampledKeepsTwoPass(s: FlowStats, g: seq<real>, now: u64)
    requires TwoPass(s, g) && s.lastTimestamp != 0 && now > s.lastTimestamp
    ensures TwoPass(Sampled(s, now), g + [(now as int - s.lastTimestamp) as real])
  {
    hide SquaredDeviations, Sum, Sampled;
    var x := (now as int - s.lastTimestamp) as real;
    var n, d := |g| as real + 1.0, x - s.iatMean;
    assert (s.iatSamples + 1) as real == n;
    var e := d / n;
    QuotientTimes(d, n);
    SampledValues(s, now, d, e);
    WelfordMean(g, s.iatMean, d, e);
    WelfordSquares(g, s.iatMean, d, e);
    assert s.iatMean + d == x;
  }

  lemma QuotientTimes(d: real, n: real)
    requires n > 0.0
    ensures d / n * n == d
  {
  }

  /** The part of the statistics Welford's update works on. */
  predicate SameSamples(s: FlowStats, t: FlowStats) {
    s.iatSamples == t.iatSamples && s.iatMean == t.iatMean && s.iatM2 == t.iatM2
  }

  lemma CountingKeepsSamples(s: FlowStats, m: FlowPacketMeta)
    ensures SameSamples(Counted(Named(s, m), m), s) && Counted(Named(s, m), m).lastTimestamp == s.lastTimestamp
  {
  }

  lemma TwoPassOfSameSamples(s: FlowStats, t: FlowStats, g: seq<real>)
    requires TwoPass(s, g) && SameSamples(s, t)
    ensures TwoPass(t, g)
  {
  }

  lemma ObservedKeepsTwoPass(s: FlowStats, g: seq<real>, m: FlowPacketMeta)
    requires TwoPass(s, g)
    ensures TwoPass(Observed(s, m),
                    if s.lastTimestamp != 0 && m.timestampNs > s.lastTimestamp
                    then g + [(m.timestampNs as int - s.lastTimestamp) as real] else g)
  {
    var c, now := Counted(Named(s, m), m), m.timestampNs;
    CountingKeepsSamples(s, m);
    TwoPassOfSameSamples(s, c, g);
    if c.lastTimestamp != 0 && now > c.lastTimestamp {
      hide TwoPass, Sampled, Counted, Named;
      SampledKeepsTwoPass(c, g, now);
      TwoPassOfSameSamples(Sampled(c, now), Observed(s, m), g + [(now as int - c.lastTimestamp) as real]);
    } else {
      hide TwoPass, Counted, Named;
      TwoPassOfSameSamples(c, Observed(s, m), g);
    }
  }

  /** After any packets the streaming mean and sum of squares are the two-pass ones of
      the sampled gaps; in particular the sum of squares is never negative. */
  lemma {:induction false} StreamingIsTwoPass(h: seq<FlowPacketMeta>)
    ensures TwoPass(StatsOf(h), Gaps(h)) && StatsOf(h).iatM2 >= 0.0
    ensures h != [] ==> StatsOf(h).lastTimestamp == Last(h).timestampNs
  {
    if h != [] {
      var before := Init(h);
      StreamingIsTwoPass(before);
      ObservedKeepsTwoPass(StatsOf(before), Gaps(before), Last(h));
      assert before != [] ==> Last(before) == h[|h| - 2];
      DeviationsAreNonNegative(Gaps(h), StatsOf(h).iatMean);
    }
  }

  /** The population variance of a list, by its two-pass definition. */
  function Variance(g: seq<real>): real
    requires g != []
  {
    SquaredDeviations(g, Sum(g) / |g| as real) / |g| as real
  }

  /** So the reported deviation is the root of the variance of the gaps once there are 30
      of them, and neutral before: the guard against a negative variance never fires. */
  lemma StdDevIsTwoPass(h: seq<FlowPacketMeta>, sqrt: real -> real)
    ensures |Gaps(h)| < 30 ==> StdDevOf(StatsOf(h), sqrt) == 5_000_000.0
    ensures |Gaps(h)| >= 30 ==> Variance(Gaps(h)) >= 0.0 && StdDevOf(StatsOf(h), sqrt) == sqrt(Variance(Gaps(h)))
  {
    hide StatsOf, Gaps, TwoPass, StdDevOf, Variance;
    StreamingIsTwoPass(h);
    DeviationOfTwoPass(StatsOf(h), Gaps(h), sqrt);
  }

  lemma DeviationOfTwoPass(s: FlowStats, g: seq<real>, sqrt: real -> real)
    requires TwoPass(s, g) && s.iatM2 >= 0.0
    ensures |g| < 30 ==> StdDevOf(s, sqrt) == 5_000_000.0
    ensures |g| >= 30 ==> Variance(g) >= 0.0 && StdDevOf(s, sqrt) == sqrt(Variance(g))
  {
    hide Sum, SquaredDeviations;
    if |g| >= 30 {
      MeanOfSum(s.iatMean, |g| as real, Sum(g));
      QuotientIsNonNegative(s.iatM2, |g| as real);
    }
  }

  lemma MeanOfSum(mean: real, n: real, sum: real)
    requires n > 0.0 && mean * n == sum
    ensures sum / n == mean
  {
  }

  lemma QuotientIsNonNegative(x: real, n: real)
    requires x >= 0.0 && n > 0.0
    ensures x / n >= 0.0
  {
  }

  /** The counters count what they are named after. */
  lemma {:induction false} CountersCount(h: seq<FlowPacketMeta>)
    ensures var s := StatsOf(h);
            && s.packetCount == |h|
            && s.forwardCount == Count(h, SrcIsLo) && s.reverseCount + s.forwardCount == |h|
            && s.synCount == Count(h, IsSyn) && s.ackPshCount == Count(h, IsAckPsh)
    ensures h != [] ==> Named(EMPTY, h[0]) == EMPTY.(
                          firstSrcIp := StatsOf(h).firstSrcIp, firstDstIp := StatsOf(h).firstDstIp,
                          firstSrcPort := StatsOf(h).firstSrcPort, firstDstPort := StatsOf(h).firstDstPort,
                          protocol := StatsOf(h).protocol)
  {
    if h != [] {
      CountersCount(Init(h));
      ObservedCounts(StatsOf(Init(h)), Last(h));
    }
  }

  lemma {:induction false} CountsAgree(h: seq<FlowPacketMeta>, p: FlowPacketMeta -> bool, q: FlowPacketMeta -> bool)
    requires forall m <- h :: p(m) == q(m)
    ensures Count(h, p) == Count(h, q)
  {
    if h != [] {
      assert Last(h) in h && forall m <- Init(h) :: m in h;
      CountsAgree(Init(h), p, q);
    }
  }

  /** The packets sent from the lower end of a key. */
  function FromLower(h: seq<FlowPacketMeta>, k: FlowKey): nat {
    Count(h, m => FromLowerEnd(m, k))
  }

  /** Forward packets are those from the lower end of the flow's key, reverse packets all
      others. */
  lemma {:induction false} ForwardIsFromTheLowerEnd(h: seq<FlowPacketMeta>, k: FlowKey)
    requires forall m <- h :: KeyOf(m) == k
    ensures StatsOf(h).forwardCount == FromLower(h, k) && StatsOf(h).reverseCount == |h| - FromLower(h, k)
  {
    CountersCount(h);
    forall m | m in h ensures SrcIsLo(m) == FromLowerEnd(m, k) {
      KeyIsOrdered(m);
    }
    CountsAgree(h, SrcIsLo, m => FromLowerEnd(m, k));
  }

  /** SYN, PSH and ACK are bits 1, 3 and 4 of the flag byte. */
  predicate CarriesSyn(m: FlowPacketMeta) {
    m.protocol == 6 && (m.tcpFlags / 2) % 2 == 1
  }

  predicate CarriesAckOrPsh(m: FlowPacketMeta) {
    m.protocol == 6 && ((m.tcpFlags / 16) % 2 == 1 || (m.tcpFlags / 8) % 2 == 1)
  }

  lemma {:induction false} FlagCountersCountBits(h: seq<FlowPacketMeta>)
    ensures StatsOf(h).synCount == Count(h, CarriesSyn) && StatsOf(h).ackPshCount == Count(h, CarriesAckOrPsh)
  {
    CountersCount(h);
    CountsAgree(h, IsSyn, CarriesSyn);
    CountsAgree(h, IsAckPsh, CarriesAckOrPsh);
  }

  lemma ObservedCounts(s: FlowStats, m: FlowPacketMeta)
    ensures Observed(s, m) == Counted(Named(s, m), m).(
                                iatMean := Observed(s, m).iatMean, iatM2 := Observed(s, m).iatM2,
                                iatSamples := Observed(s, m).iatSamples, lastTimestamp := m.timestampNs)
    ensures s.iatSamples <= Observed(s, m).iatSamples <= s.iatSamples + 1
  {
  }

  /** Over a clock that never stands at zero or runs back, the gaps telescope. */
  lemma {:induction false} GapsTelescope(h: seq<FlowPacketMeta>)
    requires h != []
    requires forall i :: 0 <= i < |h| ==> h[i].timestampNs != 0
    requires forall i :: 0 < i < |h| ==> h[i - 1].timestampNs <= h[i].timestampNs
    ensures Sum(Gaps(h)) == (Last(h).timestampNs as int - h[0].timestampNs) as real
  {
    if |h| >= 2 {
      GapsTelescope(Init(h));
      var g := Gaps(Init(h));
      if Gaps(h) != g {
        assert Init(Gaps(h)) == g;
      }
    }
  }

  /** What every accumulator satisfies once it has seen a packet. */
  predicate Plausible(s: FlowStats) {
    && s.packetCount >= 1
    && s.iatSamples < s.packetCount
    && s.synCount <= s.packetCount
    && s.forwardCount + s.reverseCount == s.packetCount
  }

  lemma ObservedIsPlausible(s: FlowStats, m: FlowPacketMeta)
    requires s == EMPTY || Plausible(s)
    ensures Plausible(Observed(s, m))
    ensures Observed(s, m).packetCount == s.packetCount + 1
    ensures Observed(s, m).firstSrcIp == if s.packetCount > 0 then s.firstSrcIp else m.srcIp
  {
  }

  lemma {:induction false} StatsArePlausible(h: seq<FlowPacketMeta>)
    requires h != []
    ensures Plausible(StatsOf(h))
  {
    if |h| > 1 {
      StatsArePlausible(Init(h));
    }
    ObservedIsPlausible(StatsOf(Init(h)), Last(h));
  }
}
