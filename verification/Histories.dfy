/** What the aggregator's shards, the flush's snapshot and the emitted features are in terms
    of the packets that have come in, under every interleaving. */
module Histories {
  import opened Words
  import opened Telemetry
  import opened Flows
  import opened FlowStatistics
  import opened Aggregation
  import opened MapSums
  import opened Interleavings
  import opened FlushRaces
  import P = Ports

  /** The packets admitted for one key: those of flows already replaced in the flush's
      hands, those of the flow last taken, and those since. */
  datatype FlowLog = FlowLog(past: seq<FlowPacketMeta>, taken: seq<FlowPacketMeta>, live: seq<FlowPacketMeta>)

  /** The ports recorded for one source: those in earlier snapshots, those in the last
      one, and those since. */
  datatype PortLog = PortLog(past: seq<u16>, snapped: seq<u16>, live: seq<u16>)

  predicate Admits(s: Sys, step: Step, k: FlowKey)
    requires InShape(s)
  {
    step.Enter? && KeyOf(step.m) == k && !Refuses(s.agg, step.m)
  }

  predicate Records(s: Sys, step: Step, ip: u32) {
    step.Record? && Enabled(s, step) && step.m.srcIp == ip
  }

  /** The step takes the shard of this key, or of this source. */
  predicate Takes(s: Sys, step: Step, k: FlowKey) {
    step.TakeShard? && Enabled(s, step) && s.pc.next == ShardIndex(k)
  }

  predicate Snaps(s: Sys, step: Step, ip: u32) {
    step.SnapShard? && Enabled(s, step) && s.pc.next == SrcShardIndex(ip)
  }

  function FlowLogAfter(l: FlowLog, s: Sys, step: Step, k: FlowKey): FlowLog
    requires InShape(s)
  {
    if Admits(s, step, k) then l.(live := l.live + [step.m])
    else if Takes(s, step, k) then FlowLog(l.past + l.taken, l.live, [])
    else l
  }

  function PortLogAfter(l: PortLog, s: Sys, step: Step, ip: u32): PortLog {
    if Records(s, step, ip) then l.(live := l.live + [step.m.dstPort])
    else if Snaps(s, step, ip) then PortLog(l.past + l.snapped, l.live, [])
    else if step.StartFlush? && Enabled(s, step) then PortLog(l.past + l.snapped, [], l.live)
    else l
  }

  function FlowLogOf(schedule: seq<Step>, k: FlowKey, maths: Maths): FlowLog {
    if schedule == [] then FlowLog([], [], [])
    else FlowLogAfter(FlowLogOf(Init(schedule), k, maths), Run(Start(), Init(schedule), maths), Last(schedule), k)
  }

  function PortLogOf(schedule: seq<Step>, ip: u32, maths: Maths): PortLog {
    if schedule == [] then PortLog([], [], [])
    else PortLogAfter(PortLogOf(Init(schedule), ip, maths), Run(Start(), Init(schedule), maths), Last(schedule), ip)
  }

  /** Every packet the schedule admits for a key, and every port it records for a source. */
  function Admitted(schedule: seq<Step>, k: FlowKey, maths: Maths): seq<FlowPacketMeta> {
    if schedule == [] then []
    else
      Admitted(Init(schedule), k, maths)
      + if Admits(Run(Start(), Init(schedule), maths), Last(schedule), k) then [Last(schedule).m] else []
  }

  function PortsRecorded(schedule: seq<Step>, ip: u32, maths: Maths): seq<u16> {
    if schedule == [] then []
    else
      PortsRecorded(Init(schedule), ip, maths)
      + if Records(Run(Start(), Init(schedule), maths), Last(schedule), ip) then [Last(schedule).m.dstPort] else []
  }

  lemma FlowLogGrows(l: FlowLog, s: Sys, step: Step, k: FlowKey)
    requires InShape(s)
    ensures var l' := FlowLogAfter(l, s, step, k);
            l'.past + l'.taken + l'.live == l.past + l.taken + l.live + if Admits(s, step, k) then [step.m] else []
  {
    hide Admits, Takes;
  }

  lemma PortLogGrows(l: PortLog, s: Sys, step: Step, ip: u32)
    ensures var l' := PortLogAfter(l, s, step, ip);
            l'.past + l'.snapped + l'.live
            == l.past + l.snapped + l.live + if Records(s, step, ip) then [step.m.dstPort] else []
  {
    hide Records, Snaps, Enabled;
  }

  /** The logs lose nothing, invent nothing and keep the order. */
  lemma {:induction false} LogsAreComplete(schedule: seq<Step>, k: FlowKey, ip: u32, maths: Maths)
    ensures var l := FlowLogOf(schedule, k, maths); l.past + l.taken + l.live == Admitted(schedule, k, maths)
    ensures var l := PortLogOf(schedule, ip, maths); l.past + l.snapped + l.live == PortsRecorded(schedule, ip, maths)
  {
    if schedule != [] {
      hide Run, FlowLogAfter, PortLogAfter, Admits, Records;
      LogsAreComplete(Init(schedule), k, ip, maths);
      FlowLogGrows(FlowLogOf(Init(schedule), k, maths), Run(Start(), Init(schedule), maths), Last(schedule), k);
      PortLogGrows(PortLogOf(Init(schedule), ip, maths), Run(Start(), Init(schedule), maths), Last(schedule), ip);
    }
  }

  /** Every packet in a key's log is of that key. */
  lemma {:induction false} LogsHoldTheirKey(schedule: seq<Step>, k: FlowKey, maths: Maths)
    ensures var l := FlowLogOf(schedule, k, maths); forall m <- l.taken + l.live :: KeyOf(m) == k
  {
    if schedule != [] {
      hide Run, Takes, KeyOf, Refuses;
      LogsHoldTheirKey(Init(schedule), k, maths);
    }
  }

  // ---- Flows ----

  function StatsIfAny(h: seq<FlowPacketMeta>): Option<FlowStats> {
    if h == [] then None else Some(StatsOf(h))
  }

  /** A live flow holds the statistics of the packets since its shard was last taken, and
      a taken one those of the packets before that. */
  ghost predicate FlowMatches(s: Sys, k: FlowKey, l: FlowLog)
    requires InShape(s)
  {
    && GetFlow(s.agg.flows, k) == StatsIfAny(l.live)
    && (k in Taken(s) ==> l.taken != [] && Taken(s)[k] == StatsOf(l.taken))
  }

  lemma StatsOfOneMore(h: seq<FlowPacketMeta>, m: FlowPacketMeta)
    ensures StatsOf(h + [m]) == Observed(StatsOf(h), m)
  {
    assert Init(h + [m]) == h;
  }

  lemma EnteringExtendsTheFlow(s: AggState, m: FlowPacketMeta, k: FlowKey, live: seq<FlowPacketMeta>)
    requires Sharded(s) && GetFlow(s.flows, k) == StatsIfAny(live)
    ensures GetFlow(Entered(s, m).flows, k)
            == StatsIfAny(if KeyOf(m) == k && !Refuses(s, m) then live + [m] else live)
  {
    ShardedTableIsOneMap(s, m, k);
    StatsOfOneMore(live, m);
    assert StatsOf([]) == EMPTY;
    hide Sharded, Entered, GetFlow, Refuses, ShardIndex, KeyOf, Observed, StatsOf;
  }

  lemma MatchesByParts(s: Sys, t: Sys, k: FlowKey, l: FlowLog, live: seq<FlowPacketMeta>)
    requires InShape(s) && InShape(t) && FlowMatches(s, k, l)
    requires GetFlow(t.agg.flows, k) == StatsIfAny(live) && Taken(t) == Taken(s)
    ensures FlowMatches(t, k, l.(live := live))
  {
    hide GetFlow, StatsIfAny, StatsOf, Taken;
  }

  lemma EnterKeepsFlow(s: Sys, m: FlowPacketMeta, k: FlowKey, l: FlowLog, maths: Maths)
    requires InOrder(s) && FlowMatches(s, k, l)
    ensures FlowMatches(Next(s, Enter(m), maths), k, FlowLogAfter(l, s, Enter(m), k))
  {
    EnteringExtendsTheFlow(s.agg, m, k, l.live);
    EnterOnlyEnters(s, m, maths);
    var live := if KeyOf(m) == k && !Refuses(s.agg, m) then l.live + [m] else l.live;
    assert FlowLogAfter(l, s, Enter(m), k) == l.(live := live);
    hide FlowMatches, Next, InOrder, Entered, GetFlow, Refuses, KeyOf, StatsIfAny, Taken, FlowLogAfter;
    MatchesByParts(s, Next(s, Enter(m), maths), k, l, live);
  }

  lemma TakeKeepsFlow(s: Sys, k: FlowKey, l: FlowLog, maths: Maths)
    requires InOrder(s) && FlowMatches(s, k, l)
    ensures FlowMatches(Next(s, TakeShard, maths), k, FlowLogAfter(l, s, TakeShard, k))
  {
    hide ShardIndex, Consistent, StatsOf;
  }

  lemma RestKeepsFlow(s: Sys, step: Step, k: FlowKey, l: FlowLog, maths: Maths)
    requires InOrder(s) && FlowMatches(s, k, l) && !step.Enter? && !step.TakeShard?
    ensures FlowMatches(Next(s, step, maths), k, FlowLogAfter(l, s, step, k))
  {
    hide ShardIndex, Sharded, StatsOf, Features, PutTracker, GetTracker;
  }

  lemma StepKeepsFlow(s: Sys, step: Step, k: FlowKey, l: FlowLog, maths: Maths)
    requires InOrder(s) && FlowMatches(s, k, l)
    ensures FlowMatches(Next(s, step, maths), k, FlowLogAfter(l, s, step, k))
  {
    hide FlowMatches, Next, FlowLogAfter, Sharded;
    if step.Enter? {
      EnterKeepsFlow(s, step.m, k, l, maths);
    } else if step.TakeShard? {
      TakeKeepsFlow(s, k, l, maths);
    } else {
      RestKeepsFlow(s, step, k, l, maths);
    }
  }

  lemma StartIsEmpty(k: FlowKey, ip: u32)
    ensures InOrder(Start())
    ensures FlowMatches(Start(), k, FlowLog([], [], [])) && PortsMatch(Start(), ip, PortLog([], [], []))
  {
    StartIsConserved();
    hide Sharded, Conserved, ShardIndex, SrcShardIndex;
  }

  lemma {:induction false} FlowsAreTheirPackets(schedule: seq<Step>, k: FlowKey, maths: Maths)
    ensures FlowMatches(Run(Start(), schedule, maths), k, FlowLogOf(schedule, k, maths))
  {
    hide Start, InOrder, FlowMatches, Next, FlowLogAfter;
    StartIsEmpty(k, 0);
    if schedule != [] {
      FlowsAreTheirPackets(Init(schedule), k, maths);
      RunKeepsOrder(Start(), Init(schedule), maths);
      StepKeepsFlow(Run(Start(), Init(schedule), maths), Last(schedule), k, FlowLogOf(Init(schedule), k, maths), maths);
    }
  }

  // ---- Trackers ----

  function PortsIfAny(h: seq<u16>): Option<P.PortStats> {
    if h == [] then None else Some(P.PortsOf(h))
  }

  /** A live tracker holds the ports since its shard was last snapped, and the snapshot
      those before that. */
  ghost predicate PortsMatch(s: Sys, ip: u32, l: PortLog)
    requires InShape(s)
  {
    && GetTracker(s.agg.ports, ip) == PortsIfAny(l.live)
    && (if ip in s.snapshot then Some(s.snapshot[ip]) else None) == PortsIfAny(l.snapped)
  }

  lemma PortsOfOneMore(h: seq<u16>, port: u16)
    ensures P.PortsOf(h + [port]) == P.Observed(P.PortsOf(h), port)
  {
    assert Init(h + [port]) == h;
  }

  lemma RecordedTracker(s: AggState, m: FlowPacketMeta, ip: u32)
    requires |s.ports| == NUM_SHARDS
    ensures GetTracker(Recorded(s, m).ports, ip)
            == if ip == m.srcIp then Some(P.Observed(GetTracker(s.ports, ip).UnwrapOr(P.NO_PORTS), m.dstPort))
               else GetTracker(s.ports, ip)
  {
    hide P.Observed, SrcShardIndex;
  }

  lemma RecordKeepsPorts(s: Sys, m: FlowPacketMeta, ip: u32, l: PortLog, maths: Maths)
    requires InOrder(s) && PortsMatch(s, ip, l)
    ensures PortsMatch(Next(s, Record(m), maths), ip, PortLogAfter(l, s, Record(m), ip))
  {
    RecordedTracker(s.agg, m, ip);
    PortsOfOneMore(l.live, m.dstPort);
    assert P.PortsOf([]) == P.NO_PORTS;
    hide Sharded, Recorded, GetTracker, SrcShardIndex, P.Observed, P.PortsOf, ShardIndex;
  }

  lemma SnapKeepsPorts(s: Sys, ip: u32, l: PortLog, maths: Maths)
    requires InOrder(s) && PortsMatch(s, ip, l)
    ensures PortsMatch(Next(s, SnapShard, maths), ip, PortLogAfter(l, s, SnapShard, ip))
  {
    hide SrcShardIndex, Consistent, Routed, P.PortsOf;
  }

  lemma RestKeepsPorts(s: Sys, step: Step, ip: u32, l: PortLog, maths: Maths)
    requires InOrder(s) && PortsMatch(s, ip, l) && !step.Record? && !step.SnapShard?
    ensures PortsMatch(Next(s, step, maths), ip, PortLogAfter(l, s, step, ip))
  {
    hide SrcShardIndex, Sharded, P.PortsOf, Features, PutFlow, GetFlow, ShardIndex;
  }

  lemma StepKeepsPorts(s: Sys, step: Step, ip: u32, l: PortLog, maths: Maths)
    requires InOrder(s) && PortsMatch(s, ip, l)
    ensures PortsMatch(Next(s, step, maths), ip, PortLogAfter(l, s, step, ip))
  {
    hide PortsMatch, Next, PortLogAfter, Sharded;
    if step.Record? {
      RecordKeepsPorts(s, step.m, ip, l, maths);
    } else if step.SnapShard? {
      SnapKeepsPorts(s, ip, l, maths);
    } else {
      RestKeepsPorts(s, step, ip, l, maths);
    }
  }

  lemma {:induction false} TrackersAreTheirPorts(schedule: seq<Step>, ip: u32, maths: Maths)
    ensures PortsMatch(Run(Start(), schedule, maths), ip, PortLogOf(schedule, ip, maths))
  {
    hide Start, InOrder, PortsMatch, Next, PortLogAfter;
    StartIsEmpty(FlowKey(0, 0, 0, 0, 0), ip);
    if schedule != [] {
      TrackersAreTheirPorts(Init(schedule), ip, maths);
      RunKeepsOrder(Start(), Init(schedule), maths);
      StepKeepsPorts(Run(Start(), Init(schedule), maths), Last(schedule), ip, PortLogOf(Init(schedule), ip, maths), maths);
    }
  }

  // ---- Features ----

  /** The features of a window's packets and of the ports of its source, by two-pass
      definitions. */
  function WindowFeatures(h: seq<FlowPacketMeta>, ports: seq<u16>, maths: Maths): FlowFeatures
    requires h != []
  {
    var forward := Count(h, SrcIsLo);
    FlowFeatures(
      Be32Bytes(h[0].srcIp), Be32Bytes(h[0].dstIp), h[0].srcPort, h[0].dstPort, h[0].protocol,
      |h|, forward, |h| - forward, Count(h, IsSyn), Count(h, IsAckPsh),
      if |Gaps(h)| < MIN_IAT_SAMPLES then NEUTRAL_IAT_STDDEV_NS else maths.sqrt(Variance(Gaps(h))),
      forward as real / Max(|h| - forward, 1) as real,
      P.EntropyOf(P.PortsOf(ports), maths.log2))
  }

  lemma FeaturesOfPackets(h: seq<FlowPacketMeta>, ports: seq<u16>, snapshot: PortShard, maths: Maths)
    requires h != []
    requires (if h[0].srcIp in snapshot then Some(snapshot[h[0].srcIp]) else None) == PortsIfAny(ports)
    ensures FeaturesOf(StatsOf(h), snapshot, maths) == WindowFeatures(h, ports, maths)
  {
    var s := StatsOf(h);
    CountersCount(h);
    StdDevIsTwoPass(h, maths.sqrt);
    NoPortsNoEntropy(maths);
    hide StatsOf, StdDevOf, P.PortsOf, Gaps, Variance, Count, Be32Bytes, P.EntropyOf;
    assert s.firstSrcIp == h[0].srcIp && s.firstDstIp == h[0].dstIp;
    assert s.firstSrcPort == h[0].srcPort && s.firstDstPort == h[0].dstPort && s.protocol == h[0].protocol;
    assert s.reverseCount == |h| - s.forwardCount;
    var f, w := FeaturesOf(s, snapshot, maths), WindowFeatures(h, ports, maths);
    assert f.portEntropyBits == w.portEntropyBits;
    assert f.iatStdDevNs == w.iatStdDevNs;
    assert f.ratioFlow == w.ratioFlow;
  }

  lemma NoPortsNoEntropy(maths: Maths)
    ensures P.EntropyOf(P.PortsOf([]), maths.log2) == 0.0
  {
    P.EntropyOfNothing(P.NO_PORTS, {}, maths.log2, P.ALL_PORTS);
    assert P.NO_PORTS.counts.Keys == {};
  }

  /** Whatever has raced with the flush: the features it emits for a flow are, exactly,
      those of the packets admitted for its key since its shard was taken before, with
      the ports recorded for its first source in the time the snapshot covers. */
  lemma {:induction false} EmittedFeaturesAreThoseOfTheWindow(schedule: seq<Step>, k: FlowKey, maths: Maths)
    requires Enabled(Run(Start(), schedule, maths), EmitFlow(k))
    ensures var h := FlowLogOf(schedule, k, maths).taken;
            && h != []
            && Features(Run(Start(), schedule, maths), k, maths)
               == WindowFeatures(h, PortLogOf(schedule, h[0].srcIp, maths).snapped, maths)
  {
    var s, h := Run(Start(), schedule, maths), FlowLogOf(schedule, k, maths).taken;
    FlowsAreTheirPackets(schedule, k, maths);
    TrackersAreTheirPorts(schedule, h[0].srcIp, maths);
    CountersCount(h);
    hide Run, FlowLogOf, PortLogOf, FeaturesOf, WindowFeatures;
    FeaturesOfPackets(h, PortLogOf(schedule, h[0].srcIp, maths).snapped, s.snapshot, maths);
  }

  /** `forward` packets of `all` go forward, and the ratio is forward per reverse packet,
      or the forward count when there are none. */
  predicate HasDirections(f: FlowFeatures, forward: nat, all: nat) {
    && f.packetCount == all && f.forwardCount == forward && f.forwardCount + f.reverseCount == all
    && (f.reverseCount == 0 ==> f.ratioFlow == all as real)
    && (f.reverseCount > 0 ==> f.ratioFlow * f.reverseCount as real == f.forwardCount as real)
  }

  /** In particular the forward packets of an emitted flow are those from its key's lower
      end. */
  lemma {:induction false} EmittedDirections(schedule: seq<Step>, k: FlowKey, maths: Maths)
    requires Enabled(Run(Start(), schedule, maths), EmitFlow(k))
    ensures var h := FlowLogOf(schedule, k, maths).taken;
            HasDirections(Features(Run(Start(), schedule, maths), k, maths), FromLower(h, k), |h|)
  {
    EmittedFeaturesAreThoseOfTheWindow(schedule, k, maths);
    LogsHoldTheirKey(schedule, k, maths);
    var l := FlowLogOf(schedule, k, maths);
    hide *;
    var h := l.taken;
    assert forall m <- h :: m in l.taken + l.live;
    WindowDirections(h, k, PortLogOf(schedule, h[0].srcIp, maths).snapped, maths);
  }

  lemma RatioTimesReverse(forward: nat, reverse: nat, ratio: real)
    requires ratio == forward as real / Max(reverse, 1) as real
    ensures reverse == 0 ==> ratio == forward as real
    ensures reverse > 0 ==> ratio * reverse as real == forward as real
  {
  }

  lemma DirectionsOf(f: FlowFeatures, forward: nat, all: nat)
    requires f.packetCount == all && f.forwardCount == forward && forward + f.reverseCount == all
    requires f.ratioFlow == forward as real / Max(f.reverseCount, 1) as real
    ensures HasDirections(f, forward, all)
  {
    RatioTimesReverse(forward, f.reverseCount, f.ratioFlow);
    hide Max;
    assert f.reverseCount == 0 ==> forward == all;
  }

  lemma WindowFields(h: seq<FlowPacketMeta>, ports: seq<u16>, maths: Maths)
    requires h != []
    ensures var w, forward := WindowFeatures(h, ports, maths), Count(h, SrcIsLo);
            && w.packetCount == |h| && w.forwardCount == forward && forward + w.reverseCount == |h|
            && w.ratioFlow == forward as real / Max(w.reverseCount, 1) as real
  {
    hide Count, Gaps, Variance, P.EntropyOf, P.PortsOf, Be32Bytes, Max;
  }

  lemma WindowDirections(h: seq<FlowPacketMeta>, k: FlowKey, ports: seq<u16>, maths: Maths)
    requires h != [] && forall m <- h :: KeyOf(m) == k
    ensures HasDirections(WindowFeatures(h, ports, maths), FromLower(h, k), |h|)
  {
    ForwardIsFromTheLowerEnd(h, k);
    CountersCount(h);
    hide *;
    WindowFields(h, ports, maths);
    DirectionsOf(WindowFeatures(h, ports, maths), FromLower(h, k), |h|);
  }

  // ---- All the ports together ----

  /** Observations in a snapshot that a new flush replaces. */
  ghost function DiscardedBy(s: Sys, step: Step): nat {
    if step.StartFlush? && Enabled(s, step) then SumBy(s.snapshot, Observations) else 0
  }

  ghost function Discarded(schedule: seq<Step>, maths: Maths): nat {
    if schedule == [] then 0
    else Discarded(Init(schedule), maths) + DiscardedBy(Run(Start(), Init(schedule), maths), Last(schedule))
  }

  /** Whether the step takes a tracker's 32-bit total round. */
  predicate GoesRound(s: Sys, step: Step)
    requires InShape(s)
  {
    step.Record? && Enabled(s, step) && Wraps(s.agg, step.m)
  }

  function Wrapped(schedule: seq<Step>, maths: Maths): nat {
    if schedule == [] then 0
    else Wrapped(Init(schedule), maths) + One(GoesRound(Run(Start(), Init(schedule), maths), Last(schedule)))
  }

  ghost predicate Balanced(s: Sys, gone: nat, wrapped: nat) {
    && RowSum(s.agg.ports, Observations) + SumBy(s.snapshot, Observations) + gone + 0x1_0000_0000 * wrapped == s.recorded
    && (s.recorded < 0x1_0000_0000 ==> wrapped == 0)
  }

  lemma SnapKeepsBalance(s: Sys, gone: nat, wrapped: nat, maths: Maths)
    requires InOrder(s) && s.pc.Snapping? && Balanced(s, gone, wrapped)
    ensures Balanced(Next(s, SnapShard, maths), gone, wrapped)
  {
    var i := s.pc.next;
    assert s.snapshot.Keys !! s.agg.ports[i].Keys;
    hide Sharded, SrcShardIndex;
    SumByUnion(s.snapshot, s.agg.ports[i], Observations);
    RowSumUpdate(s.agg.ports, Observations, i, map[]);
  }

  lemma RecordKeepsBalance(s: Sys, m: FlowPacketMeta, gone: nat, wrapped: nat, maths: Maths)
    requires InShape(s) && m in s.inside && Balanced(s, gone, wrapped)
    ensures Balanced(Next(s, Record(m), maths), gone, wrapped + One(Wraps(s.agg, m)))
  {
    RecordedTotals(s.agg, m);
    hide Recorded, Wraps;
  }

  lemma EmptySum(ports: PortShard)
    requires ports == map[]
    ensures SumBy(ports, Observations) == 0
  {
  }

  lemma RestKeepsBalance(s: Sys, step: Step, gone: nat, wrapped: nat, maths: Maths)
    requires InShape(s) && !step.SnapShard? && !step.Record? && Balanced(s, gone, wrapped)
    ensures Balanced(Next(s, step, maths), gone + DiscardedBy(s, step), wrapped)
  {
    hide Entered, Features;
    if step.StartFlush? {
      EmptySum(map[]);
    } else if step.Enter? {
      EnteringLeavesPorts(s.agg, step.m);
    }
  }

  lemma EnteringLeavesPorts(s: AggState, m: FlowPacketMeta)
    requires |s.flows| == NUM_SHARDS
    ensures Entered(s, m).ports == s.ports
  {
    hide PutFlow;
  }

  lemma StepKeepsBalance(s: Sys, step: Step, gone: nat, wrapped: nat, maths: Maths)
    requires InOrder(s) && Balanced(s, gone, wrapped)
    ensures Balanced(Next(s, step, maths), gone + DiscardedBy(s, step), wrapped + One(GoesRound(s, step)))
  {
    hide Balanced, Sharded, Wraps;
    if !Enabled(s, step) {
      hide Enabled;
    } else if step.SnapShard? {
      SnapKeepsBalance(s, gone, wrapped, maths);
    } else if step.Record? {
      RecordKeepsBalance(s, step.m, gone, wrapped, maths);
    } else {
      hide Next;
      RestKeepsBalance(s, step, gone, wrapped, maths);
    }
  }

  lemma StartIsBalanced()
    ensures InOrder(Start()) && Balanced(Start(), 0, 0)
  {
    StartIsConserved();
    hide NewAggregator, Sharded, Conserved;
    RowSumOfEmpty(Start().agg.ports, Observations);
    EmptySum(Start().snapshot);
  }

  /** Every port recorded is in a live tracker, in the last snapshot or in an earlier one,
      and counted there, however the flushes raced; what is missing are whole turns of a
      32-bit total, and none is before the 2^32nd port. */
  lemma {:induction false} PortsBalance(schedule: seq<Step>, maths: Maths)
    ensures Balanced(Run(Start(), schedule, maths), Discarded(schedule, maths), Wrapped(schedule, maths))
  {
    hide Start, InOrder, Balanced, Next, GoesRound, DiscardedBy;
    StartIsBalanced();
    if schedule != [] {
      var before := Init(schedule);
      PortsBalance(before, maths);
      RunKeepsOrder(Start(), before, maths);
      StepKeepsBalance(Run(Start(), before, maths), Last(schedule), Discarded(before, maths), Wrapped(before, maths), maths);
    }
  }
}
