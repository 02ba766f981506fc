/** Every interleaving of the aggregator's critical sections: any number of Ingest
    calls, each in two separately locked sections, against a flush that snapshots the
    port shards and then takes and emits the flow shards one by one. */
module Interleavings {
  import opened Words
  import opened Telemetry
  import opened Flows
  import opened FlowStatistics
  import opened Aggregation
  import opened Channels
  import opened MapSums
  import P = Ports

  /** Where the flush goroutine is. `Draining(n, taken)` has taken the shards below `n`
      and still has to emit `taken`. */
  datatype FlushPc = Idle | Snapping(next: nat) | Draining(next: nat, taken: FlowShard)

  datatype Sys = Sys(
    agg: AggState,
    inside: multiset<FlowPacketMeta>,   // admitted, not yet in a port tracker
    pc: FlushPc, snapshot: PortShard,
    out: seq<FlowFeatures>, received: nat, droppedOutput: nat,
    // tallies of what has happened so far
    entered: nat, recorded: nat, sent: nat, flushedFlows: nat, flushedPackets: nat)

  datatype Step =
    | Enter(m: FlowPacketMeta)
    | Record(m: FlowPacketMeta)
    | StartFlush
    | SnapShard
    | TakeShard
    | EmitFlow(key: FlowKey)
    | EndFlush
    | Receive

  function Start(): (s: Sys)
    ensures s.agg == NewAggregator(0) && s.pc == Idle && s.out == []
  {
    Sys(NewAggregator(0), multiset{}, Idle, map[], [], 0, 0, 0, 0, 0, 0, 0)
  }

  predicate InShape(s: Sys) {
    && |s.agg.flows| == NUM_SHARDS && |s.agg.ports| == NUM_SHARDS
    && (s.pc.Snapping? ==> s.pc.next < NUM_SHARDS)
    && (s.pc.Draining? ==> s.pc.next <= NUM_SHARDS)
  }

  predicate Enabled(s: Sys, step: Step) {
    match step
    case Enter(_) => true
    case Record(m) => m in s.inside
    case StartFlush => s.pc.Idle?
    case SnapShard => s.pc.Snapping?
    case TakeShard => s.pc.Draining? && s.pc.taken == map[] && s.pc.next < NUM_SHARDS
    case EmitFlow(k) => s.pc.Draining? && k in s.pc.taken
    case EndFlush => s.pc.Draining? && s.pc.taken == map[] && s.pc.next == NUM_SHARDS
    case Receive => s.out != []
  }

  function Features(s: Sys, key: FlowKey, maths: Maths): FlowFeatures
    requires s.pc.Draining? && key in s.pc.taken
  {
    FeaturesOf(s.pc.taken[key], s.snapshot, maths)
  }

  function Flushed(s: Sys, k: FlowKey): Sys
    requires s.pc.Draining? && k in s.pc.taken
  {
    s.(pc := Draining(s.pc.next, s.pc.taken - {k}), flushedFlows := s.flushedFlows + 1,
       flushedPackets := s.flushedPackets + s.pc.taken[k].packetCount)
  }

  /** A send that never blocks: a full channel drops the features. */
  function Offered(s: Sys, f: FlowFeatures): Sys {
    if |s.out| < OUTPUT_BUFFER then s.(out := s.out + [f], sent := s.sent + 1)
    else s.(droppedOutput := s.droppedOutput + 1)
  }

  function Done(s: Sys, step: Step, maths: Maths): Sys
    requires InShape(s) && Enabled(s, step)
  {
    match step
    case Enter(m) =>
      s.(agg := Entered(s.agg, m), entered := s.entered + 1,
         inside := if Refuses(s.agg, m) then s.inside else s.inside + multiset{m})
    case Record(m) =>
      s.(agg := Recorded(s.agg, m), inside := s.inside - multiset{m}, recorded := s.recorded + 1)
    case StartFlush =>
      s.(pc := Snapping(0), snapshot := map[])
    case SnapShard =>
      var i := s.pc.next;
      s.(snapshot := s.snapshot + s.agg.ports[i], agg := s.agg.(ports := s.agg.ports[i := map[]]),
         pc := if i + 1 == NUM_SHARDS then Draining(0, map[]) else Snapping(i + 1))
    case TakeShard =>
      var i := s.pc.next;
      s.(agg := s.agg.(flows := s.agg.flows[i := map[]]), pc := Draining(i + 1, s.agg.flows[i]))
    case EmitFlow(k) =>
      Offered(Flushed(s, k), Features(s, k, maths))
    case EndFlush =>
      s.(pc := Idle)
    case Receive =>
      s.(out := s.out[1..], received := s.received + 1)
  }

  /** Takes the step if it is possible now, and otherwise waits. */
  function Next(s: Sys, step: Step, maths: Maths): (t: Sys)
    requires InShape(s)
    ensures InShape(t)
  {
    if Enabled(s, step) then Done(s, step, maths) else s
  }

  lemma EnterOnlyEnters(s: Sys, m: FlowPacketMeta, maths: Maths)
    requires InShape(s)
    ensures var t := Next(s, Enter(m), maths);
            t.agg == Entered(s.agg, m) && t.pc == s.pc && Taken(t) == Taken(s) && t.snapshot == s.snapshot
  {
    hide Entered;
  }

  /** The state after a schedule. */
  function Run(s: Sys, schedule: seq<Step>, maths: Maths): (t: Sys)
    requires InShape(s)
    ensures InShape(t)
  {
    if schedule == [] then s else Next(Run(s, Init(schedule), maths), Last(schedule), maths)
  }

  // ---- Conservation ----

  function Packets(s: FlowStats): nat {
    s.packetCount
  }

  function Taken(s: Sys): FlowShard {
    if s.pc.Draining? then s.pc.taken else map[]
  }

  /** Every packet that came in is accounted for, wherever the flush has got to. */
  ghost predicate Conserved(s: Sys) {
    && s.entered == s.agg.droppedNewFlows + RowSum(s.agg.flows, Packets) + SumBy(Taken(s), Packets) + s.flushedPackets
    && s.entered == s.agg.droppedNewFlows + s.recorded + |s.inside|
    && s.flushedFlows == s.sent + s.droppedOutput
    && s.sent == s.received + |s.out| && |s.out| <= OUTPUT_BUFFER
  }

  lemma EnterConserves(s: Sys, m: FlowPacketMeta, maths: Maths)
    requires InShape(s) && Conserved(s)
    ensures Conserved(Done(s, Enter(m), maths))
  {
    if !Refuses(s.agg, m) {
      var i, k := ShardIndex(KeyOf(m)), KeyOf(m);
      var old' := GetFlow(s.agg.flows, k).UnwrapOr(EMPTY);
      var new' := Observed(old', m);
      ObservedCounts(old', m);
      SumByUpdate(s.agg.flows[i], Packets, k, new');
      RowSumUpdate(s.agg.flows, Packets, i, s.agg.flows[i][k := new']);
    }
  }

  lemma EmitConserves(s: Sys, k: FlowKey, maths: Maths)
    requires InShape(s) && Conserved(s) && Enabled(s, EmitFlow(k))
    ensures Conserved(Done(s, EmitFlow(k), maths))
  {
    hide Features, RowSum;
    SumByWithout(s.pc.taken, Packets, k);
  }

  lemma StepConserves(s: Sys, step: Step, maths: Maths)
    requires InShape(s) && Conserved(s)
    ensures Conserved(Next(s, step, maths))
  {
    hide Entered, Refuses, Features, Offered, Flushed, PutTracker, GetTracker;
    if Enabled(s, step) {
      match step
      case Enter(m) => EnterConserves(s, m, maths);
      case TakeShard =>
        RowSumUpdate(s.agg.flows, Packets, s.pc.next, map[]);
      case EmitFlow(k) => EmitConserves(s, k, maths);
      case Record(m) =>
      case StartFlush =>
      case SnapShard =>
      case EndFlush =>
      case Receive =>
    }
  }

  /** Conservation under every interleaving. */
  lemma {:induction false} AllSchedulesConserve(s: Sys, schedule: seq<Step>, maths: Maths)
    requires InShape(s) && Conserved(s)
    ensures Conserved(Run(s, schedule, maths))
  {
    if schedule != [] {
      AllSchedulesConserve(s, Init(schedule), maths);
      StepConserves(Run(s, Init(schedule), maths), Last(schedule), maths);
    }
  }

  lemma StartIsConserved()
    ensures InShape(Start()) && Conserved(Start()) && Sharded(Start().agg)
  {
    hide NewAggregator, Sharded;
    NewIsSharded(0);
    RowSumOfEmpty(NewAggregator(0).flows, Packets);
  }

  /** The shards stay in order under every interleaving, too. */
  lemma StepKeepsSharded(s: Sys, step: Step, maths: Maths)
    requires InShape(s) && Sharded(s.agg)
    ensures Sharded(Next(s, step, maths).agg)
  {
    if Enabled(s, step) {
      hide Features, Consistent, Entered, Recorded;
      match step
      case Enter(m) => EnteredStaysSharded(s.agg, m);
      case Record(m) => RecordedStaysSharded(s.agg, m);
      case StartFlush =>
      case SnapShard =>
      case TakeShard =>
      case EmitFlow(k) =>
      case EndFlush =>
      case Receive =>
    }
  }

  // ---- With flush atomic ----

  /** Ingest and flush, each as one step. */
  datatype WindowEvent = IngestAll(m: FlowPacketMeta) | FlushAll

  function AfterEvent(s: AggState, e: WindowEvent): AggState
    requires |s.flows| == NUM_SHARDS && |s.ports| == NUM_SHARDS
  {
    match e
    case IngestAll(m) => Ingested(s, m)
    case FlushAll => NewAggregator(s.droppedNewFlows)
  }

  function Observations(p: P.PortStats): nat {
    p.total
  }

  predicate IsEndpoint(flows: seq<FlowShard>, ip: u32) {
    exists i, k :: 0 <= i < |flows| && k in flows[i] && (k.ipLo == ip || k.ipHi == ip)
  }

  predicate IsTracked(ports: seq<PortShard>, ip: u32)
    requires |ports| == NUM_SHARDS
  {
    ip in ports[SrcShardIndex(ip)]
  }

  predicate FirstSourcesTracked(flows: seq<FlowShard>, ports: seq<PortShard>)
    requires |ports| == NUM_SHARDS
  {
    forall i | 0 <= i < |flows| :: forall k <- flows[i] :: IsTracked(ports, flows[i][k].firstSrcIp)
  }

  predicate TrackersAreEnds(flows: seq<FlowShard>, ports: seq<PortShard>) {
    forall i | 0 <= i < |ports| :: forall ip <- ports[i] :: IsEndpoint(flows, ip)
  }

  /** The port trackers describe exactly the packets of the flows. */
  ghost predicate InStep(s: AggState)
    requires |s.flows| == NUM_SHARDS && |s.ports| == NUM_SHARDS
  {
    && RowSum(s.ports, Observations) == RowSum(s.flows, Packets)
    && FirstSourcesTracked(s.flows, s.ports)
    && TrackersAreEnds(s.flows, s.ports)
  }

  lemma {:induction false} ShardWithinRow<K, V>(row: seq<map<K, V>>, f: V -> nat, i: nat)
    requires i < |row|
    ensures SumBy(row[i], f) <= RowSum(row, f)
  {
    if i < |row| - 1 {
      ShardWithinRow(row[..|row| - 1], f, i);
    }
  }

  lemma TrackerWithinTotal(s: AggState, ip: u32)
    requires |s.ports| == NUM_SHARDS && GetTracker(s.ports, ip).Some?
    ensures GetTracker(s.ports, ip).value.total <= RowSum(s.ports, Observations)
  {
    var i := SrcShardIndex(ip);
    SumByWithout(s.ports[i], Observations, ip);
    ShardWithinRow(s.ports, Observations, i);
  }

  lemma EnteredTotals(s: AggState, m: FlowPacketMeta)
    requires |s.flows| == NUM_SHARDS && !Refuses(s, m)
    ensures RowSum(Entered(s, m).flows, Packets) == RowSum(s.flows, Packets) + 1
  {
    var i, k := ShardIndex(KeyOf(m)), KeyOf(m);
    var flow := GetFlow(s.flows, k).UnwrapOr(EMPTY);
    var flow' := FlowStatistics.Observed(flow, m);
    ObservedCounts(flow, m);
    hide FlowStatistics.Observed, ShardIndex, KeyOf;
    SumByUpdate(s.flows[i], Packets, k, flow');
    RowSumUpdate(s.flows, Packets, i, s.flows[i][k := flow']);
  }

  /** The packet's tracker is full: one more observation takes its total round to zero. */
  predicate Wraps(s: AggState, m: FlowPacketMeta)
    requires |s.ports| == NUM_SHARDS
  {
    GetTracker(s.ports, m.srcIp).UnwrapOr(P.NO_PORTS).total == 0xFFFF_FFFF
  }

  lemma OneMoreInTotal(t: P.PortStats, port: u16)
    ensures P.Observed(t, port).total + 0x1_0000_0000 * One(t.total == 0xFFFF_FFFF) == t.total + 1
  {
  }

  lemma RecordedTotals(s: AggState, m: FlowPacketMeta)
    requires |s.ports| == NUM_SHARDS
    ensures RowSum(Recorded(s, m).ports, Observations) + 0x1_0000_0000 * One(Wraps(s, m))
            == RowSum(s.ports, Observations) + 1
    ensures Wraps(s, m) ==> RowSum(s.ports, Observations) >= 0xFFFF_FFFF
  {
    var j := SrcShardIndex(m.srcIp);
    var tracker := GetTracker(s.ports, m.srcIp).UnwrapOr(P.NO_PORTS);
    if GetTracker(s.ports, m.srcIp).Some? {
      TrackerWithinTotal(s, m.srcIp);
    }
    var tracker' := P.Observed(tracker, m.dstPort);
    OneMoreInTotal(tracker, m.dstPort);
    hide P.Observed, SrcShardIndex;
    var shard: PortShard := s.ports[j][m.srcIp := tracker'];
    SumByUpdate(s.ports[j], Observations, m.srcIp, tracker');
    RowSumUpdate(s.ports, Observations, j, shard);
  }

  lemma IngestKeepsTotals(s: AggState, m: FlowPacketMeta)
    requires |s.flows| == NUM_SHARDS && |s.ports| == NUM_SHARDS && !Refuses(s, m)
    requires RowSum(s.ports, Observations) + 1 < 0x1_0000_0000
    ensures RowSum(Ingested(s, m).flows, Packets) == RowSum(s.flows, Packets) + 1
    ensures RowSum(Ingested(s, m).ports, Observations) == RowSum(s.ports, Observations) + 1
  {
    EnteredTotals(s, m);
    RecordedTotals(Entered(s, m), m);
  }

  lemma IngestAddsAtMostOne(s: AggState, m: FlowPacketMeta)
    requires |s.flows| == NUM_SHARDS && |s.ports| == NUM_SHARDS
    requires RowSum(s.ports, Observations) + 1 < 0x1_0000_0000
    ensures RowSum(Ingested(s, m).ports, Observations) <= RowSum(s.ports, Observations) + 1
  {
    if !Refuses(s, m) {
      IngestKeepsTotals(s, m);
    }
  }

  lemma EndpointsAreKept(s: AggState, m: FlowPacketMeta, ip: u32)
    requires |s.flows| == NUM_SHARDS && |s.ports| == NUM_SHARDS && !Refuses(s, m)
    requires IsEndpoint(s.flows, ip) || ip == m.srcIp
    ensures IsEndpoint(Ingested(s, m).flows, ip)
  {
    var s' := Ingested(s, m);
    hide FlowStatistics.Observed, ShardIndex, KeyOf, PutTracker, GetTracker;
    var here, k := ShardIndex(KeyOf(m)), KeyOf(m);
    if ip == m.srcIp {
      assert k in s'.flows[here];
    } else {
      var i, j :| 0 <= i < NUM_SHARDS && j in s.flows[i] && (j.ipLo == ip || j.ipHi == ip);
      assert j in s'.flows[i];
    }
  }

  lemma IngestKeepsEnds(s: AggState, m: FlowPacketMeta)
    requires |s.flows| == NUM_SHARDS && |s.ports| == NUM_SHARDS && TrackersAreEnds(s.flows, s.ports) && !Refuses(s, m)
    ensures TrackersAreEnds(Ingested(s, m).flows, Ingested(s, m).ports)
  {
    var s' := Ingested(s, m);
    forall i, ip | 0 <= i < NUM_SHARDS && ip in s'.ports[i] ensures IsEndpoint(s'.flows, ip) {
      assert ip == m.srcIp || ip in s.ports[i];
      EndpointsAreKept(s, m, ip);
    }
  }

  lemma IngestKeepsFirstSources(s: AggState, m: FlowPacketMeta)
    requires Sharded(s) && FirstSourcesTracked(s.flows, s.ports) && !Refuses(s, m)
    ensures FirstSourcesTracked(Ingested(s, m).flows, Ingested(s, m).ports)
  {
    var s' := Ingested(s, m);
    forall i, k | 0 <= i < NUM_SHARDS && k in s'.flows[i]
      ensures IsTracked(s'.ports, s'.flows[i][k].firstSrcIp)
    {
      FirstSourceIsTracked(s, m, i, k);
    }
  }

  lemma IngestKeepsInStep(s: AggState, m: FlowPacketMeta)
    requires Sharded(s) && InStep(s) && RowSum(s.ports, Observations) + 1 < 0x1_0000_0000
    ensures Sharded(Ingested(s, m)) && InStep(Ingested(s, m))
  {
    EnteredStaysSharded(s, m);
    if !Refuses(s, m) {
      hide Sharded, Entered, Recorded, TrackersAreEnds, FirstSourcesTracked, Refuses;
      RecordedStaysSharded(Entered(s, m), m);
      IngestKeepsTotals(s, m);
      IngestKeepsEnds(s, m);
      IngestKeepsFirstSources(s, m);
    }
  }

  lemma FirstSourceIsTracked(s: AggState, m: FlowPacketMeta, i: nat, k: FlowKey)
    requires Sharded(s) && FirstSourcesTracked(s.flows, s.ports) && !Refuses(s, m) && i < NUM_SHARDS
    requires k in Ingested(s, m).flows[i]
    ensures IsTracked(Ingested(s, m).ports, Ingested(s, m).flows[i][k].firstSrcIp)
  {
    var s' := Ingested(s, m);
    if k == KeyOf(m) && i == ShardIndex(k) {
      var flow := GetFlow(s.flows, k).UnwrapOr(EMPTY);
      ObservedIsPlausible(flow, m);
      if k in s.flows[i] {
        assert IsTracked(s.ports, s.flows[i][k].firstSrcIp);
      }
    } else {
      assert s'.flows[i][k] == s.flows[i][k];
      assert IsTracked(s.ports, s.flows[i][k].firstSrcIp);
    }
  }

  /** No window, from one flush to the next, takes in 2^32 packets; the one under way
      has taken in `n`. */
  predicate WindowsFit(n: nat, events: seq<WindowEvent>)
    decreases |events|
  {
    && n < 0x1_0000_0000
    && (events != [] ==> WindowsFit(if events[0].FlushAll? then 0 else n + 1, events[1..]))
  }

  ghost predicate Follows(s: AggState, events: seq<WindowEvent>, end: AggState)
    requires |s.flows| == NUM_SHARDS && |s.ports| == NUM_SHARDS
    decreases |events|
  {
    if events == [] then end == s else Follows(AfterEvent(s, events[0]), events[1..], end)
  }

  /** With flush atomic, the trackers stay in step with the flows over every run: tracker
      totals sum to packet counts, every tracked source is an end of a live flow, and
      every live flow finds its first source among the trackers. */
  lemma {:induction false} TrackersStayInStep(s: AggState, n: nat, events: seq<WindowEvent>, end: AggState)
    requires Sharded(s) && InStep(s) && Follows(s, events, end)
    requires RowSum(s.ports, Observations) <= n && WindowsFit(n, events)
    ensures Sharded(end) && InStep(end)
    decreases |events|
  {
    if events != [] {
      var e, s' := events[0], AfterEvent(s, events[0]);
      assert WindowsFit(if e.FlushAll? then 0 else n + 1, events[1..]);
      EventKeepsInStep(s, n, e);
      hide Sharded, InStep, AfterEvent, RowSum;
      TrackersStayInStep(s', if e.FlushAll? then 0 else n + 1, events[1..], end);
    }
  }

  lemma EventKeepsInStep(s: AggState, n: nat, e: WindowEvent)
    requires Sharded(s) && InStep(s) && RowSum(s.ports, Observations) <= n
    requires e.IngestAll? ==> n + 1 < 0x1_0000_0000
    ensures var s' := AfterEvent(s, e);
            && Sharded(s') && InStep(s')
            && RowSum(s'.ports, Observations) <= if e.FlushAll? then 0 else n + 1
  {
    assert |s.flows| == NUM_SHARDS && |s.ports| == NUM_SHARDS;
    hide Sharded, InStep, Ingested;
    match e
    case IngestAll(m) =>
      IngestKeepsInStep(s, m);
      IngestAddsAtMostOne(s, m);
    case FlushAll =>
      EmptyIsInStep(AfterEvent(s, e));
  }

  lemma EmptyIsInStep(s: AggState)
    requires s == NewAggregator(s.droppedNewFlows)
    ensures Sharded(s) && InStep(s) && RowSum(s.ports, Observations) == 0
  {
    RowSumOfEmpty(s.flows, Packets);
    RowSumOfEmpty(s.ports, Observations);
  }

  /** Each flow a flush emits finds its first source in the port snapshot. */
  lemma FlushedFlowsFindTheirPorts(s: AggState, k: FlowKey)
    requires Sharded(s) && InStep(s) && k in TableOf(s.flows)
    ensures TableOf(s.flows)[k].firstSrcIp in SnapshotOf(s.ports)
  {
    hide TableOf, SnapshotOf, ShardIndex, SrcShardIndex, TrackersAreEnds, Consistent;
    TableHasWhatShardsHave(s.flows, k);
    var ip := TableOf(s.flows)[k].firstSrcIp;
    assert IsTracked(s.ports, ip);
    SnapshotHasWhatShardsHave(s.ports, ip);
  }

  function Sources(s: AggState): set<u32>
    requires |s.ports| == NUM_SHARDS
  {
    set i, ip | 0 <= i < NUM_SHARDS && ip in s.ports[i] :: ip
  }

  function LiveKeys(s: AggState): set<FlowKey>
    requires |s.flows| == NUM_SHARDS
  {
    set i, k | 0 <= i < NUM_SHARDS && k in s.flows[i] :: k
  }

  function KeysBelow(flows: seq<FlowShard>, n: nat): set<FlowKey>
    requires n <= |flows|
  {
    if n == 0 then {} else KeysBelow(flows, n - 1) + flows[n - 1].Keys
  }

  lemma {:induction false} KeysBelowAreBounded(flows: seq<FlowShard>, n: nat)
    requires n <= |flows| && forall i | 0 <= i < |flows| :: |flows[i]| <= 16_384
    ensures |KeysBelow(flows, n)| <= 16_384 * n
    ensures forall i, k | 0 <= i < n && k in flows[i] :: k in KeysBelow(flows, n)
  {
    if n > 0 {
      KeysBelowAreBounded(flows, n - 1);
      assert |flows[n - 1].Keys| == |flows[n - 1]|;
    }
  }

  /** However many packets come in, at most 262,144 flows are live at once. */
  lemma {:induction false} LiveFlowsAreBounded(s: AggState)
    requires Sharded(s)
    ensures |LiveKeys(s)| <= 262_144
  {
    KeysBelowAreBounded(s.flows, NUM_SHARDS);
    hide Consistent, ShardIndex, SrcShardIndex;
    KeySubset(LiveKeys(s), KeysBelow(s.flows, NUM_SHARDS));
  }

  lemma KeySubset(a: set<FlowKey>, b: set<FlowKey>)
    requires a <= b
    ensures |a| <= |b|
  {
    if a != {} {
      var x :| x in a;
      KeySubset(a - {x}, b - {x});
    }
  }

  lemma ImageIsNoLarger(keys: set<FlowKey>, f: FlowKey -> u32)
    ensures |set k | k in keys :: f(k)| <= |keys|
    decreases |keys|
  {
    if keys != {} {
      var k :| k in keys;
      ImageIsNoLarger(keys - {k}, f);
      assert (set j | j in keys :: f(j)) == (set j | j in keys - {k} :: f(j)) + {f(k)};
    }
  }

  lemma UnionIsNoLarger(a: set<u32>, b: set<u32>, c: set<u32>)
    requires a <= b + c
    ensures |a| <= |b| + |c|
    decreases |a|
  {
    if a != {} {
      var x :| x in a;
      UnionIsNoLarger(a - {x}, b - {x}, c - {x});
    }
  }

  lemma SourcesAreEnds(s: AggState, ip: u32)
    requires |s.flows| == NUM_SHARDS && |s.ports| == NUM_SHARDS && TrackersAreEnds(s.flows, s.ports) && ip in Sources(s)
    ensures exists k <- LiveKeys(s) :: k.ipLo == ip || k.ipHi == ip
  {
  }

  /** So memory for trackers is bounded by memory for flows. */
  lemma TrackersAtMostTwicePerFlow(s: AggState)
    requires |s.flows| == NUM_SHARDS && |s.ports| == NUM_SHARDS && TrackersAreEnds(s.flows, s.ports)
    ensures |Sources(s)| <= 2 * |LiveKeys(s)|
  {
    var keys, sources := LiveKeys(s), Sources(s);
    forall ip | ip in sources ensures exists k <- keys :: k.ipLo == ip || k.ipHi == ip {
      SourcesAreEnds(s, ip);
    }
    EndsAtMostTwice(sources, keys);
  }

  lemma EndsAtMostTwice(ips: set<u32>, keys: set<FlowKey>)
    requires forall ip <- ips :: exists k <- keys :: k.ipLo == ip || k.ipHi == ip
    ensures |ips| <= 2 * |keys|
  {
    var lo := (k: FlowKey) => k.ipLo;
    var hi := (k: FlowKey) => k.ipHi;
    var los, his := set k | k in keys :: lo(k), set k | k in keys :: hi(k);
    ImageIsNoLarger(keys, lo);
    ImageIsNoLarger(keys, hi);
    forall ip | ip in ips ensures ip in los + his {
      var k :| k in keys && (k.ipLo == ip || k.ipHi == ip);
      assert lo(k) in los && hi(k) in his;
    }
    UnionIsNoLarger(ips, los, his);
  }
}
