/** The flow aggregator's state and its critical sections, as functions on values. */
module Aggregation {
  import opened Words
  import opened Telemetry
  import opened Flows
  import opened FlowStatistics
  import P = Ports

  const MAX_FLOWS_PER_SHARD: nat := 16384

  type FlowShard = map<FlowKey, FlowStats>
  type PortShard = map<u32, P.PortStats>

  datatype AggState = AggState(flows: seq<FlowShard>, ports: seq<PortShard>, droppedNewFlows: nat)

  /** All shards empty. */
  function NewAggregator(droppedNewFlows: nat): (s: AggState)
    ensures |s.flows| == NUM_SHARDS && |s.ports| == NUM_SHARDS && s.droppedNewFlows == droppedNewFlows
    ensures forall i :: 0 <= i < NUM_SHARDS ==> s.flows[i] == map[] && s.ports[i] == map[]
  {
    AggState(seq(NUM_SHARDS, _ => map[]), seq(NUM_SHARDS, _ => map[]), droppedNewFlows)
  }

  /** The floating-point functions the features and the classifier use. */
  datatype Maths = Maths(log2: real -> real, exp2: real -> real, sqrt: real -> real, sigmoid: real -> real)

  /** Every key is in its own shard. */
  predicate Routed(flows: seq<FlowShard>) {
    forall i | 0 <= i < |flows| :: forall k <- flows[i] :: ShardIndex(k) == i
  }

  /** Shards in place, keys only in their own shard, caps kept, statistics plausible. */
  predicate Sharded(s: AggState) {
    && |s.flows| == NUM_SHARDS && |s.ports| == NUM_SHARDS
    && (forall i | 0 <= i < NUM_SHARDS :: |s.flows[i]| <= MAX_FLOWS_PER_SHARD)
    && Routed(s.flows)
    && (forall i | 0 <= i < NUM_SHARDS :: forall k <- s.flows[i] :: Consistent(k, s.flows[i][k]))
    && (forall i | 0 <= i < NUM_SHARDS :: forall ip <- s.ports[i] :: SrcShardIndex(ip) == i)
  }

  /** A flow's statistics fit its key: its first packet came from one of the two ends. */
  predicate Consistent(k: FlowKey, s: FlowStats) {
    Plausible(s) && (s.firstSrcIp == k.ipLo || s.firstSrcIp == k.ipHi)
  }

  lemma NewIsSharded(droppedNewFlows: nat)
    ensures Sharded(NewAggregator(droppedNewFlows))
  {
  }

  function GetFlow(flows: seq<FlowShard>, k: FlowKey): Option<FlowStats>
    requires |flows| == NUM_SHARDS
  {
    var shard := flows[ShardIndex(k)];
    if k in shard then Some(shard[k]) else None
  }

  function PutFlow(flows: seq<FlowShard>, k: FlowKey, v: FlowStats): (r: seq<FlowShard>)
    requires |flows| == NUM_SHARDS
    ensures |r| == NUM_SHARDS
  {
    flows[ShardIndex(k) := flows[ShardIndex(k)][k := v]]
  }

  function GetTracker(ports: seq<PortShard>, ip: u32): Option<P.PortStats>
    requires |ports| == NUM_SHARDS
  {
    var shard := ports[SrcShardIndex(ip)];
    if ip in shard then Some(shard[ip]) else None
  }

  function PutTracker(ports: seq<PortShard>, ip: u32, v: P.PortStats): (r: seq<PortShard>)
    requires |ports| == NUM_SHARDS
    ensures |r| == NUM_SHARDS
  {
    var shard: PortShard := ports[SrcShardIndex(ip)][ip := v];
    ports[SrcShardIndex(ip) := shard]
  }

  lemma PutFlowTwice(flows: seq<FlowShard>, k: FlowKey, v: FlowStats, w: FlowStats)
    requires |flows| == NUM_SHARDS
    ensures GetFlow(PutFlow(flows, k, v), k) == Some(v)
    ensures PutFlow(PutFlow(flows, k, v), k, w) == PutFlow(flows, k, w)
  {
    var i := ShardIndex(k);
    hide ShardIndex;
    assert flows[i][k := v][k := w] == flows[i][k := w];
  }

  lemma PutTrackerTwice(ports: seq<PortShard>, ip: u32, v: P.PortStats, w: P.PortStats)
    requires |ports| == NUM_SHARDS
    ensures GetTracker(PutTracker(ports, ip, v), ip) == Some(v)
    ensures PutTracker(PutTracker(ports, ip, v), ip, w) == PutTracker(ports, ip, w)
  {
    var i := SrcShardIndex(ip);
    hide SrcShardIndex;
    var a: PortShard, b: PortShard := ports[i][ip := v][ip := w], ports[i][ip := w];
    assert a == b;
  }

  /** The flow is new and its shard is full. */
  predicate FullFor(flows: seq<FlowShard>, k: FlowKey)
    requires |flows| == NUM_SHARDS
  {
    GetFlow(flows, k).None? && |flows[ShardIndex(k)]| >= MAX_FLOWS_PER_SHARD
  }

  predicate Refuses(s: AggState, m: FlowPacketMeta)
    requires |s.flows| == NUM_SHARDS
  {
    FullFor(s.flows, KeyOf(m))
  }

  /** The first critical section of Ingest, on the flow shard. */
  function Entered(s: AggState, m: FlowPacketMeta): AggState
    requires |s.flows| == NUM_SHARDS
  {
    var k := KeyOf(m);
    if Refuses(s, m) then s.(droppedNewFlows := s.droppedNewFlows + 1)
    else s.(flows := PutFlow(s.flows, k, Observed(GetFlow(s.flows, k).UnwrapOr(EMPTY), m)))
  }

  /** The second critical section of Ingest, on the port shard. */
  function Recorded(s: AggState, m: FlowPacketMeta): AggState
    requires |s.ports| == NUM_SHARDS
  {
    var tracker := GetTracker(s.ports, m.srcIp).UnwrapOr(P.NO_PORTS);
    s.(ports := PutTracker(s.ports, m.srcIp, P.Observed(tracker, m.dstPort)))
  }

  /** Ingest with nothing in between its two sections. */
  function Ingested(s: AggState, m: FlowPacketMeta): AggState
    requires |s.flows| == NUM_SHARDS && |s.ports| == NUM_SHARDS
  {
    if Refuses(s, m) then Entered(s, m) else Recorded(Entered(s, m), m)
  }

  /** The feature vector of a finished flow. Addresses are four network-order bytes. */
  datatype FlowFeatures = FlowFeatures(
    srcIp: seq<u8>, dstIp: seq<u8>, srcPort: u16, dstPort: u16, protocol: u8,
    packetCount: nat, forwardCount: nat, reverseCount: nat, synCount: nat, ackPshCount: nat,
    iatStdDevNs: real, ratioFlow: real, portEntropyBits: real)

  function Max(a: nat, b: nat): nat {
    if a > b then a else b
  }

  function FeaturesOf(s: FlowStats, snapshot: PortShard, maths: Maths): FlowFeatures {
    FlowFeatures(
      Be32Bytes(s.firstSrcIp), Be32Bytes(s.firstDstIp), s.firstSrcPort, s.firstDstPort, s.protocol,
      s.packetCount, s.forwardCount, s.reverseCount, s.synCount, s.ackPshCount,
      StdDevOf(s, maths.sqrt),
      s.forwardCount as real / Max(s.reverseCount, 1) as real,
      if s.firstSrcIp in snapshot then P.EntropyOf(snapshot[s.firstSrcIp], maths.log2) else 0.0)
  }

  lemma ObservedIsConsistent(s: FlowStats, m: FlowPacketMeta)
    requires s == EMPTY || Consistent(KeyOf(m), s)
    ensures Consistent(KeyOf(m), Observed(s, m))
  {
  }

  lemma EnteredStaysSharded(s: AggState, m: FlowPacketMeta)
    requires Sharded(s)
    ensures Sharded(Entered(s, m))
  {
    hide ShardIndex, SrcShardIndex, KeyOf, Consistent, Observed;
    if !Refuses(s, m) {
      ObservedIsConsistent(GetFlow(s.flows, KeyOf(m)).UnwrapOr(EMPTY), m);
    }
  }

  lemma RecordedStaysSharded(s: AggState, m: FlowPacketMeta)
    requires Sharded(s)
    ensures Sharded(Recorded(s, m))
  {
  }

  /** The sharded table is one map: entering a packet changes the entry of its own key
      only, and it is refused only when its key is new and its shard is full. */
  lemma ShardedTableIsOneMap(s: AggState, m: FlowPacketMeta, k: FlowKey)
    requires Sharded(s)
    ensures var s' := Entered(s, m);
            && Sharded(s')
            && GetFlow(s'.flows, k) == (if k == KeyOf(m) && !Refuses(s, m)
                                 then Some(Observed(GetFlow(s.flows, k).UnwrapOr(EMPTY), m)) else GetFlow(s.flows, k))
            && (s'.droppedNewFlows > s.droppedNewFlows <==>
                  GetFlow(s.flows, KeyOf(m)).None? && |s.flows[ShardIndex(KeyOf(m))]| == MAX_FLOWS_PER_SHARD)
            && (forall i | 0 <= i < NUM_SHARDS :: k in s'.flows[i] ==> i == ShardIndex(k))
  {
    EnteredStaysSharded(s, m);
  }

  // ---- Flushing ----

  /** All port shards in one map. */
  function SnapshotOf(ports: seq<PortShard>): PortShard {
    if ports == [] then map[] else SnapshotOf(ports[..|ports| - 1]) + ports[|ports| - 1]
  }

  /** All flow shards in one map. */
  function TableOf(flows: seq<FlowShard>): FlowShard {
    if flows == [] then map[] else TableOf(flows[..|flows| - 1]) + flows[|flows| - 1]
  }

  /** The flow shards once the first `n` have been taken. */
  function Emptied(flows: seq<FlowShard>, n: nat): (r: seq<FlowShard>)
    ensures |r| == |flows|
  {
    seq(|flows|, j requires 0 <= j < |flows| => if j < n then map[] else flows[j])
  }

  lemma EmptiedStep(flows: seq<FlowShard>, n: nat)
    requires |flows| == NUM_SHARDS
    ensures Emptied(flows, 0) == flows
    ensures Emptied(flows, NUM_SHARDS) == NewAggregator(0).flows
    ensures n < NUM_SHARDS ==> Emptied(flows, n)[n] == flows[n] && Emptied(flows, n)[n := map[]] == Emptied(flows, n + 1)
  {
  }

  lemma RoutedPrefix(flows: seq<FlowShard>, n: nat)
    requires Routed(flows) && n <= |flows|
    ensures Routed(flows[..n])
  {
  }

  lemma {:induction false} TableHasWhatShardsHave(flows: seq<FlowShard>, k: FlowKey)
    requires |flows| <= NUM_SHARDS && Routed(flows)
    ensures k in TableOf(flows) <==> ShardIndex(k) < |flows| && k in flows[ShardIndex(k)]
    ensures k in TableOf(flows) ==> TableOf(flows)[k] == flows[ShardIndex(k)][k]
  {
    if flows != [] {
      RoutedPrefix(flows, |flows| - 1);
      TableHasWhatShardsHave(flows[..|flows| - 1], k);
    }
  }

  lemma {:induction false} SnapshotHasWhatShardsHave(ports: seq<PortShard>, ip: u32)
    requires |ports| <= NUM_SHARDS
    requires forall i | 0 <= i < |ports| :: forall j <- ports[i] :: SrcShardIndex(j) == i
    ensures ip in SnapshotOf(ports) <==> SrcShardIndex(ip) < |ports| && ip in ports[SrcShardIndex(ip)]
    ensures ip in SnapshotOf(ports) ==> SnapshotOf(ports)[ip] == ports[SrcShardIndex(ip)][ip]
  {
    if ports != [] {
      var rest := ports[..|ports| - 1];
      SnapshotHasWhatShardsHave(rest, ip);
      assert forall i | 0 <= i < |rest| :: rest[i] == ports[i];
    }
  }
}
