/** The two sharded tables of the aggregator, as objects whose entries are updated in
    place. Each carries the map of values it stands for as its model. */
module Tables {
  import opened Words
  import opened Telemetry
  import opened Flows
  import opened FlowStatistics
  import opened Aggregation
  import P = Ports

  /** A map of objects that stand, key by key, for a map of values. */
  ghost predicate FlowsMirror(taken: map<FlowKey, FlowAccumulator>, values: FlowShard)
    reads taken.Values
  {
    taken.Keys == values.Keys && forall k <- taken :: taken[k].View() == values[k]
  }

  ghost predicate PortsMirror(taken: map<u32, P.PortTracker>, values: PortShard)
    reads taken.Values
  {
    taken.Keys == values.Keys && forall ip <- taken :: taken[ip].View() == values[ip]
  }

  lemma PortsMirrorUnion(a: map<u32, P.PortTracker>, b: map<u32, P.PortTracker>, va: PortShard, vb: PortShard)
    requires PortsMirror(a, va) && PortsMirror(b, vb)
    ensures PortsMirror(a + b, va + vb)
  {
  }

  /** An accumulator that was made for a key and holds these statistics. */
  ghost predicate FlowEntry(owner: map<FlowAccumulator, FlowKey>, repr: set<object>, fa: FlowAccumulator, k: FlowKey, s: FlowStats)
    reads fa
  {
    fa in repr && fa in owner && owner[fa] == k && fa.View() == s
  }

  ghost predicate PortEntry(owner: map<P.PortTracker, u32>, repr: set<object>, pt: P.PortTracker, ip: u32, s: P.PortStats)
    reads pt
  {
    pt in repr && pt in owner && owner[pt] == ip && pt.View() == s
  }

  class FlowTable {
    var shards: seq<map<FlowKey, FlowAccumulator>>
    ghost var model: seq<FlowShard>
    /** Which key each accumulator was made for: no two entries share one. */
    ghost var owner: map<FlowAccumulator, FlowKey>
    ghost var repr: set<object>

    ghost predicate Valid()
      reads this, repr
      ensures Valid() ==> this in repr && |model| == NUM_SHARDS
    {
      && this in repr && |shards| == NUM_SHARDS && |model| == NUM_SHARDS
      && (forall i | 0 <= i < NUM_SHARDS :: shards[i].Keys == model[i].Keys)
      && (forall i | 0 <= i < NUM_SHARDS :: forall k <- shards[i] :: ShardIndex(k) == i)
      && (forall i | 0 <= i < NUM_SHARDS :: forall k <- shards[i] ::
            shards[i][k] in repr && FlowEntry(owner, repr, shards[i][k], k, model[i][k]))
    }

    predicate Contains(k: FlowKey)
      requires Valid()
      reads this, repr
      ensures |model| == NUM_SHARDS && (Contains(k) <==> GetFlow(model, k).Some?)
    {
      k in shards[ShardIndex(k)]
    }

    function ShardSize(i: nat): nat
      requires Valid() && i < NUM_SHARDS
      reads this, repr
      ensures |model| == NUM_SHARDS && ShardSize(i) == |model[i]|
    {
      assert |shards[i]| == |shards[i].Keys| && |model[i]| == |model[i].Keys|;
      |shards[i]|
    }

    constructor ()
      ensures Valid() && fresh(repr) && model == NewAggregator(0).flows
    {
      shards, model, owner, repr := seq(NUM_SHARDS, _ => map[]), NewAggregator(0).flows, map[], {this};
    }

    method Add(k: FlowKey)
      requires Valid() && !Contains(k)
      modifies repr
      ensures Valid() && fresh(repr - old(repr))
      ensures model == PutFlow(old(model), k, EMPTY)
    {
      hide FlowAccumulator.View, ShardIndex;
      var fa := Allocate(k);
      var i := ShardIndex(k);
      shards := shards[i := shards[i][k := fa]];
      model := model[i := model[i][k := EMPTY]];
    }

    method Allocate(k: FlowKey) returns (fa: FlowAccumulator)
      requires Valid()
      modifies this`owner, this`repr
      ensures Valid() && fresh(repr - old(repr)) && FlowEntry(owner, repr, fa, k, EMPTY)
    {
      hide FlowAccumulator.View, ShardIndex;
      fa := new FlowAccumulator();
      repr := repr + {fa};
      owner := owner[fa := k];
    }

    method Observe(k: FlowKey, m: FlowPacketMeta, srcIsLo: bool)
      requires Valid() && Contains(k) && srcIsLo == SrcIsLo(m)
      modifies repr
      ensures Valid() && repr == old(repr)
      ensures model == PutFlow(old(model), k, Observed(GetFlow(old(model), k).value, m))
    {
      hide FlowAccumulator.View, Observed, SrcIsLo, ShardIndex;
      var i := ShardIndex(k);
      var fa := shards[i][k];
      ghost var before := model;
      assert FlowEntry(owner, repr, fa, k, model[i][k]);
      fa.Observe(m, srcIsLo);
      model := model[i := model[i][k := Observed(model[i][k], m)]];
      forall j, l | 0 <= j < NUM_SHARDS && l in shards[j] ensures FlowEntry(owner, repr, shards[j][l], l, model[j][l]) {
        assert old(FlowEntry(owner, repr, shards[j][l], l, before[j][l]));
      }
    }

    /** Books a packet under its flow, unless the flow is new and its shard is full. */
    method Enter(m: FlowPacketMeta) returns (admitted: bool)
      requires Valid()
      modifies repr
      ensures Valid() && fresh(repr - old(repr)) && |old(model)| == NUM_SHARDS
      ensures admitted == !FullFor(old(model), KeyOf(m))
      ensures var k := KeyOf(m);
              model == if admitted then PutFlow(old(model), k, Observed(GetFlow(old(model), k).UnwrapOr(EMPTY), m)) else old(model)
    {
      hide Observed, KeyOf, ShardIndex, SrcIsLo, Valid, Contains, ShardSize, PutFlow, GetFlow;
      var key, srcIsLo := KeyOf(m), SrcIsLo(m);
      var i := ShardIndex(key);
      if !Contains(key) {
        if ShardSize(i) >= MAX_FLOWS_PER_SHARD {
          return false;
        }
        PutFlowTwice(model, key, EMPTY, Observed(EMPTY, m));
        Add(key);
      }
      Observe(key, m, srcIsLo);
      return true;
    }

    /** Hands out a shard's accumulators and leaves it empty. */
    method Take(i: nat) returns (taken: map<FlowKey, FlowAccumulator>)
      requires Valid() && i < NUM_SHARDS
      modifies this`shards, this`model
      ensures Valid() && model == old(model)[i := map[]]
      ensures FlowsMirror(taken, old(model)[i])
    {
      hide FlowAccumulator.View, ShardIndex;
      taken := shards[i];
      assert forall k <- taken :: FlowEntry(owner, repr, taken[k], k, model[i][k]);
      shards := shards[i := map[]];
      model := model[i := map[]];
    }
  }

  lemma SnapshotGrows(ports: seq<PortShard>, i: nat)
    requires i < |ports|
    ensures SnapshotOf(ports[..i + 1]) == SnapshotOf(ports[..i]) + ports[i]
  {
    assert ports[..i + 1][..i] == ports[..i];
  }

  lemma AllPortsGone(ports: seq<PortShard>)
    requires |ports| == NUM_SHARDS && forall j | 0 <= j < NUM_SHARDS :: ports[j] == map[]
    ensures ports == NewAggregator(0).ports
  {
  }

  class PortTable {
    var shards: seq<map<u32, P.PortTracker>>
    ghost var model: seq<PortShard>
    ghost var owner: map<P.PortTracker, u32>
    ghost var repr: set<object>

    ghost predicate Valid()
      reads this, repr
      ensures Valid() ==> this in repr && |model| == NUM_SHARDS
    {
      && this in repr && |shards| == NUM_SHARDS && |model| == NUM_SHARDS
      && (forall i | 0 <= i < NUM_SHARDS :: shards[i].Keys == model[i].Keys)
      && (forall i | 0 <= i < NUM_SHARDS :: forall ip <- shards[i] :: SrcShardIndex(ip) == i)
      && (forall i | 0 <= i < NUM_SHARDS :: forall ip <- shards[i] ::
            shards[i][ip] in repr && PortEntry(owner, repr, shards[i][ip], ip, model[i][ip]))
    }

    predicate Contains(ip: u32)
      requires Valid()
      reads this, repr
      ensures |model| == NUM_SHARDS && (Contains(ip) <==> GetTracker(model, ip).Some?)
    {
      ip in shards[SrcShardIndex(ip)]
    }

    constructor ()
      ensures Valid() && fresh(repr) && model == NewAggregator(0).ports
    {
      shards, model, owner, repr := seq(NUM_SHARDS, _ => map[]), NewAggregator(0).ports, map[], {this};
    }

    method Add(ip: u32)
      requires Valid() && !Contains(ip)
      modifies repr
      ensures Valid() && fresh(repr - old(repr))
      ensures model == PutTracker(old(model), ip, P.NO_PORTS)
    {
      hide P.PortTracker.View, SrcShardIndex;
      var pt := Allocate(ip);
      var i := SrcShardIndex(ip);
      var shard: map<u32, P.PortTracker> := shards[i][ip := pt];
      ghost var values: PortShard := model[i][ip := P.NO_PORTS];
      shards := shards[i := shard];
      model := model[i := values];
    }

    method Allocate(ip: u32) returns (pt: P.PortTracker)
      requires Valid()
      modifies this`owner, this`repr
      ensures Valid() && fresh(repr - old(repr)) && PortEntry(owner, repr, pt, ip, P.NO_PORTS)
    {
      hide P.PortTracker.View, SrcShardIndex;
      pt := new P.PortTracker();
      repr := repr + {pt};
      owner := owner[pt := ip];
    }

    method Observe(ip: u32, dstPort: u16)
      requires Valid() && Contains(ip)
      modifies repr
      ensures Valid() && repr == old(repr)
      ensures model == PutTracker(old(model), ip, P.Observed(GetTracker(old(model), ip).value, dstPort))
    {
      hide P.PortTracker.View, P.Observed, SrcShardIndex;
      var i := SrcShardIndex(ip);
      var pt := shards[i][ip];
      ghost var before := model;
      assert PortEntry(owner, repr, pt, ip, model[i][ip]);
      pt.Observe(dstPort);
      ghost var values: PortShard := model[i][ip := P.Observed(model[i][ip], dstPort)];
      model := model[i := values];
      forall j, l | 0 <= j < NUM_SHARDS && l in shards[j] ensures PortEntry(owner, repr, shards[j][l], l, model[j][l]) {
        assert old(PortEntry(owner, repr, shards[j][l], l, before[j][l]));
      }
    }

    /** Books a destination port under its source. */
    method Record(ip: u32, dstPort: u16)
      requires Valid()
      modifies repr
      ensures Valid() && fresh(repr - old(repr)) && |old(model)| == NUM_SHARDS
      ensures model == PutTracker(old(model), ip, P.Observed(GetTracker(old(model), ip).UnwrapOr(P.NO_PORTS), dstPort))
    {
      hide P.Observed, SrcShardIndex, Valid, Contains, PutTracker, GetTracker;
      if !Contains(ip) {
        PutTrackerTwice(model, ip, P.NO_PORTS, P.Observed(P.NO_PORTS, dstPort));
        Add(ip);
      }
      Observe(ip, dstPort);
    }

    /** Hands out a shard's trackers and leaves it empty. */
    method Take(i: nat) returns (taken: map<u32, P.PortTracker>)
      requires Valid() && i < NUM_SHARDS
      modifies this`shards, this`model
      ensures Valid() && model == old(model)[i := map[]]
      ensures PortsMirror(taken, old(model)[i])
    {
      hide P.PortTracker.View, SrcShardIndex;
      taken := shards[i];
      assert forall ip <- taken :: PortEntry(owner, repr, taken[ip], ip, model[i][ip]);
      shards := shards[i := map[]];
      model := model[i := map[]];
    }

    method TakeInto(i: nat, before: map<u32, P.PortTracker>, ghost values: PortShard)
      returns (taken: map<u32, P.PortTracker>)
      requires Valid() && i < NUM_SHARDS && PortsMirror(before, values)
      modifies this`shards, this`model
      ensures Valid() && model == old(model)[i := map[]]
      ensures PortsMirror(taken, values + old(model)[i])
    {
      var shard := Take(i);
      assert PortsMirror(before, values);
      PortsMirrorUnion(before, shard, values, old(model)[i]);
      taken := before + shard;
    }

    /** Hands out all trackers, shard by shard, and leaves the table empty. */
    method TakeAll() returns (taken: map<u32, P.PortTracker>)
      requires Valid()
      modifies this`shards, this`model
      ensures Valid() && model == NewAggregator(0).ports
      ensures PortsMirror(taken, SnapshotOf(old(model)))
    {
      taken := map[];
      ghost var before := model;
      assert |before| == NUM_SHARDS;
      assert PortsMirror(taken, SnapshotOf(before[..0]));
      hide P.PortTracker.View, SrcShardIndex, Valid, PortsMirror, SnapshotOf, NewAggregator;
      var i := 0;
      while i < NUM_SHARDS
        invariant 0 <= i <= NUM_SHARDS && Valid() && |model| == NUM_SHARDS
        invariant forall j | 0 <= j < NUM_SHARDS :: model[j] == if j < i then map[] else before[j]
        invariant PortsMirror(taken, SnapshotOf(before[..i]))
      {
        SnapshotGrows(before, i);
        taken := TakeInto(i, taken, SnapshotOf(before[..i]));
        i := i + 1;
      }
      assert before[..NUM_SHARDS] == before;
      AllPortsGone(model);
    }
  }
}
