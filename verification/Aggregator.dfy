/** The aggregator object: Ingest and flush over the two tables and the output channel. */
module FlowAggregator {
  import opened Words
  import opened Telemetry
  import opened Flows
  import opened FlowStatistics
  import opened Aggregation
  import opened Channels
  import opened Tables
  import P = Ports

  /** What a full-buffer-drops channel holds after the sends `sends`, nobody receiving. */
  function Delivered(out: seq<FlowFeatures>, sends: seq<FlowFeatures>): seq<FlowFeatures>
    requires |out| <= OUTPUT_BUFFER
  {
    out + sends[..Min(OUTPUT_BUFFER - |out|, |sends|)]
  }

  function Lost(out: seq<FlowFeatures>, sends: seq<FlowFeatures>): nat
    requires |out| <= OUTPUT_BUFFER
  {
    |sends| - Min(OUTPUT_BUFFER - |out|, |sends|)
  }

  /** `order` lists each of these keys once. */
  predicate Lists(order: seq<FlowKey>, keys: set<FlowKey>) {
    (set k | k in order) == keys && |order| == |keys|
  }

  function FeatureList(order: seq<FlowKey>, table: FlowShard, snapshot: PortShard, maths: Maths): seq<FlowFeatures>
    requires forall k <- order :: k in table
  {
    seq(|order|, i requires 0 <= i < |order| => FeaturesOf(table[order[i]], snapshot, maths))
  }

  /** What a flush works on: the whole table, the port snapshot, and what the channel and
      its drop counter were when it began. */
  datatype Job = Job(table: FlowShard, snap: PortShard, maths: Maths, sent: seq<FlowFeatures>, dropped: nat)

  /** How far a flush has got: `order` are the flows of `keys`, already offered. */
  ghost predicate Flushing(job: Job, order: seq<FlowKey>, keys: set<FlowKey>, out: seq<FlowFeatures>, droppedOutput: nat) {
    && Lists(order, keys) && (forall k <- order :: k in job.table)
    && |job.sent| <= OUTPUT_BUFFER && |out| <= OUTPUT_BUFFER
    && var sends := FeatureList(order, job.table, job.snap, job.maths);
       out == Delivered(job.sent, sends) && droppedOutput == job.dropped + Lost(job.sent, sends)
  }

  lemma OneMoreFlow(job: Job, order: seq<FlowKey>, keys: set<FlowKey>, k: FlowKey, out: seq<FlowFeatures>, droppedOutput: nat)
    requires Flushing(job, order, keys, out, droppedOutput) && k !in keys && k in job.table
    ensures |out| <= OUTPUT_BUFFER
    ensures Flushing(job, order + [k], keys + {k},
                     out + if |out| < OUTPUT_BUFFER then [FeaturesOf(job.table[k], job.snap, job.maths)] else [],
                     droppedOutput + if |out| < OUTPUT_BUFFER then 0 else 1)
  {
  }

  lemma MirrorAt(taken: map<FlowKey, FlowAccumulator>, values: FlowShard, k: FlowKey)
    requires FlowsMirror(taken, values) && k in taken
    ensures k in values && taken[k].View() == values[k]
  {
  }

  function JobOf(start: AggState, maths: Maths, out: seq<FlowFeatures>, droppedOutput: nat): Job {
    Job(TableOf(start.flows), SnapshotOf(start.ports), maths, out, droppedOutput)
  }

  lemma FlushStarts(start: AggState, maths: Maths, out: seq<FlowFeatures>, droppedOutput: nat)
    requires |out| <= OUTPUT_BUFFER
    ensures Flushing(JobOf(start, maths, out, droppedOutput), [], TableOf(start.flows[..0]).Keys, out, droppedOutput)
  {
  }

  lemma FlushEnds(start: AggState, maths: Maths, sent: seq<FlowFeatures>, dropped: nat,
                  order: seq<FlowKey>, out: seq<FlowFeatures>, droppedOutput: nat)
    requires |start.flows| == NUM_SHARDS
    requires Flushing(JobOf(start, maths, sent, dropped), order, TableOf(start.flows[..NUM_SHARDS]).Keys, out, droppedOutput)
    ensures |sent| <= OUTPUT_BUFFER && |out| <= OUTPUT_BUFFER
    ensures var table := TableOf(start.flows);
            && Lists(order, table.Keys)
            && (forall k <- order :: k in table)
            && var sends := FeatureList(order, table, SnapshotOf(start.ports), maths);
               out == Delivered(sent, sends) && droppedOutput == dropped + Lost(sent, sends)
    ensures AggState(Emptied(start.flows, NUM_SHARDS), NewAggregator(0).ports, start.droppedNewFlows)
            == NewAggregator(start.droppedNewFlows)
    ensures Sharded(NewAggregator(start.droppedNewFlows))
  {
    assert start.flows[..NUM_SHARDS] == start.flows;
    EmptiedStep(start.flows, 0);
  }

  class Aggregator {
    const flowTable: FlowTable
    const portTable: PortTable
    var out: seq<FlowFeatures>
    var droppedNewFlows: nat
    var droppedOutput: nat

    ghost predicate Valid()
      reads this, flowTable, portTable, flowTable.repr, portTable.repr
    {
      TablesAreSound() && Sharded(Model()) && |out| <= OUTPUT_BUFFER
    }

    ghost predicate TablesAreSound()
      reads flowTable, portTable, flowTable.repr, portTable.repr
      ensures TablesAreSound() ==> this !in flowTable.repr && this !in portTable.repr
    {
      && this !in flowTable.repr && this !in portTable.repr && flowTable.repr !! portTable.repr
      && flowTable.Valid() && portTable.Valid()
    }

    ghost function Model(): AggState
      reads this, flowTable, portTable
    {
      AggState(flowTable.model, portTable.model, droppedNewFlows)
    }

    constructor ()
      ensures Valid() && fresh(flowTable.repr) && fresh(portTable.repr)
      ensures Model() == NewAggregator(0) && out == [] && droppedOutput == 0
    {
      flowTable := new FlowTable();
      portTable := new PortTable();
      out, droppedNewFlows, droppedOutput := [], 0, 0;
    }

    /** One telemetry record: the flow section, then the port section. */
    method Ingest(m: FlowPacketMeta)
      requires Valid()
      modifies this`droppedNewFlows, flowTable.repr, portTable.repr
      ensures Valid()
      ensures fresh(flowTable.repr - old(flowTable.repr)) && fresh(portTable.repr - old(portTable.repr))
      ensures Model() == Ingested(old(Model()), m)
    {
      ghost var before := Model();
      EnteredStaysSharded(before, m);
      hide Sharded, TablesAreSound, Entered, Recorded, Refuses, FlowTable.Valid, PortTable.Valid;
      var admitted := EnterFlow(m);
      if admitted {
        RecordedStaysSharded(Entered(before, m), m);
        RecordPort(m);
      }
    }

    method EnterFlow(m: FlowPacketMeta) returns (admitted: bool)
      requires TablesAreSound() && |flowTable.model| == NUM_SHARDS
      modifies this`droppedNewFlows, flowTable.repr
      ensures TablesAreSound() && fresh(flowTable.repr - old(flowTable.repr))
      ensures admitted == !Refuses(old(Model()), m) && Model() == Entered(old(Model()), m)
    {
      hide FlowTable.Valid, PortTable.Valid, PutFlow, GetFlow, FullFor, Observed, KeyOf;
      admitted := flowTable.Enter(m);
      if !admitted {
        droppedNewFlows := droppedNewFlows + 1;
      }
    }

    method RecordPort(m: FlowPacketMeta)
      requires TablesAreSound() && |portTable.model| == NUM_SHARDS
      modifies portTable.repr
      ensures TablesAreSound() && fresh(portTable.repr - old(portTable.repr))
      ensures Model() == Recorded(old(Model()), m)
    {
      hide FlowTable.Valid, PortTable.Valid, PutTracker, GetTracker, P.Observed;
      portTable.Record(m.srcIp, m.dstPort);
    }

    /** Closes the window: every flow is offered to the channel once, in some order, with
        the ports its first source touched; what does not fit is counted as dropped. */
    method Flush(maths: Maths) returns (ghost order: seq<FlowKey>)
      requires Valid()
      modifies this, flowTable, portTable
      ensures Valid() && Model() == NewAggregator(old(droppedNewFlows))
      ensures var table := TableOf(old(flowTable.model));
              && Lists(order, table.Keys)
              && var sends := FeatureList(order, table, SnapshotOf(old(portTable.model)), maths);
                 && out == Delivered(old(out), sends)
                 && droppedOutput == old(droppedOutput) + Lost(old(out), sends)
    {
      ghost var start, job := Model(), JobOf(Model(), maths, out, droppedOutput);
      FlushStarts(start, maths, out, droppedOutput);
      assert job.table == TableOf(start.flows) && job.snap == SnapshotOf(start.ports) && job.maths == maths;
      assert job.sent == out && job.dropped == droppedOutput;
      hide JobOf, TablesAreSound, Flushing, Lists, TableOf, SnapshotOf, Sharded, PortsMirror, Emptied, FeatureList, Delivered, Lost,
           NewAggregator;
      var snapshot := TakePorts();
      order := [];
      var i := 0;
      while i < NUM_SHARDS
        invariant 0 <= i <= NUM_SHARDS && TablesAreSound()
        invariant Model() == AggState(Emptied(start.flows, i), NewAggregator(0).ports, start.droppedNewFlows)
        invariant PortsMirror(snapshot, job.snap)
        invariant Flushing(job, order, TableOf(start.flows[..i]).Keys, out, droppedOutput)
      {
        order := FlushShard(i, snapshot, maths, start, job, order);
        i := i + 1;
      }
      FlushEnds(start, maths, job.sent, job.dropped, order, out, droppedOutput);
    }

    method TakePorts() returns (snapshot: map<u32, P.PortTracker>)
      requires TablesAreSound() && |flowTable.model| == NUM_SHARDS
      modifies portTable`shards, portTable`model
      ensures TablesAreSound() && PortsMirror(snapshot, SnapshotOf(old(portTable.model)))
      ensures Model() == AggState(Emptied(old(flowTable.model), 0), NewAggregator(0).ports, droppedNewFlows)
    {
      EmptiedStep(flowTable.model, 0);
      hide FlowTable.Valid, PortTable.Valid, PortsMirror, SnapshotOf, Emptied, NewAggregator;
      snapshot := portTable.TakeAll();
    }

    method FlushShard(i: nat, snapshot: map<u32, P.PortTracker>, maths: Maths, ghost start: AggState, ghost job: Job,
                      ghost before: seq<FlowKey>)
      returns (ghost order: seq<FlowKey>)
      requires TablesAreSound() && Sharded(start) && i < NUM_SHARDS && job.maths == maths && job.table == TableOf(start.flows)
      requires flowTable.model == Emptied(start.flows, i) && PortsMirror(snapshot, job.snap)
      requires Flushing(job, before, TableOf(start.flows[..i]).Keys, out, droppedOutput)
      modifies this`out, this`droppedOutput, flowTable`shards, flowTable`model
      ensures TablesAreSound() && PortsMirror(snapshot, job.snap)
      ensures Model() == AggState(Emptied(start.flows, i + 1), old(portTable.model), old(droppedNewFlows))
      ensures Flushing(job, order, TableOf(start.flows[..i + 1]).Keys, out, droppedOutput)
    {
      ShardOfTable(start, i);
      EmptiedStep(start.flows, i);
      ghost var values, keys := start.flows[i], TableOf(start.flows[..i]).Keys;
      hide TablesAreSound, IsPartOf, Flushing, TableOf, Sharded, FlowsMirror, PortsMirror, Emptied;
      var taken := TakeFlows(i, snapshot, job.snap);
      order := EmitTaken(taken, values, snapshot, maths, job, before, keys);
    }

    method EmitTaken(taken: map<FlowKey, FlowAccumulator>, ghost values: FlowShard, snapshot: map<u32, P.PortTracker>,
                     maths: Maths, ghost job: Job, ghost before: seq<FlowKey>, ghost keys: set<FlowKey>)
      returns (ghost order: seq<FlowKey>)
      requires TablesAreSound() && FlowsMirror(taken, values) && PortsMirror(snapshot, job.snap)
      requires keys !! values.Keys && job.maths == maths && IsPartOf(values, job.table)
      requires Flushing(job, before, keys, out, droppedOutput)
      modifies this`out, this`droppedOutput
      ensures TablesAreSound() && PortsMirror(snapshot, job.snap) && Model() == old(Model())
      ensures Flushing(job, order, keys + values.Keys, out, droppedOutput)
    {
      hide TablesAreSound, IsPartOf, Flushing, FlowsMirror, PortsMirror;
      order := EmitShard(taken, values, snapshot, maths, job, before, keys);
    }

    method TakeFlows(i: nat, ghost snapshot: map<u32, P.PortTracker>, ghost snap: PortShard)
      returns (taken: map<FlowKey, FlowAccumulator>)
      requires TablesAreSound() && i < NUM_SHARDS && |flowTable.model| == NUM_SHARDS && PortsMirror(snapshot, snap)
      modifies flowTable`shards, flowTable`model
      ensures TablesAreSound() && PortsMirror(snapshot, snap) && FlowsMirror(taken, old(flowTable.model)[i])
      ensures flowTable.model == old(flowTable.model)[i := map[]]
    {
      hide FlowTable.Valid, PortTable.Valid, FlowsMirror;
      taken := flowTable.Take(i);
    }

    /** Offers each flow of one shard to the channel, in the order the map yields them,
        behind those that were offered before. */
    method EmitShard(taken: map<FlowKey, FlowAccumulator>, ghost values: FlowShard, snapshot: map<u32, P.PortTracker>,
                     maths: Maths, ghost job: Job, ghost before: seq<FlowKey>, ghost keys: set<FlowKey>)
      returns (ghost order: seq<FlowKey>)
      requires FlowsMirror(taken, values) && PortsMirror(snapshot, job.snap) && keys !! values.Keys && job.maths == maths
      requires IsPartOf(values, job.table)
      requires Flushing(job, before, keys, out, droppedOutput)
      modifies this`out, this`droppedOutput
      ensures PortsMirror(snapshot, job.snap)
      ensures Flushing(job, order, keys + values.Keys, out, droppedOutput)
    {
      hide Flushing, PortsMirror, FlowAccumulator.View, FeaturesOf, P.PortTracker.View;
      order := before;
      ghost var all := keys + values.Keys;
      var left := taken.Keys;
      assert all - left == keys;
      while left != {}
        invariant left <= taken.Keys && FlowsMirror(taken, values) && PortsMirror(snapshot, job.snap)
        invariant Flushing(job, order, all - left, out, droppedOutput)
        decreases |left|
      {
        var k :| k in left;
        assert all - (left - {k}) == (all - left) + {k};
        EmitFlow(taken, values, k, snapshot, maths, job, order, all - left);
        order, left := order + [k], left - {k};
      }
      assert all - {} == all;
    }

    method EmitFlow(taken: map<FlowKey, FlowAccumulator>, ghost values: FlowShard, k: FlowKey,
                    snapshot: map<u32, P.PortTracker>, maths: Maths, ghost job: Job, ghost order: seq<FlowKey>, ghost keys: set<FlowKey>)
      requires FlowsMirror(taken, values) && PortsMirror(snapshot, job.snap) && k in taken && k !in keys && job.maths == maths
      requires k in values ==> k in job.table && values[k] == job.table[k]
      requires Flushing(job, order, keys, out, droppedOutput)
      modifies this`out, this`droppedOutput
      ensures FlowsMirror(taken, values) && PortsMirror(snapshot, job.snap)
      ensures Flushing(job, order + [k], keys + {k}, out, droppedOutput)
    {
      MirrorAt(taken, values, k);
      hide Flushing, FlowAccumulator.View, FeaturesOf, P.PortTracker.View;
      var ff := BuildFeatures(taken[k], snapshot, job.snap, maths);
      OneMoreFlow(job, order, keys, k, out, droppedOutput);
      Offer(ff);
    }

    /** A send that never blocks: a full channel drops the features. */
    method Offer(ff: FlowFeatures)
      modifies this`out, this`droppedOutput
      ensures out == old(out) + if |old(out)| < OUTPUT_BUFFER then [ff] else []
      ensures droppedOutput == old(droppedOutput) + if |old(out)| < OUTPUT_BUFFER then 0 else 1
    {
      if |out| < OUTPUT_BUFFER {
        out := out + [ff];
      } else {
        droppedOutput := droppedOutput + 1;
      }
    }

    method BuildFeatures(fa: FlowAccumulator, snapshot: map<u32, P.PortTracker>, ghost snap: PortShard, maths: Maths)
      returns (ff: FlowFeatures)
      requires PortsMirror(snapshot, snap)
      ensures ff == FeaturesOf(fa.View(), snap, maths)
    {
      hide P.EntropyOf, StdDevOf, P.PortTracker.View;
      var entropy := 0.0;
      if fa.firstSrcIp in snapshot {
        entropy := snapshot[fa.firstSrcIp].EntropyBits(maths.log2);
      }
      var stdDev := fa.IatStdDevNs(maths.sqrt);
      ff := FlowFeatures(
        Be32Bytes(fa.firstSrcIp), Be32Bytes(fa.firstDstIp), fa.firstSrcPort, fa.firstDstPort, fa.protocol,
        fa.packetCount, fa.forwardCount, fa.reverseCount, fa.synCount, fa.ackPshCount,
        stdDev, fa.forwardCount as real / Max(fa.reverseCount, 1) as real, entropy);
    }
  }

  predicate IsPartOf(values: FlowShard, table: FlowShard) {
    forall k <- values :: k in table && values[k] == table[k]
  }

  lemma EntryOfTable(s: AggState, i: nat, k: FlowKey)
    requires Sharded(s) && i < NUM_SHARDS && k in s.flows[i]
    ensures k in TableOf(s.flows) && TableOf(s.flows)[k] == s.flows[i][k] && k !in TableOf(s.flows[..i])
  {
    assert ShardIndex(k) == i;
    RoutedPrefix(s.flows, i);
    hide TableOf, ShardIndex, Sharded, Routed;
    TableHasWhatShardsHave(s.flows, k);
    TableHasWhatShardsHave(s.flows[..i], k);
  }

  /** A shard's part of the whole table. */
  lemma ShardOfTable(s: AggState, i: nat)
    requires Sharded(s) && i < NUM_SHARDS
    ensures IsPartOf(s.flows[i], TableOf(s.flows))
    ensures TableOf(s.flows[..i + 1]).Keys == TableOf(s.flows[..i]).Keys + s.flows[i].Keys
    ensures TableOf(s.flows[..i]).Keys !! s.flows[i].Keys
  {
    assert s.flows[..i + 1][..i] == s.flows[..i];
    assert TableOf(s.flows[..i + 1]) == TableOf(s.flows[..i]) + s.flows[i];
    hide TableOf, Sharded;
    forall k | k in s.flows[i]
      ensures k in TableOf(s.flows) && TableOf(s.flows)[k] == s.flows[i][k] && k !in TableOf(s.flows[..i])
    {
      EntryOfTable(s, i, k);
    }
  }
}
