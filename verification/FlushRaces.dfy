/** What a flush that races with Ingest does to the ports of the flows it emits: exactly
    when a flow is emitted without the ports of its first source. */
module FlushRaces {
  import opened Words
  import opened Telemetry
  import opened Flows
  import opened FlowStatistics
  import opened Aggregation
  import opened Interleavings

  /** The flush under way has already taken the ports of this source's shard. */
  predicate IsSnapped(pc: FlushPc, ip: u32) {
    match pc
    case Idle => false
    case Snapping(next) => SrcShardIndex(ip) < next
    case Draining(_, _) => true
  }

  /** The flow of this key that the flush under way is going to emit, or that the next
      flush is when none is under way. */
  function Pending(s: Sys, k: FlowKey): Option<FlowStats>
    requires InShape(s)
  {
    if k in Taken(s) then Some(Taken(s)[k])
    else if s.pc.Draining? && ShardIndex(k) < s.pc.next then None
    else GetFlow(s.agg.flows, k)
  }

  /** The ports of the pending flow's first source were taken before there were any. */
  predicate HasMissed(s: Sys, k: FlowKey)
    requires InShape(s)
  {
    && Pending(s, k).Some?
    && var ip := Pending(s, k).value.firstSrcIp;
    && IsSnapped(s.pc, ip) && ip !in s.snapshot
  }

  ghost predicate Doomed(s: Sys)
    requires InShape(s)
  {
    exists k :: HasMissed(s, k)
  }

  /** The step emits a flow whose first source is not in the snapshot. */
  predicate EmitsMiss(s: Sys, step: Step) {
    && step.EmitFlow? && Enabled(s, step)
    && s.pc.taken[step.key].firstSrcIp !in s.snapshot
  }

  /** A packet opens a flow in a shard still to be taken, when the ports of its source's
      shard have been taken without that source. */
  predicate OpensTooLate(s: Sys, m: FlowPacketMeta)
    requires InShape(s)
  {
    && GetFlow(s.agg.flows, KeyOf(m)).None? && !Refuses(s.agg, m)
    && !(s.pc.Draining? && ShardIndex(KeyOf(m)) < s.pc.next)
    && IsSnapped(s.pc, m.srcIp) && m.srcIp !in s.snapshot
  }

  /** The first source of a live flow is routed to this port shard but not tracked in it:
      its packet is still between the two sections of Ingest. */
  predicate LeavesBehind(s: AggState, shard: nat, k: FlowKey)
    requires |s.flows| == NUM_SHARDS && |s.ports| == NUM_SHARDS
  {
    && GetFlow(s.flows, k).Some?
    && var ip := GetFlow(s.flows, k).value.firstSrcIp;
    && SrcShardIndex(ip) == shard && GetTracker(s.ports, ip).None?
  }

  /** The two ways to spoil a flush, each visible before the step is taken. */
  ghost predicate Spoils(s: Sys, step: Step)
    requires InShape(s)
  {
    match step
    case Enter(m) => OpensTooLate(s, m)
    case SnapShard => s.pc.Snapping? && exists k :: LeavesBehind(s.agg, s.pc.next, k)
    case _ => false
  }

  /** The shards are in order, and the flush holds only what it can have taken so far. */
  predicate InOrder(s: Sys) {
    && InShape(s) && Sharded(s.agg)
    && (s.pc.Snapping? ==> forall ip <- s.snapshot :: SrcShardIndex(ip) < s.pc.next)
    && (forall k <- Taken(s) :: ShardIndex(k) < s.pc.next)
  }

  lemma SnapsStayBehind(s: Sys, step: Step, maths: Maths)
    requires InOrder(s)
    ensures var t := Next(s, step, maths);
            t.pc.Snapping? ==> forall ip <- t.snapshot :: SrcShardIndex(ip) < t.pc.next
  {
    hide Features, Entered, Recorded, Consistent, Routed, SrcShardIndex;
  }

  lemma TakenStaysBehind(s: Sys, step: Step, maths: Maths)
    requires InOrder(s)
    ensures var t := Next(s, step, maths);
            forall k <- Taken(t) :: ShardIndex(k) < t.pc.next
  {
    hide Features, Entered, Recorded, Consistent, ShardIndex, SrcShardIndex;
  }

  lemma StepKeepsOrder(s: Sys, step: Step, maths: Maths)
    requires InOrder(s)
    ensures InOrder(Next(s, step, maths))
  {
    StepKeepsSharded(s, step, maths);
    SnapsStayBehind(s, step, maths);
    TakenStaysBehind(s, step, maths);
    hide Sharded, Next;
  }

  // ---- One step, one key ----

  ghost predicate SpoilsFor(s: Sys, step: Step, k: FlowKey)
    requires InShape(s)
  {
    match step
    case Enter(m) => k == KeyOf(m) && OpensTooLate(s, m)
    case SnapShard => s.pc.Snapping? && LeavesBehind(s.agg, s.pc.next, k)
    case _ => false
  }

  lemma EnteringKeepsFirstSources(s: AggState, m: FlowPacketMeta, k: FlowKey)
    requires Sharded(s)
    ensures var before, after := GetFlow(s.flows, k), GetFlow(Entered(s, m).flows, k);
            && (after.Some? <==> before.Some? || (k == KeyOf(m) && !Refuses(s, m)))
            && (after.Some? ==> after.value.firstSrcIp == if before.Some? then before.value.firstSrcIp else m.srcIp)
  {
    ShardedTableIsOneMap(s, m, k);
    var flow := GetFlow(s.flows, k);
    assert flow.Some? ==> Consistent(k, flow.value);
    hide Sharded, Entered, GetFlow, ShardIndex, KeyOf, Observed;
    ObservedIsPlausible(flow.UnwrapOr(EMPTY), m);
  }

  lemma EnterPends(s: Sys, m: FlowPacketMeta, k: FlowKey, maths: Maths)
    requires InOrder(s)
    ensures HasMissed(Next(s, Enter(m), maths), k) <==> HasMissed(s, k) || SpoilsFor(s, Enter(m), k)
  {
    EnteringKeepsFirstSources(s.agg, m, k);
    EnterOnlyEnters(s, m, maths);
    hide Next, Entered, GetFlow, Refuses, ShardIndex, SrcShardIndex, KeyOf, InOrder, Taken;
    assert InShape(s);
  }

  lemma SnapPends(s: Sys, k: FlowKey, maths: Maths)
    requires InOrder(s)
    ensures HasMissed(Next(s, SnapShard, maths), k) <==> HasMissed(s, k) || SpoilsFor(s, SnapShard, k)
  {
    hide ShardIndex, SrcShardIndex, Consistent;
  }

  lemma TakePends(s: Sys, k: FlowKey, maths: Maths)
    requires InOrder(s)
    ensures HasMissed(Next(s, TakeShard, maths), k) <==> HasMissed(s, k)
  {
    hide ShardIndex, SrcShardIndex, Consistent;
  }

  lemma EmitPends(s: Sys, e: FlowKey, k: FlowKey, maths: Maths)
    requires InOrder(s)
    ensures HasMissed(Next(s, EmitFlow(e), maths), k) || (k == e && EmitsMiss(s, EmitFlow(e))) <==> HasMissed(s, k)
  {
    hide ShardIndex, SrcShardIndex, Sharded, Features;
  }

  lemma RestPends(s: Sys, step: Step, k: FlowKey, maths: Maths)
    requires InOrder(s) && (step.Record? || step.StartFlush? || step.EndFlush? || step.Receive?)
    ensures HasMissed(Next(s, step, maths), k) <==> HasMissed(s, k)
  {
    hide ShardIndex, SrcShardIndex, Sharded, Features;
  }

  lemma KeyPends(s: Sys, step: Step, k: FlowKey, maths: Maths)
    requires InOrder(s)
    ensures HasMissed(Next(s, step, maths), k) || (step == EmitFlow(k) && EmitsMiss(s, step))
            <==> HasMissed(s, k) || SpoilsFor(s, step, k)
  {
    match step
    case Enter(m) => EnterPends(s, m, k, maths);
    case SnapShard => SnapPends(s, k, maths);
    case TakeShard => TakePends(s, k, maths);
    case EmitFlow(e) => EmitPends(s, e, k, maths);
    case Record(_) => RestPends(s, step, k, maths);
    case StartFlush => RestPends(s, step, k, maths);
    case EndFlush => RestPends(s, step, k, maths);
    case Receive => RestPends(s, step, k, maths);
  }

  lemma SpoilsSomeKey(s: Sys, step: Step)
    requires InShape(s)
    ensures Spoils(s, step) <==> exists k :: SpoilsFor(s, step, k)
  {
    hide LeavesBehind, OpensTooLate;
    if step.Enter? && Spoils(s, step) {
      assert SpoilsFor(s, step, KeyOf(step.m));
    } else if step.SnapShard? && Spoils(s, step) {
      var k :| LeavesBehind(s.agg, s.pc.next, k);
      assert SpoilsFor(s, step, k);
    }
  }

  /** A step dooms a flow or emits one without its ports exactly when a flow was doomed
      before it or it spoils the flush. */
  lemma StepDooms(s: Sys, step: Step, maths: Maths)
    requires InOrder(s)
    ensures Doomed(Next(s, step, maths)) || EmitsMiss(s, step) <==> Doomed(s) || Spoils(s, step)
  {
    hide Sharded, HasMissed, Next, SpoilsFor;
    SpoilsSomeKey(s, step);
    hide Spoils;
    forall k
      ensures HasMissed(Next(s, step, maths), k) || (step == EmitFlow(k) && EmitsMiss(s, step))
              <==> HasMissed(s, k) || SpoilsFor(s, step, k)
    {
      KeyPends(s, step, k, maths);
    }
    if EmitsMiss(s, step) {
      assert HasMissed(s, step.key);
    }
  }

  // ---- Whole schedules ----

  /** Every emission of the schedule finds its flow's first source in the snapshot. */
  ghost predicate AllFound(s: Sys, schedule: seq<Step>, maths: Maths)
    requires InShape(s)
  {
    forall n :: 0 <= n < |schedule| ==> !EmitsMiss(Run(s, schedule[..n], maths), schedule[n])
  }

  ghost predicate NeverSpoiled(s: Sys, schedule: seq<Step>, maths: Maths)
    requires InShape(s)
  {
    forall n :: 0 <= n < |schedule| ==> !Spoils(Run(s, schedule[..n], maths), schedule[n])
  }

  lemma OneStepMore(s: Sys, schedule: seq<Step>, maths: Maths)
    requires InShape(s) && schedule != []
    ensures var before := Run(s, Init(schedule), maths);
            && (AllFound(s, schedule, maths) <==> AllFound(s, Init(schedule), maths) && !EmitsMiss(before, Last(schedule)))
            && (NeverSpoiled(s, schedule, maths) <==> NeverSpoiled(s, Init(schedule), maths) && !Spoils(before, Last(schedule)))
  {
    hide Run, EmitsMiss, Spoils;
    forall n | 0 <= n < |schedule| ensures schedule[..n] == Init(schedule)[..n] {
    }
    assert forall n :: 0 <= n < |schedule| - 1 ==> Init(schedule)[n] == schedule[n];
  }

  lemma {:induction false} RunKeepsOrder(s: Sys, schedule: seq<Step>, maths: Maths)
    requires InOrder(s)
    ensures InOrder(Run(s, schedule, maths))
  {
    if schedule != [] {
      RunKeepsOrder(s, Init(schedule), maths);
      StepKeepsOrder(Run(s, Init(schedule), maths), Last(schedule), maths);
    }
  }

  /** Over any schedule of ingests and flushes: every flow emitted so far was found, and
      none is doomed, exactly when no step has spoiled a flush. */
  lemma {:induction false} FoundUnlessSpoiled(s: Sys, schedule: seq<Step>, maths: Maths)
    requires InOrder(s) && !Doomed(s)
    ensures AllFound(s, schedule, maths) && !Doomed(Run(s, schedule, maths)) <==> NeverSpoiled(s, schedule, maths)
  {
    if schedule != [] {
      var before := Run(s, Init(schedule), maths);
      FoundUnlessSpoiled(s, Init(schedule), maths);
      RunKeepsOrder(s, Init(schedule), maths);
      OneStepMore(s, schedule, maths);
      StepDooms(before, Last(schedule), maths);
    }
  }

  /** So once the last flush has ended: every emitted flow found its first source exactly
      when no step spoiled a flush. */
  lemma {:induction false} EveryFlowFoundIffNeverSpoiled(schedule: seq<Step>, maths: Maths)
    requires Run(Start(), schedule, maths).pc.Idle?
    ensures AllFound(Start(), schedule, maths) <==> NeverSpoiled(Start(), schedule, maths)
  {
    StartIsConserved();
    hide Run, AllFound, NeverSpoiled, Sharded, Conserved;
    NobodyIsDoomedWhenIdle(Start());
    NobodyIsDoomedWhenIdle(Run(Start(), schedule, maths));
    FoundUnlessSpoiled(Start(), schedule, maths);
  }

  lemma NobodyIsDoomedWhenIdle(s: Sys)
    requires InShape(s) && s.pc.Idle?
    ensures !Doomed(s)
  {
  }

  // ---- Both kinds happen ----

  function Repeat(step: Step, n: nat): (r: seq<Step>)
    ensures |r| == n
  {
    seq(n, _ => step)
  }

  lemma {:induction false} RunOfConcat(s: Sys, a: seq<Step>, b: seq<Step>, maths: Maths)
    requires InShape(s)
    ensures Run(s, a + b, maths) == Run(Run(s, a, maths), b, maths)
  {
    if b == [] {
      assert a + b == a;
    } else {
      assert Init(a + b) == a + Init(b) && Last(a + b) == Last(b);
      RunOfConcat(s, a, Init(b), maths);
    }
  }

  predicate NoPorts(s: Sys) {
    InShape(s) && s.snapshot == map[] && forall i | 0 <= i < NUM_SHARDS :: s.agg.ports[i] == map[]
  }

  lemma {:induction false} SnappingNothing(s: Sys, n: nat, maths: Maths)
    requires NoPorts(s) && s.pc == Snapping(0) && n <= NUM_SHARDS
    ensures Run(s, Repeat(SnapShard, n), maths) == s.(pc := if n < NUM_SHARDS then Snapping(n) else Draining(0, map[]))
  {
    if n > 0 {
      assert Init(Repeat(SnapShard, n)) == Repeat(SnapShard, n - 1);
      SnappingNothing(s, n - 1, maths);
      assert s.agg.ports[n - 1 := map[]] == s.agg.ports;
      assert s.snapshot + s.agg.ports[n - 1] == map[];
    }
  }

  lemma {:induction false} TakingNothing(s: Sys, n: nat, maths: Maths)
    requires InShape(s) && s.pc == Draining(0, map[]) && n <= NUM_SHARDS
    requires forall i | 0 <= i < n :: s.agg.flows[i] == map[]
    ensures Run(s, Repeat(TakeShard, n), maths) == s.(pc := Draining(n, map[]))
  {
    if n > 0 {
      assert Init(Repeat(TakeShard, n)) == Repeat(TakeShard, n - 1);
      TakingNothing(s, n - 1, maths);
      assert s.agg.flows[n - 1 := map[]] == s.agg.flows;
    }
  }

  /** Only this packet's flow is live. */
  predicate HoldsOnly(s: AggState, m: FlowPacketMeta) {
    && |s.flows| == NUM_SHARDS
    && forall i | 0 <= i < NUM_SHARDS ::
         s.flows[i] == if i == ShardIndex(KeyOf(m)) then map[KeyOf(m) := Observed(EMPTY, m)] else map[]
  }

  /** The flow is emitted next, as if its source had not touched a port. */
  predicate LosesPorts(s: Sys, k: FlowKey, maths: Maths) {
    EmitsMiss(s, EmitFlow(k)) && Features(s, k, maths).portEntropyBits == 0.0
  }

  function TakesOf(m: FlowPacketMeta): seq<Step> {
    Repeat(TakeShard, ShardIndex(KeyOf(m))) + [TakeShard]
  }

  lemma TakingTheFlow(s: Sys, m: FlowPacketMeta, maths: Maths)
    requires InShape(s) && s.pc == Draining(0, map[]) && HoldsOnly(s.agg, m)
    requires s.snapshot == map[]
    ensures LosesPorts(Run(s, TakesOf(m), maths), KeyOf(m), maths)
  {
    var i := ShardIndex(KeyOf(m));
    var takes := Repeat(TakeShard, i);
    TakingNothing(s, i, maths);
    assert Init(takes + [TakeShard]) == takes;
    assert Run(s, TakesOf(m), maths).pc == Draining(i + 1, s.agg.flows[i]);
  }

  lemma FirstPacketOpensItsFlow(s: AggState, m: FlowPacketMeta)
    requires s == NewAggregator(s.droppedNewFlows)
    ensures !Refuses(s, m) && HoldsOnly(Entered(s, m), m)
  {
    hide Observed;
  }

  /** The flush snaps all port shards before the packet comes in, and takes its flow
      after both its sections have run. */
  function LateOpening(m: FlowPacketMeta): seq<Step> {
    [StartFlush] + Repeat(SnapShard, NUM_SHARDS) + [Enter(m), Record(m)] + TakesOf(m)
  }

  /** The flush runs between the two sections of the packet's Ingest. */
  function PendingRecord(m: FlowPacketMeta): seq<Step> {
    [Enter(m), StartFlush] + Repeat(SnapShard, NUM_SHARDS) + TakesOf(m)
  }

  lemma {:induction false} RunOfOne(s: Sys, a: Step, maths: Maths)
    requires InShape(s)
    ensures Run(s, [a], maths) == Next(s, a, maths)
  {
    hide Next;
    assert Init([a]) == [];
  }

  lemma {:induction false} RunOfTwo(s: Sys, a: Step, b: Step, maths: Maths)
    requires InShape(s)
    ensures Run(s, [a, b], maths) == Next(Next(s, a, maths), b, maths)
  {
    hide Next;
    RunOfOne(s, a, maths);
    assert Init([a, b]) == [a];
  }

  lemma IngestingWhileDraining(s: Sys, m: FlowPacketMeta, maths: Maths)
    requires InShape(s) && s.pc == Draining(0, map[]) && s.snapshot == map[]
    requires s.agg == NewAggregator(s.agg.droppedNewFlows)
    ensures var t := Run(s, [Enter(m), Record(m)], maths);
            t.pc == s.pc && t.snapshot == map[] && HoldsOnly(t.agg, m)
  {
    RunOfTwo(s, Enter(m), Record(m), maths);
    FirstPacketOpensItsFlow(s.agg, m);
    hide Run, HoldsOnly, NewAggregator, Refuses, PutTracker, GetTracker;
    HoldingIsAboutFlows(Next(s, Enter(m), maths).agg, Next(Next(s, Enter(m), maths), Record(m), maths).agg, m);
  }

  lemma HoldingIsAboutFlows(s: AggState, t: AggState, m: FlowPacketMeta)
    requires HoldsOnly(s, m) && t.flows == s.flows
    ensures HoldsOnly(t, m)
  {
  }

  /** A new aggregator's first packet can be emitted without its ports either way. */
  lemma {:induction false} LateOpeningMisses(m: FlowPacketMeta, maths: Maths)
    ensures LosesPorts(Run(Start(), LateOpening(m), maths), KeyOf(m), maths)
  {
    var snaps := Repeat(SnapShard, NUM_SHARDS);
    var s1 := Next(Start(), StartFlush, maths);
    var s2 := s1.(pc := Draining(0, map[]));
    RunOfOne(Start(), StartFlush, maths);
    SnappingNothing(s1, NUM_SHARDS, maths);
    RunOfConcat(Start(), [StartFlush], snaps, maths);
    hide NewAggregator, Run, HoldsOnly, LosesPorts, Repeat, TakesOf;
    RunOfConcat(Start(), [StartFlush] + snaps, [Enter(m), Record(m)], maths);
    RunOfConcat(Start(), [StartFlush] + snaps + [Enter(m), Record(m)], TakesOf(m), maths);
    IngestingWhileDraining(s2, m, maths);
    TakingTheFlow(Run(s2, [Enter(m), Record(m)], maths), m, maths);
  }

  lemma {:induction false} PendingRecordMisses(m: FlowPacketMeta, maths: Maths)
    ensures LosesPorts(Run(Start(), PendingRecord(m), maths), KeyOf(m), maths)
  {
    var snaps := Repeat(SnapShard, NUM_SHARDS);
    var s1 := Next(Next(Start(), Enter(m), maths), StartFlush, maths);
    FirstPacketOpensItsFlow(Start().agg, m);
    RunOfTwo(Start(), Enter(m), StartFlush, maths);
    SnappingNothing(s1, NUM_SHARDS, maths);
    RunOfConcat(Start(), [Enter(m), StartFlush], snaps, maths);
    RunOfConcat(Start(), [Enter(m), StartFlush] + snaps, TakesOf(m), maths);
    TakingTheFlow(s1.(pc := Draining(0, map[])), m, maths);
  }
}
