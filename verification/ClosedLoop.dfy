/** The whole loop: kernel events into flows, flows into alerts, alerts into blocks, and
    blocks back into the kernel. */
module ClosedLoop {
  import opened Words
  import opened Parsers
  import opened Telemetry
  import opened Flows
  import opened FlowStatistics
  import opened Aggregation
  import opened Channels
  import opened Interleavings
  import opened Histories
  import opened Classifier
  import opened Reputation
  import K = Kernel
  import KernelRuns
  import F = Feedback
  import P = Ports

  /** A successful automatic block: the address, and the safe networks of that moment. */
  datatype Put = Put(ip: u32, safe: seq<F.IPNet>)

  /** The user-space pipeline. `holding` is the alert inference is about to send, as the
      four source bytes of its flow; `trace` and `puts` record the aggregator's steps and
      the blocks so far. */
  datatype Loop = Loop(
    sys: Sys, holding: Option<seq<u8>>, alerts: seq<seq<u8>>, control: F.Control,
    trace: seq<Interleavings.Step>, puts: seq<Put>)

  datatype LoopStep =
    | Aggregate(step: Interleavings.Step)
    | Infer
    | SendAlert
    | HandleAlert(safe: seq<F.IPNet>, at: nat, putWorks: bool)
    | Sweep(at: nat, fails: set<u32>)

  /** The aggregator takes a step. */
  function Stepped(l: Loop, step: Interleavings.Step, maths: Maths): (r: Loop)
    requires InShape(l.sys)
    ensures InShape(r.sys)
  {
    l.(sys := Next(l.sys, step, maths), trace := l.trace + [step])
  }

  /** Takes the step if it is possible now, and otherwise waits. */
  function Moved(l: Loop, step: LoopStep, maths: Maths): (r: Loop)
    requires InShape(l.sys) && forall x: real :: maths.exp2(x) > 0.0
    ensures InShape(r.sys)
  {
    match step
    case Aggregate(s) =>
      if s.Receive? then l else Stepped(l, s, maths)
    case Infer =>
      if l.holding.Some? || l.sys.out == [] then l
      else
        var f := l.sys.out[0];
        Stepped(l, Receive, maths).(holding := if IsMalicious(f, maths) then Some(f.srcIp) else None)
    case SendAlert =>
      if l.holding.None? || |l.alerts| >= ALERT_BUFFER then l
      else l.(holding := None, alerts := l.alerts + [l.holding.value])
    case HandleAlert(safe, at, putWorks) =>
      if l.alerts == [] then l
      else
        var src := ParsedSource(l.alerts[0]);
        l.(alerts := l.alerts[1..], control := F.Handled(l.control, safe, src, at, putWorks),
           puts := if F.Acts(l.control, safe, src, at) && putWorks then l.puts + [Put(src.value, safe)] else l.puts)
    case Sweep(at, fails) =>
      l.(control := F.Swept(l.control, at, fails))
  }

  function ParsedSource(bytes: seq<u8>): Option<u32> {
    if |bytes| == 4 then Some(Be32(bytes, 0)) else None
  }

  /** The loop before its first packet, over any registry and any kernel table. */
  function StartLoop(control: F.Control): Loop {
    Loop(Start(), None, [], control, [], [])
  }

  function LoopAfter(control: F.Control, schedule: seq<LoopStep>, maths: Maths): (l: Loop)
    requires forall x: real :: maths.exp2(x) > 0.0
    ensures InShape(l.sys)
  {
    if schedule == [] then StartLoop(control)
    else Moved(LoopAfter(control, Init(schedule), maths), Last(schedule), maths)
  }

  // ---- Every block is justified ----

  /** At step `n` of the trace the flush emitted these features. */
  predicate Emits(trace: seq<Interleavings.Step>, n: nat, f: FlowFeatures, maths: Maths) {
    && n < |trace| && trace[n].EmitFlow?
    && var s := Run(Start(), trace[..n], maths);
    && Enabled(s, trace[n]) && Features(s, trace[n].key, maths) == f
  }

  ghost predicate Emitted(f: FlowFeatures, trace: seq<Interleavings.Step>, maths: Maths) {
    exists n: nat :: Emits(trace, n, f, maths)
  }

  /** These are the source bytes of an emitted flow that the classifier flags. */
  ghost predicate FlaggedSource(bytes: seq<u8>, trace: seq<Interleavings.Step>, maths: Maths)
    requires forall x: real :: maths.exp2(x) > 0.0
  {
    exists f :: Emitted(f, trace, maths) && IsMalicious(f, maths) && f.srcIp == bytes
  }

  ghost predicate JustifiedPut(p: Put, trace: seq<Interleavings.Step>, maths: Maths)
    requires forall x: real :: maths.exp2(x) > 0.0
  {
    !F.InSafeNetwork(p.safe, p.ip) && FlaggedSource(Be32Bytes(p.ip), trace, maths)
  }

  ghost predicate Accounted(l: Loop, maths: Maths)
    requires forall x: real :: maths.exp2(x) > 0.0
  {
    && l.sys == Run(Start(), l.trace, maths)
    && (forall f <- l.sys.out :: Emitted(f, l.trace, maths))
    && (l.holding.Some? ==> FlaggedSource(l.holding.value, l.trace, maths))
    && (forall b <- l.alerts :: FlaggedSource(b, l.trace, maths))
    && (forall p <- l.puts :: JustifiedPut(p, l.trace, maths))
  }

  lemma EmittedStays(f: FlowFeatures, trace: seq<Interleavings.Step>, step: Interleavings.Step, maths: Maths)
    requires Emitted(f, trace, maths)
    ensures Emitted(f, trace + [step], maths)
  {
    var n: nat :| Emits(trace, n, f, maths);
    assert (trace + [step])[..n] == trace[..n];
    assert Emits(trace + [step], n, f, maths);
  }

  lemma FlaggedStays(bytes: seq<u8>, trace: seq<Interleavings.Step>, step: Interleavings.Step, maths: Maths)
    requires (forall x: real :: maths.exp2(x) > 0.0) && FlaggedSource(bytes, trace, maths)
    ensures FlaggedSource(bytes, trace + [step], maths)
  {
    hide Emitted, IsMalicious;
    var f :| Emitted(f, trace, maths) && IsMalicious(f, maths) && f.srcIp == bytes;
    EmittedStays(f, trace, step, maths);
  }

  lemma OutputIsEmitted(s: Sys, trace: seq<Interleavings.Step>, step: Interleavings.Step, f: FlowFeatures, maths: Maths)
    requires s == Run(Start(), trace, maths) && f in Next(s, step, maths).out
    requires forall g <- s.out :: Emitted(g, trace, maths)
    ensures Emitted(f, trace + [step], maths)
  {
    if f in s.out {
      EmittedStays(f, trace, step, maths);
    } else {
      hide Features, Entered, Recorded, Run;
      assert step.EmitFlow? && Enabled(s, step) && f == Features(s, step.key, maths);
      assert (trace + [step])[..|trace|] == trace;
      assert Emits(trace + [step], |trace|, f, maths);
    }
  }

  lemma SteppingKeepsAccounts(l: Loop, step: Interleavings.Step, maths: Maths)
    requires Lawful(maths) && Accounted(l, maths)
    ensures Accounted(Stepped(l, step, maths), maths)
  {
    hide Emitted, FlaggedSource, Next, F.InSafeNetwork;
    assert Init(l.trace + [step]) == l.trace;
    forall f | f in Next(l.sys, step, maths).out ensures Emitted(f, l.trace + [step], maths) {
      OutputIsEmitted(l.sys, l.trace, step, f, maths);
    }
    forall b | FlaggedSource(b, l.trace, maths) ensures FlaggedSource(b, l.trace + [step], maths) {
      FlaggedStays(b, l.trace, step, maths);
    }
    forall p | JustifiedPut(p, l.trace, maths) ensures JustifiedPut(p, l.trace + [step], maths) {
    }
    assert Run(Start(), l.trace + [step], maths) == Next(l.sys, step, maths);
    hide Run, Start, JustifiedPut;
  }

  lemma InferKeepsAccounts(l: Loop, maths: Maths)
    requires Lawful(maths) && Accounted(l, maths)
    ensures Accounted(Moved(l, Infer, maths), maths)
  {
    if l.holding.None? && l.sys.out != [] {
      var f := l.sys.out[0];
      assert f in l.sys.out;
      SteppingKeepsAccounts(l, Receive, maths);
      hide Run, Next, Emitted, IsMalicious, JustifiedPut;
      EmittedStays(f, l.trace, Receive, maths);
    }
  }

  lemma PutIsJustified(b: seq<u8>, safe: seq<F.IPNet>, trace: seq<Interleavings.Step>, maths: Maths)
    requires Lawful(maths) && FlaggedSource(b, trace, maths)
    requires ParsedSource(b).Some? && !F.InSafeNetwork(safe, ParsedSource(b).value)
    ensures JustifiedPut(Put(ParsedSource(b).value, safe), trace, maths)
  {
    hide IsMalicious, F.InSafeNetwork, Be32, Be32Bytes, FlaggedSource;
    Be32RoundTrip(b, 0);
    assert b[0..4] == b;
  }

  lemma HandleKeepsAccounts(l: Loop, safe: seq<F.IPNet>, at: nat, putWorks: bool, maths: Maths)
    requires Lawful(maths) && Accounted(l, maths) && InShape(l.sys)
    ensures Accounted(Moved(l, HandleAlert(safe, at, putWorks), maths), maths)
  {
    if l.alerts != [] {
      var src := ParsedSource(l.alerts[0]);
      var taken := l.(alerts := l.alerts[1..], control := F.Handled(l.control, safe, src, at, putWorks));
      assert l.alerts[0] in l.alerts && Accounted(taken, maths);
      hide Accounted, FlaggedSource, ParsedSource, F.InSafeNetwork, F.IsLive, F.Handled, Next, IsMalicious;
      if F.Acts(l.control, safe, src, at) && putWorks {
        PutIsJustified(l.alerts[0], safe, l.trace, maths);
        PutsGrow(taken, Put(src.value, safe), maths);
      }
    }
  }

  lemma PutsGrow(l: Loop, p: Put, maths: Maths)
    requires Lawful(maths) && Accounted(l, maths) && JustifiedPut(p, l.trace, maths)
    ensures Accounted(l.(puts := l.puts + [p]), maths)
  {
    hide FlaggedSource, JustifiedPut, Emitted, Run;
  }

  lemma StepKeepsAccounts(l: Loop, step: LoopStep, maths: Maths)
    requires Lawful(maths) && InShape(l.sys) && Accounted(l, maths)
    ensures Accounted(Moved(l, step, maths), maths)
  {
    hide Run, Next, Emitted, FlaggedSource, JustifiedPut, InShape;
    match step
    case Aggregate(s) => SteppingKeepsAccounts(l, s, maths);
    case Infer => InferKeepsAccounts(l, maths);
    case SendAlert =>
    case HandleAlert(safe, at, putWorks) => HandleKeepsAccounts(l, safe, at, putWorks, maths);
    case Sweep(_, _) =>
  }

  lemma {:induction false} RunIsAccounted(control: F.Control, schedule: seq<LoopStep>, maths: Maths)
    requires Lawful(maths)
    ensures Accounted(LoopAfter(control, schedule, maths), maths)
  {
    if schedule != [] {
      hide Accounted, Moved;
      RunIsAccounted(control, Init(schedule), maths);
      StepKeepsAccounts(LoopAfter(control, Init(schedule), maths), Last(schedule), maths);
    }
  }

  // ---- Blocks name their packets ----

  /** How many packets of this key the run brings to the aggregator. */
  function Arrivals(schedule: seq<LoopStep>, k: FlowKey): nat {
    if schedule == [] then 0
    else
      var step := Last(schedule);
      Arrivals(Init(schedule), k) + One(step.Aggregate? && step.step.Enter? && KeyOf(step.step.m) == k)
  }

  lemma AdmittedStep(trace: seq<Interleavings.Step>, step: Interleavings.Step, k: FlowKey, maths: Maths)
    ensures |Admitted(trace, k, maths)| <= |Admitted(trace + [step], k, maths)|
            <= |Admitted(trace, k, maths)| + One(step.Enter? && KeyOf(step.m) == k)
  {
    hide Run, Refuses, KeyOf;
    assert Init(trace + [step]) == trace;
  }

  lemma {:induction false} AdmittedPrefix(trace: seq<Interleavings.Step>, n: nat, k: FlowKey, maths: Maths)
    requires n <= |trace|
    ensures |Admitted(trace[..n], k, maths)| <= |Admitted(trace, k, maths)|
    decreases |trace|
  {
    hide Admitted, Run, Refuses, KeyOf;
    if n < |trace| {
      AdmittedPrefix(Init(trace), n, k, maths);
      assert Init(trace)[..n] == trace[..n] && Init(trace) + [Last(trace)] == trace;
      AdmittedStep(Init(trace), Last(trace), k, maths);
    } else {
      assert trace[..n] == trace;
    }
  }

  lemma {:induction false} AdmittedArrived(control: F.Control, schedule: seq<LoopStep>, k: FlowKey, maths: Maths)
    requires forall x: real :: maths.exp2(x) > 0.0
    ensures |Admitted(LoopAfter(control, schedule, maths).trace, k, maths)| <= Arrivals(schedule, k)
  {
    if schedule != [] {
      var before, step := LoopAfter(control, Init(schedule), maths), Last(schedule);
      AdmittedArrived(control, Init(schedule), k, maths);
      if step.Aggregate? {
        AdmittedStep(before.trace, step.step, k, maths);
      } else if step.Infer? {
        AdmittedStep(before.trace, Receive, k, maths);
      }
      hide Admitted, KeyOf, IsMalicious, Next, StartLoop;
    }
  }

  /** At step `n` the flush emitted a flow of at least 31 packets, the first of them from
      this address, that the classifier flags. */
  ghost predicate Justifies(trace: seq<Interleavings.Step>, n: nat, ip: u32, maths: Maths)
    requires forall x: real :: maths.exp2(x) > 0.0
  {
    && n < |trace| && trace[n].EmitFlow?
    && var h := FlowLogOf(trace[..n], trace[n].key, maths).taken;
    && |h| >= 31 && h[0].srcIp == ip
    && IsMalicious(WindowFeatures(h, PortLogOf(trace[..n], ip, maths).snapped, maths), maths)
  }

  lemma FlaggedWindowsAreLarge(h: seq<FlowPacketMeta>, ports: seq<u16>, maths: Maths)
    requires Lawful(maths) && h != [] && IsMalicious(WindowFeatures(h, ports, maths), maths)
    ensures |h| >= 31
  {
    var snapshot: PortShard := if ports == [] then map[] else map[h[0].srcIp := P.PortsOf(ports)];
    FeaturesOfPackets(h, ports, snapshot, maths);
    StatsArePlausible(h);
    hide FeaturesOf, WindowFeatures, IsMalicious, StatsOf;
    assert IsReported(WindowFeatures(h, ports, maths), StatsOf(h), snapshot, maths);
    WindowCountsPackets(h, ports, maths);
    if |h| <= 30 {
      SmallFlowsAreBenign(WindowFeatures(h, ports, maths), StatsOf(h), snapshot, maths);
    }
  }

  lemma WindowCountsPackets(h: seq<FlowPacketMeta>, ports: seq<u16>, maths: Maths)
    requires h != []
    ensures WindowFeatures(h, ports, maths).packetCount == |h|
    ensures WindowFeatures(h, ports, maths).srcIp == Be32Bytes(h[0].srcIp)
  {
  }

  lemma FlaggedEmissionJustifies(trace: seq<Interleavings.Step>, n: nat, f: FlowFeatures, ip: u32, maths: Maths)
    requires Lawful(maths) && Emits(trace, n, f, maths) && IsMalicious(f, maths) && f.srcIp == Be32Bytes(ip)
    ensures Justifies(trace, n, ip, maths)
  {
    var k := trace[n].key;
    EmittedFeaturesAreThoseOfTheWindow(trace[..n], k, maths);
    var h := FlowLogOf(trace[..n], k, maths).taken;
    hide Run, Enabled, Features, FlowLogOf, PortLogOf, IsMalicious, WindowFeatures, Be32Bytes, Be32;
    WindowCountsPackets(h, PortLogOf(trace[..n], h[0].srcIp, maths).snapped, maths);
    Be32Inverse(ip);
    Be32Inverse(h[0].srcIp);
    FlaggedWindowsAreLarge(h, PortLogOf(trace[..n], ip, maths).snapped, maths);
  }

  lemma {:induction false} JustifyingPacketsArrived(
      control: F.Control, schedule: seq<LoopStep>, n: nat, ip: u32, maths: Maths)
    requires Lawful(maths) && Justifies(LoopAfter(control, schedule, maths).trace, n, ip, maths)
    ensures Arrivals(schedule, LoopAfter(control, schedule, maths).trace[n].key) >= 31
  {
    var trace := LoopAfter(control, schedule, maths).trace;
    var k := trace[n].key;
    hide LoopAfter, FlowLogOf, Admitted, WindowFeatures, IsMalicious;
    LogsAreComplete(trace[..n], k, ip, maths);
    AdmittedPrefix(trace, n, k, maths);
    AdmittedArrived(control, schedule, k, maths);
  }

  /** Every automatic block is justified. Whatever packets come in, however the goroutines
      interleave, whichever calls fail: for each address the controller has put there was
      an emission of a flow whose packets, at least 31 of them and all brought in by this
      run, started with one from that address, and whose features the classifier flags;
      and the address lay in no safe network when it was handled. */
  lemma {:induction false} EveryBlockIsJustified(control: F.Control, schedule: seq<LoopStep>, maths: Maths, p: Put)
    requires Lawful(maths) && p in LoopAfter(control, schedule, maths).puts
    ensures !F.InSafeNetwork(p.safe, p.ip)
    ensures var trace := LoopAfter(control, schedule, maths).trace;
            exists n: nat :: Justifies(trace, n, p.ip, maths) && Arrivals(schedule, trace[n].key) >= 31
  {
    var l := LoopAfter(control, schedule, maths);
    RunIsAccounted(control, schedule, maths);
    assert JustifiedPut(p, l.trace, maths);
    hide LoopAfter, Accounted, Justifies, F.InSafeNetwork, IsMalicious, Emits;
    var f :| Emitted(f, l.trace, maths) && IsMalicious(f, maths) && f.srcIp == Be32Bytes(p.ip);
    var n: nat :| Emits(l.trace, n, f, maths);
    FlaggedEmissionJustifies(l.trace, n, f, p.ip, maths);
    JustifyingPacketsArrived(control, schedule, n, p.ip, maths);
  }

  /** Nor does the cap on ports ever matter to a block: with the exact histogram of the
      ports recorded, the flow would have been flagged too. */
  lemma {:induction false} BlocksSurviveExactCounting(trace: seq<Interleavings.Step>, n: nat, ip: u32, maths: Maths)
    requires Lawful(maths) && Justifies(trace, n, ip, maths)
    ensures var h := FlowLogOf(trace[..n], trace[n].key, maths).taken;
            var ports := PortLogOf(trace[..n], ip, maths).snapped;
            |ports| < 0x1_0000_0000 ==>
              IsMalicious(WindowFeatures(h, ports, maths).(
                            portEntropyBits := P.ExactEntropy(ports, maths.log2, P.ALL_PORTS)), maths)
  {
    var h := FlowLogOf(trace[..n], trace[n].key, maths).taken;
    var ports := PortLogOf(trace[..n], ip, maths).snapped;
    hide FlowLogOf, PortLogOf, IsMalicious;
    if |ports| < 0x1_0000_0000 {
      CappingNeverFlags(WindowFeatures(h, ports, maths), ports, maths);
    }
  }

  // ---- Addresses survive the trip round the loop ----

  /** The event an IPv4 packet leaves behind, as the kernel wrote it. */
  function EventAfter(dry: bool, st: K.KState, a: K.Arrival): FlowPacketMeta
    requires |K.After(dry, st, a).events| > |st.events|
  {
    Last(K.After(dry, st, a).events)
  }

  lemma EventCarriesTheSource(dry: bool, st: K.KState, a: K.Arrival)
    requires KernelRuns.IsIpv4(a.packet) && |K.After(dry, st, a).events| > |st.events|
    ensures EventAfter(dry, st, a).srcIp == K.HeadersOf(a.packet).seen.srcIp
  {
    KernelRuns.SeenSourceIsOnTheWire(a.packet);
    hide K.HeadersOf, K.RateLimit, K.RfcViolation, K.IsBlacklisted, K.IsPortBlocked, KernelRuns.IsIpv4;
    assert K.FindingOf(st, a).seen == K.HeadersOf(a.packet).seen;
  }

  /** From the wire through the kernel's record, the control plane's decoder, the flow
      that the packet opens, its feature vector and the block key, and back to the table
      the kernel looks sources up in: the entry made for a flow is around exactly the
      source bytes of its first packet. */
  lemma {:induction false} AddressesSurviveTheLoop(
      dry: bool, st: K.KState, a: K.Arrival, extra: seq<u8>,
      later: seq<FlowPacketMeta>, snapshot: PortShard, maths: Maths, source: u32)
    requires KernelRuns.IsIpv4(a.packet) && |K.After(dry, st, a).events| > |st.events|
    ensures var first := Decoded(KernelBytes(EventAfter(dry, st, a)) + extra);
            var f := FeaturesOf(StatsOf([first] + later), snapshot, maths);
            var at := Ethernet(a.packet).value.next + 12;
            && f.srcIp == a.packet[at..at + 4]
            && ParsedSource(f.srcIp).Some?
            && var key := F.NewLpmKey(F.Cidr(F.V4(Be32Bytes(ParsedSource(f.srcIp).value)), 32));
            && key.Some? && KeyFits(key.value)
            && (Inside(source, NodeOf(key.value)) <==> source == KernelRuns.WireSource(a.packet))
  {
    var m, at := EventAfter(dry, st, a), Ethernet(a.packet).value.next + 12;
    KernelRuns.SeenSourceIsOnTheWire(a.packet);
    EventCarriesTheSource(dry, st, a);
    var seen := Be32(a.packet, at);
    hide K.After, K.HeadersOf, EventAfter, Ethernet, FeaturesOf, StatsOf, KernelBytes, Decoded, Be32, Le32, Be32Bytes;
    hide NetworkValue, F.NewLpmKey, NodeOf, Inside, KernelRuns.IsIpv4;
    NetworkValueOfLoad(a.packet, at);
    Be32RoundTrip(a.packet, at);
    Be32Inverse(seen);
    DecodeOfKernelBytes(m, extra);
    FeaturesNameTheFirstSource(Decoded(KernelBytes(m) + extra), later, snapshot, maths);
    F.HostTarget(seen);
    HostNode(seen, source);
  }

  lemma FeaturesNameTheFirstSource(
      first: FlowPacketMeta, later: seq<FlowPacketMeta>, snapshot: PortShard, maths: Maths)
    ensures FeaturesOf(StatsOf([first] + later), snapshot, maths).srcIp == Be32Bytes(first.srcIp)
  {
    CountersCount([first] + later);
    hide StatsOf, StdDevOf, P.EntropyOf, Be32Bytes, Count;
  }

  /** The kernel at this arrival, after the target has been put into its table. */
  function AfterBlocking(a: K.Arrival, t: F.Target): K.Arrival
    requires F.IsUsable(t)
  {
    F.EntryCoversTarget(t, 0);
    a.(policy := a.policy.(reputation := a.policy.reputation[NodeOf(F.NewLpmKey(t).value) := BLOCK]))
  }

  lemma StoredAfterBlocking(a: K.Arrival, t: F.Target, source: u32)
    requires F.IsUsable(t) && WellFormed(a.policy.reputation) && OnlyBlocks(a.policy.reputation)
    ensures var table := AfterBlocking(a, t).policy.reputation;
            && WellFormed(table) && OnlyBlocks(table)
            && (KernelRuns.IsStored(table, source) <==> KernelRuns.IsStored(a.policy.reputation, source) || F.Covers(t, source))
  {
    F.EntryCoversTarget(t, source);
    var node, old', table := NodeOf(F.NewLpmKey(t).value), a.policy.reputation, AfterBlocking(a, t).policy.reputation;
    hide F.Covers, F.IsUsable, F.NewLpmKey, NodeOf, Inside, AfterBlocking;
    assert node in table && (Inside(source, node) <==> F.Covers(t, source));
    if KernelRuns.IsStored(old', source) {
      var p :| p in old' && Inside(source, p);
      assert p in table;
    }
  }

  /** Blocking any target works: whatever was in the table, afterwards the enforcing kernel
      drops every IPv4 packet from an address the target covers, except fragments whose
      source has tokens. */
  lemma BlockedTargetsAreDropped(t: F.Target, st: K.KState, a: K.Arrival)
    requires F.IsUsable(t) && WellFormed(a.policy.reputation) && OnlyBlocks(a.policy.reputation)
    requires KernelRuns.IsIpv4(a.packet) && F.Covers(t, KernelRuns.WireSource(a.packet))
    ensures K.WireOf(false, st, AfterBlocking(a, t)) == K.XdpPass <==>
              KernelRuns.IsFragment(a.packet) &&
              K.RateGrants(st.rate - a.env.evicted, K.HeadersOf(a.packet).seen.srcIp, a.now)
  {
    StoredAfterBlocking(a, t, KernelRuns.WireSource(a.packet));
    hide WellFormed, OnlyBlocks, KernelRuns.IsStored, KernelRuns.IsIpv4, KernelRuns.WireSource, F.Covers, F.IsUsable, NodeOf;
    KernelRuns.BlockedSourcesAreDropped(st, AfterBlocking(a, t));
  }

  /** And it touches nobody else: for packets from outside the target, of any protocol,
      verdict and state are as without the block. */
  lemma BlockingTouchesNobodyElse(t: F.Target, dry: bool, st: K.KState, a: K.Arrival)
    requires F.IsUsable(t) && WellFormed(a.policy.reputation) && OnlyBlocks(a.policy.reputation)
    requires KernelRuns.IsIpv4(a.packet) ==> !F.Covers(t, KernelRuns.WireSource(a.packet))
    ensures K.After(dry, st, AfterBlocking(a, t)) == K.After(dry, st, a)
    ensures K.WireOf(dry, st, AfterBlocking(a, t)) == K.WireOf(dry, st, a)
  {
    var a' := AfterBlocking(a, t);
    if KernelRuns.IsIpv4(a.packet) {
      var source := KernelRuns.WireSource(a.packet);
      StoredAfterBlocking(a, t, source);
      KernelRuns.SeenSourceIsOnTheWire(a.packet);
      BlockedIffInsideAStoredPrefix(a.policy.reputation, source);
      BlockedIffInsideAStoredPrefix(a'.policy.reputation, source);
      hide WellFormed, OnlyBlocks, KernelRuns.IsIpv4, KernelRuns.WireSource, F.Covers, F.IsUsable, NodeOf, Inside, Lookup, K.HeadersOf, NetworkValue;
      assert K.IsBlacklisted(a'.policy.reputation, K.HeadersOf(a.packet).seen.srcIp)
             == K.IsBlacklisted(a.policy.reputation, K.HeadersOf(a.packet).seen.srcIp);
      SameFinding(a, a', st);
    } else {
      WithoutSource(a.packet);
      hide F.Covers, F.IsUsable, NodeOf, K.HeadersOf;
      SameFinding(a, a', st);
    }
  }

  lemma WithoutSource(p: seq<u8>)
    requires !KernelRuns.IsIpv4(p)
    ensures var h := K.HeadersOf(p); h.NotIp? || h.Bad?
  {
    hide Ethernet, Ipv4, Tcp, Udp, Arp;
  }

  lemma SameFinding(a: K.Arrival, a': K.Arrival, st: K.KState)
    requires a' == a.(policy := a.policy.(reputation := a'.policy.reputation))
    requires var h := K.HeadersOf(a.packet);
             h.Datagram? ==> K.IsBlacklisted(a'.policy.reputation, h.seen.srcIp) == K.IsBlacklisted(a.policy.reputation, h.seen.srcIp)
    ensures K.FindingOf(st, a') == K.FindingOf(st, a)
  {
    hide K.HeadersOf, K.IsBlacklisted, K.RfcViolation, K.IsPortBlocked, K.RateLimit;
  }

  /** No alert and no sweep writes anything but blocks; nor does the table gain anything
      else as long as the others keep to blocking and unblocking. */
  lemma ControllerOnlyBlocks(c: F.Control, i: F.Input)
    requires WellFormed(c.kernel) && OnlyBlocks(c.kernel)
    requires i.Foreign? ==> i.node.len <= 32 && i.value in {None, Some(BLOCK)}
    ensures WellFormed(F.Step(c, i).kernel) && OnlyBlocks(F.Step(c, i).kernel)
  {
  }
}
