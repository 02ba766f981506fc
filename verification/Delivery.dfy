/** Nothing is lost round the loop: every feature vector that is queued is received, every
    flagged one becomes an alert, every alert is handled in turn, and every alert that may
    lead to a block does. */
module Delivery {
  import opened Words
  import opened Telemetry
  import opened Flows
  import opened Aggregation
  import opened Channels
  import opened Interleavings
  import opened Classifier
  import opened Reputation
  import opened ClosedLoop
  import K = Kernel
  import KernelRuns
  import F = Feedback

  // ---- The feature channel ----

  /** A vector emitted while fewer than 4096 are queued is queued. */
  function QueuedBy(s: Sys, step: Interleavings.Step, maths: Maths): seq<FlowFeatures> {
    if step.EmitFlow? && Enabled(s, step) && |s.out| < 4096 then [Features(s, step.key, maths)] else []
  }

  function ReceivedBy(s: Sys, step: Interleavings.Step): seq<FlowFeatures> {
    if step.Receive? && s.out != [] then [s.out[0]] else []
  }

  function Queued(trace: seq<Interleavings.Step>, maths: Maths): seq<FlowFeatures> {
    if trace == [] then []
    else Queued(Init(trace), maths) + QueuedBy(Run(Start(), Init(trace), maths), Last(trace), maths)
  }

  function Received(trace: seq<Interleavings.Step>, maths: Maths): seq<FlowFeatures> {
    if trace == [] then []
    else Received(Init(trace), maths) + ReceivedBy(Run(Start(), Init(trace), maths), Last(trace))
  }

  lemma StepQueues(s: Sys, step: Interleavings.Step, maths: Maths)
    requires InShape(s)
    ensures ReceivedBy(s, step) + Next(s, step, maths).out == s.out + QueuedBy(s, step, maths)
  {
    hide Entered, Recorded, Features;
  }

  /** The channel keeps every queued vector, in order, until it is received. */
  lemma {:induction false} ChannelIsFifo(trace: seq<Interleavings.Step>, maths: Maths)
    ensures Received(trace, maths) + Run(Start(), trace, maths).out == Queued(trace, maths)
  {
    hide Start, Next, QueuedBy, ReceivedBy;
    if trace == [] {
      NothingQueuedAtFirst();
    } else {
      var before, step := Init(trace), Last(trace);
      ChannelIsFifo(before, maths);
      StepQueues(Run(Start(), before, maths), step, maths);
      Reassociate(Received(before, maths), ReceivedBy(Run(Start(), before, maths), step), Run(Start(), trace, maths).out);
    }
  }

  lemma Reassociate(a: seq<FlowFeatures>, b: seq<FlowFeatures>, c: seq<FlowFeatures>)
    ensures a + b + c == a + (b + c)
  {
  }

  lemma NothingQueuedAtFirst()
    ensures Start().out == []
  {
    hide NewAggregator;
  }

  // ---- From features to alerts ----

  /** The sources of the flagged ones, in order. */
  function FlaggedSources(fs: seq<FlowFeatures>, maths: Maths): seq<seq<u8>>
    requires forall x: real :: maths.exp2(x) > 0.0
  {
    if fs == [] then []
    else FlaggedSources(Init(fs), maths) + if IsMalicious(Last(fs), maths) then [Last(fs).srcIp] else []
  }

  /** The alerts the controller has taken off the channel. */
  function TakenUp(control: F.Control, schedule: seq<LoopStep>, maths: Maths): seq<seq<u8>>
    requires forall x: real :: maths.exp2(x) > 0.0
  {
    if schedule == [] then []
    else
      var l := LoopAfter(control, Init(schedule), maths);
      TakenUp(control, Init(schedule), maths)
      + if Last(schedule).HandleAlert? && l.alerts != [] then [l.alerts[0]] else []
  }

  function InHand(l: Loop): seq<seq<u8>> {
    if l.holding.Some? then [l.holding.value] else []
  }

  /** The loop's aggregator is where its trace has brought it. */
  lemma {:induction false} LoopFollowsItsTrace(control: F.Control, schedule: seq<LoopStep>, maths: Maths)
    requires forall x: real :: maths.exp2(x) > 0.0
    ensures var l := LoopAfter(control, schedule, maths); l.sys == Run(Start(), l.trace, maths)
  {
    hide Start, Moved;
    if schedule != [] {
      LoopFollowsItsTrace(control, Init(schedule), maths);
      MovingFollows(LoopAfter(control, Init(schedule), maths), Last(schedule), maths);
    }
  }

  lemma MovingFollows(l: Loop, step: LoopStep, maths: Maths)
    requires (forall x: real :: maths.exp2(x) > 0.0) && InShape(l.sys) && l.sys == Run(Start(), l.trace, maths)
    ensures var l' := Moved(l, step, maths); l'.sys == Run(Start(), l'.trace, maths)
  {
    hide Start, Next, IsMalicious, F.Handled, F.Swept, F.Acts;
    var s := if step.Aggregate? then step.step else Receive;
    assert Init(l.trace + [s]) == l.trace;
  }

  /** At every moment of every run, the sources of the flagged vectors received so far are,
      in order, those the controller has taken up, those waiting in the alert channel, and
      the one inference is about to send. */
  lemma {:induction false} AlertsAreDelivered(control: F.Control, schedule: seq<LoopStep>, maths: Maths)
    requires forall x: real :: maths.exp2(x) > 0.0
    ensures var l := LoopAfter(control, schedule, maths);
            FlaggedSources(Received(l.trace, maths), maths) == TakenUp(control, schedule, maths) + l.alerts + InHand(l)
  {
    if schedule != [] {
      var before, step := LoopAfter(control, Init(schedule), maths), Last(schedule);
      AlertsAreDelivered(control, Init(schedule), maths);
      LoopFollowsItsTrace(control, Init(schedule), maths);
      StepDelivers(before, step, TakenUp(control, Init(schedule), maths), maths);
      hide Moved, Received, FlaggedSources, InHand, Run;
    }
  }

  lemma ReceivedStep(trace: seq<Interleavings.Step>, step: Interleavings.Step, maths: Maths)
    ensures Received(trace + [step], maths) == Received(trace, maths) + ReceivedBy(Run(Start(), trace, maths), step)
  {
    hide Run, ReceivedBy;
    assert Init(trace + [step]) == trace;
  }

  lemma FlaggedStep(fs: seq<FlowFeatures>, f: FlowFeatures, maths: Maths)
    requires forall x: real :: maths.exp2(x) > 0.0
    ensures FlaggedSources(fs + [f], maths) == FlaggedSources(fs, maths) + if IsMalicious(f, maths) then [f.srcIp] else []
  {
    hide IsMalicious;
    assert Init(fs + [f]) == fs;
  }

  lemma InferDelivers(l: Loop, taken: seq<seq<u8>>, maths: Maths)
    requires (forall x: real :: maths.exp2(x) > 0.0) && l.sys == Run(Start(), l.trace, maths) && InShape(l.sys)
    requires FlaggedSources(Received(l.trace, maths), maths) == taken + l.alerts + InHand(l)
    ensures var l' := Moved(l, Infer, maths);
            FlaggedSources(Received(l'.trace, maths), maths) == taken + l'.alerts + InHand(l')
  {
    hide Run, Next, Received, FlaggedSources, IsMalicious, Start;
    if l.holding.None? && l.sys.out != [] {
      ReceivedStep(l.trace, Receive, maths);
      FlaggedStep(Received(l.trace, maths), l.sys.out[0], maths);
    }
  }

  lemma HandleDelivers(l: Loop, step: LoopStep, maths: Maths)
    requires (forall x: real :: maths.exp2(x) > 0.0) && InShape(l.sys) && step.HandleAlert?
    ensures var l' := Moved(l, step, maths);
            && l'.trace == l.trace && InHand(l') == InHand(l)
            && (if l.alerts != [] then [l.alerts[0]] else []) + l'.alerts == l.alerts
  {
    hide F.Handled, F.Acts, ParsedSource;
    assert l.alerts != [] ==> l.alerts == [l.alerts[0]] + l.alerts[1..];
  }

  lemma SendDelivers(l: Loop, step: LoopStep, maths: Maths)
    requires (forall x: real :: maths.exp2(x) > 0.0) && InShape(l.sys) && (step.SendAlert? || step.Sweep?)
    ensures var l' := Moved(l, step, maths); l'.trace == l.trace && l'.alerts + InHand(l') == l.alerts + InHand(l)
  {
    hide F.Swept;
  }

  lemma AggregateDelivers(l: Loop, s: Interleavings.Step, maths: Maths)
    requires (forall x: real :: maths.exp2(x) > 0.0) && InShape(l.sys)
    ensures var l' := Moved(l, Aggregate(s), maths);
            && Received(l'.trace, maths) == Received(l.trace, maths)
            && l'.alerts == l.alerts && InHand(l') == InHand(l)
  {
    ReceivedStep(l.trace, s, maths);
    hide Run, Next, Received;
  }

  lemma StepDelivers(l: Loop, step: LoopStep, taken: seq<seq<u8>>, maths: Maths)
    requires (forall x: real :: maths.exp2(x) > 0.0) && l.sys == Run(Start(), l.trace, maths) && InShape(l.sys)
    requires FlaggedSources(Received(l.trace, maths), maths) == taken + l.alerts + InHand(l)
    ensures var l' := Moved(l, step, maths);
            var taken' := taken + if step.HandleAlert? && l.alerts != [] then [l.alerts[0]] else [];
            FlaggedSources(Received(l'.trace, maths), maths) == taken' + l'.alerts + InHand(l')
  {
    hide *;
    match step
    case Aggregate(s) => AggregateDelivers(l, s, maths);
    case Infer => InferDelivers(l, taken, maths);
    case HandleAlert(_, _, _) => HandleDelivers(l, step, maths);
    case SendAlert =>
      SendDelivers(l, step, maths);
      assert taken + l.alerts + InHand(l) == taken + (l.alerts + InHand(l));
    case Sweep(_, _) =>
      SendDelivers(l, step, maths);
      assert taken + l.alerts + InHand(l) == taken + (l.alerts + InHand(l));
  }

  /** So a flagged flow whose features found room in the channel is never lost: it is
      still queued, or its source is with inference, in the alert channel or taken up. */
  lemma {:induction false} NoFlaggedFlowIsLost(control: F.Control, schedule: seq<LoopStep>, f: FlowFeatures, maths: Maths)
    requires forall x: real :: maths.exp2(x) > 0.0
    requires f in Queued(LoopAfter(control, schedule, maths).trace, maths) && IsMalicious(f, maths)
    ensures var l := LoopAfter(control, schedule, maths);
            f in l.sys.out || f.srcIp in TakenUp(control, schedule, maths) + l.alerts + InHand(l)
  {
    var l := LoopAfter(control, schedule, maths);
    LoopFollowsItsTrace(control, schedule, maths);
    AlertsAreDelivered(control, schedule, maths);
    hide LoopAfter, Run, Received, Queued, TakenUp, IsMalicious, FlaggedSources, InHand;
    ChannelIsFifo(l.trace, maths);
    if f in Received(l.trace, maths) {
      FlaggedIsListed(Received(l.trace, maths), f, maths);
    }
  }

  lemma {:induction false} FlaggedIsListed(fs: seq<FlowFeatures>, f: FlowFeatures, maths: Maths)
    requires (forall x: real :: maths.exp2(x) > 0.0) && f in fs && IsMalicious(f, maths)
    ensures f.srcIp in FlaggedSources(fs, maths)
  {
    hide IsMalicious;
    if f != Last(fs) {
      FlaggedIsListed(Init(fs), f, maths);
    }
  }

  /** Inference keeps an alert to itself only while 1024 are waiting. */
  lemma {:induction false} AlertsAreSentOn(control: F.Control, schedule: seq<LoopStep>, maths: Maths)
    requires forall x: real :: maths.exp2(x) > 0.0
    ensures var l, l' := LoopAfter(control, schedule, maths), LoopAfter(control, schedule + [SendAlert], maths);
            && |l.alerts| <= 1024
            && (l'.holding.Some? <==> l.holding.Some? && |l.alerts| == 1024)
  {
    assert Init(schedule + [SendAlert]) == schedule;
    AlertsAreBounded(control, schedule, maths);
    hide Start;
  }

  lemma {:induction false} AlertsAreBounded(control: F.Control, schedule: seq<LoopStep>, maths: Maths)
    requires forall x: real :: maths.exp2(x) > 0.0
    ensures |LoopAfter(control, schedule, maths).alerts| <= 1024
  {
    hide Start, Next, IsMalicious, F.Handled, F.Swept, F.Acts, ParsedSource;
    if schedule != [] {
      AlertsAreBounded(control, Init(schedule), maths);
    }
  }

  // ---- From alerts to blocks ----

  /** What the run has brought to the controller: an alert for each one taken up, in the
      circumstances of that moment, and the sweeps. */
  function ControlInputs(control: F.Control, schedule: seq<LoopStep>, maths: Maths): seq<F.Input>
    requires forall x: real :: maths.exp2(x) > 0.0
  {
    if schedule == [] then []
    else
      var l := LoopAfter(control, Init(schedule), maths);
      ControlInputs(control, Init(schedule), maths)
      + match Last(schedule)
        case HandleAlert(safe, at, putWorks) =>
          if l.alerts == [] then [] else [F.Alert(ParsedSource(l.alerts[0]), safe, at, putWorks)]
        case Sweep(at, fails) => [F.Sweep(at, fails)]
        case _ => []
  }

  /** The addresses of the alerts among the inputs. */
  function Alerted(run: seq<F.Input>): seq<Option<u32>> {
    if run == [] then [] else Alerted(Init(run)) + if Last(run).Alert? then [Last(run).src] else []
  }

  function Parsed(bytes: seq<seq<u8>>): seq<Option<u32>> {
    seq(|bytes|, i requires 0 <= i < |bytes| => ParsedSource(bytes[i]))
  }

  lemma {:induction false} OneMoreInput(c: F.Control, run: seq<F.Input>, i: F.Input)
    ensures F.After(c, run + [i]) == F.Step(F.After(c, run), i)
    decreases |run|
  {
    hide F.Step;
    if run == [] {
      assert run + [i] == [i] && [i][1..] == [];
      assert F.After(c, [i]) == F.After(F.Step(c, i), []);
    } else {
      assert (run + [i])[0] == run[0] && (run + [i])[1..] == run[1..] + [i];
      OneMoreInput(F.Step(c, run[0]), run[1..], i);
    }
  }

  lemma OneMoreAlerted(run: seq<F.Input>, i: F.Input)
    ensures Alerted(run + [i]) == Alerted(run) + if i.Alert? then [i.src] else []
  {
    assert Init(run + [i]) == run;
  }

  /** The controller in the loop runs exactly on the alerts taken up, in their order, and the
      sweeps: what is proved of its runs holds in the loop. */
  lemma {:induction false} ControllerRunsOnAlerts(control: F.Control, schedule: seq<LoopStep>, maths: Maths)
    requires forall x: real :: maths.exp2(x) > 0.0
    ensures var inputs := ControlInputs(control, schedule, maths);
            && LoopAfter(control, schedule, maths).control == F.After(control, inputs)
            && Alerted(inputs) == Parsed(TakenUp(control, schedule, maths))
  {
    hide F.Step, F.After, Moved, ParsedSource;
    if schedule != [] {
      var l, step := LoopAfter(control, Init(schedule), maths), Last(schedule);
      var inputs, taken := ControlInputs(control, Init(schedule), maths), TakenUp(control, Init(schedule), maths);
      ControllerRunsOnAlerts(control, Init(schedule), maths);
      MovingControls(l, step, maths);
      if step.HandleAlert? && l.alerts != [] {
        var i := F.Alert(ParsedSource(l.alerts[0]), step.safe, step.at, step.putWorks);
        OneMoreInput(control, inputs, i);
        OneMoreAlerted(inputs, i);
        assert Parsed(taken + [l.alerts[0]]) == Parsed(taken) + [i.src];
      } else if step.Sweep? {
        OneMoreInput(control, inputs, F.Sweep(step.at, step.fails));
        OneMoreAlerted(inputs, F.Sweep(step.at, step.fails));
      } else {
        assert inputs + [] == inputs && taken + [] == taken;
      }
    } else {
      NoInputs(control);
    }
  }

  lemma NoInputs(c: F.Control)
    ensures F.After(c, []) == c
  {
  }

  lemma MovingControls(l: Loop, step: LoopStep, maths: Maths)
    requires (forall x: real :: maths.exp2(x) > 0.0) && InShape(l.sys)
    ensures Moved(l, step, maths).control
            == match step
               case HandleAlert(safe, at, putWorks) =>
                 if l.alerts == [] then l.control
                 else F.Step(l.control, F.Alert(ParsedSource(l.alerts[0]), safe, at, putWorks))
               case Sweep(at, fails) => F.Step(l.control, F.Sweep(at, fails))
               case _ => l.control
  {
    hide F.Handled, F.Swept, F.Acts, Next, IsMalicious, ParsedSource;
  }

  /** In every run: taking up an alert whose address is in no safe network and not under a
      live block, with a working put, blocks the address. */
  lemma {:induction false} AlertsBecomeBlocks(
      control: F.Control, schedule: seq<LoopStep>, ip: u32, safe: seq<F.IPNet>, at: nat, maths: Maths)
    requires forall x: real :: maths.exp2(x) > 0.0
    requires var l := LoopAfter(control, schedule, maths);
             && l.alerts != [] && l.alerts[0] == Be32Bytes(ip)
             && !F.InSafeNetwork(safe, ip) && !(ip in l.control.blocked && at < l.control.blocked[ip])
    ensures var l' := LoopAfter(control, schedule + [HandleAlert(safe, at, true)], maths);
            F.IsBlockedSince(l'.control, ip, at) && l'.puts != [] && Last(l'.puts) == Put(ip, safe)
  {
    var step := HandleAlert(safe, at, true);
    Be32Inverse(ip);
    assert Init(schedule + [step]) == schedule;
    hide Be32, Be32Bytes, F.InSafeNetwork, IsMalicious, Next;
  }

  /** At step `n` of the schedule this put was made. */
  predicate MadeAt(control: F.Control, schedule: seq<LoopStep>, n: nat, p: Put, maths: Maths)
    requires forall x: real :: maths.exp2(x) > 0.0
  {
    && n < |schedule| && schedule[n].HandleAlert? && schedule[n].putWorks && schedule[n].safe == p.safe
    && var l := LoopAfter(control, schedule[..n], maths);
    && l.alerts != [] && ParsedSource(l.alerts[0]) == Some(p.ip)
    && F.IsBlockedSince(LoopAfter(control, schedule[..n + 1], maths).control, p.ip, schedule[n].at)
  }

  lemma NothingPutAtFirst(control: F.Control)
    ensures StartLoop(control).puts == []
  {
    hide Start;
  }

  lemma MovingPuts(l: Loop, step: LoopStep, p: Put, maths: Maths)
    requires (forall x: real :: maths.exp2(x) > 0.0) && InShape(l.sys)
    requires p in Moved(l, step, maths).puts && p !in l.puts
    ensures step.HandleAlert? && step.putWorks && step.safe == p.safe
    ensures l.alerts != [] && ParsedSource(l.alerts[0]) == Some(p.ip)
    ensures F.IsBlockedSince(Moved(l, step, maths).control, p.ip, step.at)
  {
    hide F.InSafeNetwork, Next, IsMalicious, ParsedSource;
  }

  /** And every put on record was such a block: the kernel held it from that step on. */
  lemma {:induction false} PutsReachTheKernel(control: F.Control, schedule: seq<LoopStep>, p: Put, maths: Maths)
    requires (forall x: real :: maths.exp2(x) > 0.0) && p in LoopAfter(control, schedule, maths).puts
    ensures exists n: nat :: MadeAt(control, schedule, n, p, maths)
    decreases |schedule|
  {
    hide StartLoop, Moved, ParsedSource, F.IsBlockedSince;
    NothingPutAtFirst(control);
    if schedule != [] {
      var before := Init(schedule);
      var l := LoopAfter(control, before, maths);
      if p in l.puts {
        PutsReachTheKernel(control, before, p, maths);
        hide MadeAt, LoopAfter;
        var n: nat :| MadeAt(control, before, n, p, maths);
        MadeEarlier(control, before, n, p, Last(schedule), maths);
        assert before + [Last(schedule)] == schedule;
      } else {
        assert schedule[..|before|] == before && schedule[..|before| + 1] == schedule;
        MovingPuts(l, Last(schedule), p, maths);
        assert MadeAt(control, schedule, |before|, p, maths);
      }
    }
  }

  lemma MadeEarlier(control: F.Control, schedule: seq<LoopStep>, n: nat, p: Put, step: LoopStep, maths: Maths)
    requires (forall x: real :: maths.exp2(x) > 0.0) && MadeAt(control, schedule, n, p, maths)
    ensures MadeAt(control, schedule + [step], n, p, maths)
  {
    assert (schedule + [step])[..n] == schedule[..n] && (schedule + [step])[..n + 1] == schedule[..n + 1];
  }

  lemma {:induction false} OnlyBlocksThroughout(control: F.Control, schedule: seq<LoopStep>, maths: Maths)
    requires (forall x: real :: maths.exp2(x) > 0.0) && WellFormed(control.kernel) && OnlyBlocks(control.kernel)
    ensures var t := LoopAfter(control, schedule, maths).control.kernel; WellFormed(t) && OnlyBlocks(t)
  {
    hide F.Step, Moved, ParsedSource, Start, WellFormed, OnlyBlocks;
    if schedule != [] {
      var l := LoopAfter(control, Init(schedule), maths);
      OnlyBlocksThroughout(control, Init(schedule), maths);
      MovingControls(l, Last(schedule), maths);
      match Last(schedule)
      case HandleAlert(safe, at, putWorks) =>
        if l.alerts != [] {
          ControllerOnlyBlocks(l.control, F.Alert(ParsedSource(l.alerts[0]), safe, at, putWorks));
        }
      case Sweep(at, fails) => ControllerOnlyBlocks(l.control, F.Sweep(at, fails));
      case Aggregate(_) =>
      case Infer =>
      case SendAlert =>
    }
  }

  /** The three steps that turn the next feature vector into a block. */
  function Response(safe: seq<F.IPNet>, at: nat): seq<LoopStep> {
    [Infer, SendAlert, HandleAlert(safe, at, true)]
  }

  lemma ResponseSteps(control: F.Control, schedule: seq<LoopStep>, safe: seq<F.IPNet>, at: nat, maths: Maths)
    requires forall x: real :: maths.exp2(x) > 0.0
    ensures var l2 := LoopAfter(control, schedule + [Infer, SendAlert], maths);
            && l2 == Moved(Moved(LoopAfter(control, schedule, maths), Infer, maths), SendAlert, maths)
            && LoopAfter(control, schedule + Response(safe, at), maths)
               == LoopAfter(control, schedule + [Infer, SendAlert] + [HandleAlert(safe, at, true)], maths)
  {
    hide Moved;
    assert Init(schedule + [Infer, SendAlert]) == schedule + [Infer];
    assert Init(schedule + [Infer]) == schedule;
    assert schedule + Response(safe, at) == schedule + [Infer, SendAlert] + [HandleAlert(safe, at, true)];
  }

  /** The loop closes: in any run, when the next feature vector is flagged, inference and the
      alert channel are free, and its source is in no safe network and under no live
      block, three steps later the source is blocked, and the enforcing kernel then drops
      whatever it sends, fragments apart. */
  lemma {:induction false} FlaggedFlowIsBlocked(
      control: F.Control, schedule: seq<LoopStep>, ip: u32, safe: seq<F.IPNet>, at: nat, maths: Maths, st: K.KState, a: K.Arrival)
    requires (forall x: real :: maths.exp2(x) > 0.0) && WellFormed(control.kernel) && OnlyBlocks(control.kernel)
    requires var l := LoopAfter(control, schedule, maths);
             && l.sys.out != [] && l.sys.out[0].srcIp == Be32Bytes(ip) && IsMalicious(l.sys.out[0], maths)
             && l.holding.None? && l.alerts == []
             && !F.InSafeNetwork(safe, ip) && !(ip in l.control.blocked && at < l.control.blocked[ip])
    requires a.policy.reputation == LoopAfter(control, schedule + Response(safe, at), maths).control.kernel
    requires KernelRuns.IsIpv4(a.packet) && KernelRuns.WireSource(a.packet) == ip && !KernelRuns.IsFragment(a.packet)
    ensures F.IsBlockedSince(LoopAfter(control, schedule + Response(safe, at), maths).control, ip, at)
    ensures K.WireOf(false, st, a) == K.XdpDrop
  {
    ResponseSteps(control, schedule, safe, at, maths);
    AlertIsRaised(LoopAfter(control, schedule, maths), maths);
    OnlyBlocksThroughout(control, schedule + Response(safe, at), maths);
    hide LoopAfter, Moved, IsMalicious, F.InSafeNetwork, KernelRuns.IsIpv4, KernelRuns.WireSource, KernelRuns.IsFragment, Be32Bytes;
    AlertsBecomeBlocks(control, schedule + [Infer, SendAlert], ip, safe, at, maths);
    hide WellFormed, OnlyBlocks;
    HostNode(ip, ip);
    assert KernelRuns.IsStored(a.policy.reputation, ip);
    KernelRuns.BlockedSourcesAreDropped(st, a);
  }

  lemma AlertIsRaised(l: Loop, maths: Maths)
    requires (forall x: real :: maths.exp2(x) > 0.0) && InShape(l.sys)
    requires l.sys.out != [] && IsMalicious(l.sys.out[0], maths) && l.holding.None? && l.alerts == []
    ensures var l2 := Moved(Moved(l, Infer, maths), SendAlert, maths);
            l2.alerts == [l.sys.out[0].srcIp] && l2.control == l.control
  {
    hide IsMalicious, Next;
  }
}
