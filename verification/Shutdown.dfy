/** The daemon's three goroutines and two bounded channels as a step system: who can move
    after cancellation, who closes which channel, and that all three finish. */
module Shutdown {
  import opened Channels

  /** The aggregator: selecting, inside a flush with `left` features still to offer,
      about to close its channel, finished. */
  datatype AggPc = AggSelect | AggFlush(left: nat, last: bool) | AggClose | AggDone

  /** Inference: ranging over features, selecting to send an alert, in its deferred close. */
  datatype InfPc = InfReceive | InfSend | InfClose | InfDone

  /** Feedback: selecting, handling an alert or sweeping, finished. */
  datatype FbPc = FbSelect | FbBusy | FbDone

  datatype State = State(
    cancelled: bool,
    agg: AggPc, out: nat, outClosed: bool,
    inf: InfPc, alerts: nat, alertsClosed: bool,
    fb: FbPc,
    panicked: bool)   // a send on, or a second close of, a closed channel

  datatype Step =
    | Cancel
    | Tick(flows: nat) | AggSeesCancel(flows: nat) | OfferFeature | EndFlush | CloseOut
    | TakeFeature(malicious: bool) | SeeOutClosed | SendAlert | InfSeesCancel | CloseAlerts
    | Janitor | TakeAlert | SeeAlertsClosed | FbSeesCancel | FinishWork

  const START := State(false, AggSelect, 0, false, InfReceive, 0, false, FbSelect, false)

  predicate Enabled(s: State, step: Step) {
    match step
    case Cancel => true
    case Tick(_) => s.agg.AggSelect?
    case AggSeesCancel(_) => s.agg.AggSelect? && s.cancelled
    case OfferFeature => s.agg.AggFlush? && s.agg.left > 0
    case EndFlush => s.agg.AggFlush? && s.agg.left == 0
    case CloseOut => s.agg.AggClose?
    case TakeFeature(_) => s.inf.InfReceive? && s.out > 0
    case SeeOutClosed => s.inf.InfReceive? && s.out == 0 && s.outClosed
    case SendAlert => s.inf.InfSend? && (s.alerts < ALERT_BUFFER || s.alertsClosed)
    case InfSeesCancel => s.inf.InfSend? && s.cancelled
    case CloseAlerts => s.inf.InfClose?
    case Janitor => s.fb.FbSelect?
    case TakeAlert => s.fb.FbSelect? && s.alerts > 0
    case SeeAlertsClosed => s.fb.FbSelect? && s.alerts == 0 && s.alertsClosed
    case FbSeesCancel => s.fb.FbSelect? && s.cancelled
    case FinishWork => s.fb.FbBusy?
  }

  function Done(s: State, step: Step): State
    requires Enabled(s, step)
  {
    match step
    case Cancel => s.(cancelled := true)
    case Tick(n) => s.(agg := AggFlush(n, false))
    case AggSeesCancel(n) => s.(agg := AggFlush(n, true))
    case OfferFeature =>
      s.(agg := AggFlush(s.agg.left - 1, s.agg.last), panicked := s.panicked || s.outClosed,
         out := if s.out < OUTPUT_BUFFER then s.out + 1 else s.out)
    case EndFlush => s.(agg := if s.agg.last then AggClose else AggSelect)
    case CloseOut => s.(agg := AggDone, outClosed := true, panicked := s.panicked || s.outClosed)
    case TakeFeature(malicious) => s.(out := s.out - 1, inf := if malicious then InfSend else InfReceive)
    case SeeOutClosed => s.(inf := InfClose)
    case SendAlert => s.(inf := InfReceive, alerts := s.alerts + 1, panicked := s.panicked || s.alertsClosed)
    case InfSeesCancel => s.(inf := InfClose)
    case CloseAlerts => s.(inf := InfDone, alertsClosed := true, panicked := s.panicked || s.alertsClosed)
    case Janitor => s.(fb := FbBusy)
    case TakeAlert => s.(fb := FbBusy, alerts := s.alerts - 1)
    case SeeAlertsClosed => s.(fb := FbDone)
    case FbSeesCancel => s.(fb := FbDone)
    case FinishWork => s.(fb := FbSelect)
  }

  // ---- Channels are closed once, by their sender, after its last send ----

  predicate Orderly(s: State) {
    && !s.panicked
    && (s.outClosed <==> s.agg.AggDone?)
    && (s.alertsClosed <==> s.inf.InfDone?)
    && s.out <= OUTPUT_BUFFER && s.alerts <= ALERT_BUFFER
    && ((s.agg.AggFlush? && s.agg.last) || s.agg.AggClose? || s.agg.AggDone? ==> s.cancelled)
  }

  lemma StepKeepsOrder(s: State, step: Step)
    requires Orderly(s) && Enabled(s, step)
    ensures Orderly(Done(s, step))
    ensures s.outClosed ==> Done(s, step).outClosed && Done(s, step).out <= s.out
    ensures s.alertsClosed ==> Done(s, step).alertsClosed && Done(s, step).alerts <= s.alerts
  {
  }

  function After(s: State, schedule: seq<Step>): State
    decreases |schedule|
  {
    if schedule == [] then s
    else After(if Enabled(s, schedule[0]) then Done(s, schedule[0]) else s, schedule[1..])
  }

  /** No schedule ever sends on or closes a closed channel; each channel is closed exactly
      when its only sender has finished. */
  lemma {:induction false} ScheduleKeepsOrder(s: State, schedule: seq<Step>)
    requires Orderly(s)
    ensures Orderly(After(s, schedule))
    decreases |schedule|
  {
    if schedule != [] {
      if Enabled(s, schedule[0]) {
        StepKeepsOrder(s, schedule[0]);
        ScheduleKeepsOrder(Done(s, schedule[0]), schedule[1..]);
      } else {
        ScheduleKeepsOrder(s, schedule[1..]);
      }
    }
  }

  /** Whatever the daemon's goroutines do and whenever it is cancelled. */
  lemma {:induction false} EveryScheduleIsOrderly(schedule: seq<Step>)
    ensures Orderly(After(START, schedule))
  {
    ScheduleKeepsOrder(START, schedule);
  }

  // ---- No deadlock ----

  datatype Goroutine = Aggregation | Inference | Feedback

  predicate Live(s: State, g: Goroutine) {
    match g
    case Aggregation => !s.agg.AggDone?
    case Inference => !s.inf.InfDone?
    case Feedback => !s.fb.FbDone?
  }

  function Owner(step: Step): set<Goroutine> {
    match step
    case Cancel => {}
    case Tick(_) => {Aggregation}
    case AggSeesCancel(_) => {Aggregation}
    case OfferFeature => {Aggregation}
    case EndFlush => {Aggregation}
    case CloseOut => {Aggregation}
    case TakeFeature(_) => {Inference}
    case SeeOutClosed => {Inference}
    case SendAlert => {Inference}
    case InfSeesCancel => {Inference}
    case CloseAlerts => {Inference}
    case Janitor => {Feedback}
    case TakeAlert => {Feedback}
    case SeeAlertsClosed => {Feedback}
    case FbSeesCancel => {Feedback}
    case FinishWork => {Feedback}
  }

  /** A step of the goroutine that makes progress towards its end: any step except
      preferring the ticker over a pending cancellation. */
  predicate IsProgress(step: Step) {
    !step.Cancel? && !step.Tick? && !step.Janitor?
  }

  ghost predicate CanProgress(s: State, g: Goroutine) {
    exists step :: Enabled(s, step) && g in Owner(step) && IsProgress(step)
  }

  /** After cancellation no goroutine waits for a finished one: the aggregator and the
      controller can always make progress, and inference waits only for a live aggregator. */
  lemma NobodyIsStuck(s: State)
    requires Orderly(s) && s.cancelled
    ensures Live(s, Aggregation) ==> CanProgress(s, Aggregation)
    ensures Live(s, Feedback) ==> CanProgress(s, Feedback)
    ensures Live(s, Inference) ==> CanProgress(s, Inference) || (Live(s, Aggregation) && s.out == 0)
    ensures (exists g :: Live(s, g)) ==> exists g :: Live(s, g) && CanProgress(s, g)
  {
    if Live(s, Aggregation) {
      var step := match s.agg
        case AggSelect => AggSeesCancel(0)
        case AggFlush(left, _) => if left > 0 then OfferFeature else EndFlush
        case AggClose => CloseOut
        case AggDone => Cancel;
      assert Enabled(s, step) && Aggregation in Owner(step) && IsProgress(step);
    }
    if Live(s, Feedback) {
      var step := if s.fb.FbSelect? then FbSeesCancel else FinishWork;
      assert Enabled(s, step) && Feedback in Owner(step) && IsProgress(step);
    }
    if Live(s, Inference) {
      var step := match s.inf
        case InfReceive => if s.out > 0 then TakeFeature(false) else SeeOutClosed
        case InfSend => InfSeesCancel
        case InfClose => CloseAlerts
        case InfDone => Cancel;
      if Enabled(s, step) {
        assert Inference in Owner(step) && IsProgress(step);
      }
    }
  }

  // ---- Everybody finishes ----

  function AggPhase(s: State): nat {
    match s.agg
    case AggFlush(_, last) => if last then 2 else 4
    case AggSelect => 3
    case AggClose => 1
    case AggDone => 0
  }

  function AggLeft(s: State): nat {
    if s.agg.AggFlush? then s.agg.left else 0
  }

  function InfRank(s: State): nat {
    2 * s.out + match s.inf case InfSend => 3 case InfReceive => 2 case InfClose => 1 case InfDone => 0
  }

  function FbRank(s: State): nat {
    2 * s.alerts + match s.fb case FbBusy => 2 case FbSelect => 1 case FbDone => 0
  }

  predicate Below(t: State, s: State) {
    || AggPhase(t) < AggPhase(s)
    || (AggPhase(t) == AggPhase(s) && AggLeft(t) < AggLeft(s))
    || (AggPhase(t) == AggPhase(s) && AggLeft(t) == AggLeft(s) && InfRank(t) < InfRank(s))
    || (AggPhase(t) == AggPhase(s) && AggLeft(t) == AggLeft(s) && InfRank(t) == InfRank(s) && FbRank(t) < FbRank(s))
  }

  lemma ProgressLowersRank(s: State, step: Step)
    requires Orderly(s) && Enabled(s, step) && IsProgress(step)
    ensures Below(Done(s, step), s)
  {
  }

  predicate AllDone(s: State) {
    s.agg.AggDone? && s.inf.InfDone? && s.fb.FbDone?
  }

  /** An endless run from `from` on: until all three have finished, some goroutine takes a
      step. Cancellation has happened; which goroutine moves and which ready case it
      selects is up to the scheduler. */
  ghost predicate RunsOn(states: nat -> State, steps: nat -> Step, from: nat) {
    && Orderly(states(from)) && states(from).cancelled
    && forall i: nat :: from <= i && !AllDone(states(i)) ==>
         Enabled(states(i), steps(i)) && !steps(i).Cancel? && states(i + 1) == Done(states(i), steps(i))
  }

  ghost predicate ProgressesFrom(states: nat -> State, steps: nat -> Step, from: nat) {
    forall i: nat :: from <= i && !AllDone(states(i)) ==> IsProgress(steps(i))
  }

  /** A run of progress steps only comes to its end. */
  lemma {:induction false} ProgressFinishes(states: nat -> State, steps: nat -> Step, from: nat) returns (end: nat)
    requires RunsOn(states, steps, from) && ProgressesFrom(states, steps, from)
    ensures end >= from && AllDone(states(end)) && Orderly(states(end))
    decreases AggPhase(states(from)), AggLeft(states(from)), InfRank(states(from)), FbRank(states(from))
  {
    if AllDone(states(from)) {
      return from;
    }
    StepKeepsOrder(states(from), steps(from));
    ProgressLowersRank(states(from), steps(from));
    end := ProgressFinishes(states, steps, from + 1);
  }

  ghost predicate AggStopsSelecting(states: nat -> State, n: nat) {
    forall i: nat :: i >= n ==> !states(i).agg.AggSelect?
  }

  ghost predicate FbStopsSelecting(states: nat -> State, n: nat) {
    forall i: nat :: i >= n ==> !states(i).fb.FbSelect?
  }

  /** Fair selection, for each goroutine that selects between a pending cancellation and
      other ready cases: either it stops selecting, or at some time it picks cancellation. */
  ghost predicate SelectsFairly(states: nat -> State, steps: nat -> Step, from: nat) {
    && ((exists n: nat :: n >= from && AggStopsSelecting(states, n))
        || exists i: nat :: i >= from && steps(i).AggSeesCancel?)
    && ((exists n: nat :: n >= from && FbStopsSelecting(states, n))
        || exists i: nat :: i >= from && steps(i).FbSeesCancel?)
  }

  ghost predicate NeverDone(states: nat -> State, from: nat) {
    forall i: nat :: i >= from ==> !AllDone(states(i))
  }

  lemma {:induction false} StaysOrderly(states: nat -> State, steps: nat -> Step, from: nat, i: nat)
    requires RunsOn(states, steps, from) && NeverDone(states, from) && i >= from
    ensures Orderly(states(i)) && states(i).cancelled
    decreases i
  {
    if i > from {
      StaysOrderly(states, steps, from, i - 1);
      StepKeepsOrder(states(i - 1), steps(i - 1));
    }
  }

  /** Past its last selection: the aggregator has seen the cancellation. */
  predicate IsLate(a: AggPc) {
    (a.AggFlush? && a.last) || a.AggClose? || a.AggDone?
  }

  lemma LateStepsStayLate(s: State, step: Step)
    requires Enabled(s, step) && IsLate(s.agg)
    ensures IsLate(Done(s, step).agg)
  {
  }

  lemma {:induction false} StaysLate(states: nat -> State, steps: nat -> Step, from: nat, late: nat, i: nat)
    requires RunsOn(states, steps, from) && NeverDone(states, from) && from <= late <= i
    requires IsLate(states(late).agg)
    ensures IsLate(states(i).agg)
    decreases i
  {
    hide Done, Enabled, Orderly, IsLate;
    if i > late {
      StaysLate(states, steps, from, late, i - 1);
      LateStepsStayLate(states(i - 1), steps(i - 1));
    }
  }

  lemma {:induction false} StaysFinished(states: nat -> State, steps: nat -> Step, from: nat, done: nat, i: nat)
    requires RunsOn(states, steps, from) && NeverDone(states, from) && from <= done <= i
    requires states(done).fb.FbDone?
    ensures states(i).fb.FbDone?
    decreases i
  {
    if i > done {
      StaysFinished(states, steps, from, done, i - 1);
    }
  }

  lemma TicksStop(states: nat -> State, steps: nat -> Step, from: nat) returns (n: nat)
    requires RunsOn(states, steps, from) && NeverDone(states, from) && SelectsFairly(states, steps, from)
    ensures n >= from && forall i: nat :: i >= n ==> !steps(i).Tick?
  {
    if m: nat :| m >= from && AggStopsSelecting(states, m) {
      n := m;
    } else {
      var seen: nat :| seen >= from && steps(seen).AggSeesCancel?;
      n := seen + 1;
      forall i: nat | i >= n ensures !steps(i).Tick? {
        StaysLate(states, steps, from, n, i);
      }
    }
  }

  lemma JanitorsStop(states: nat -> State, steps: nat -> Step, from: nat) returns (n: nat)
    requires RunsOn(states, steps, from) && NeverDone(states, from) && SelectsFairly(states, steps, from)
    ensures n >= from && forall i: nat :: i >= n ==> !steps(i).Janitor?
  {
    if m: nat :| m >= from && FbStopsSelecting(states, m) {
      n := m;
    } else {
      var seen: nat :| seen >= from && steps(seen).FbSeesCancel?;
      n := seen + 1;
      forall i: nat | i >= n ensures !steps(i).Janitor? {
        StaysFinished(states, steps, from, n, i);
      }
    }
  }

  /** A run that has finished at some time has finished in order at the first such time. */
  lemma {:induction false} FirstMomentAllDone(states: nat -> State, steps: nat -> Step, from: nat, done: nat)
    returns (end: nat)
    requires RunsOn(states, steps, from) && done >= from && AllDone(states(done))
    ensures end >= from && AllDone(states(end)) && Orderly(states(end))
    decreases done - from
  {
    if AllDone(states(from)) {
      return from;
    }
    StepKeepsOrder(states(from), steps(from));
    end := FirstMomentAllDone(states, steps, from + 1, done);
  }

  /** Shutdown terminates: every run after cancellation in which the two selecting
      goroutines select fairly, with any ticks and sweeps in between, reaches a moment at
      which all three have finished and both channels are closed. */
  lemma ShutdownFinishes(states: nat -> State, steps: nat -> Step, from: nat) returns (end: nat)
    requires RunsOn(states, steps, from) && SelectsFairly(states, steps, from)
    ensures end >= from && AllDone(states(end)) && states(end).outClosed && states(end).alertsClosed
  {
    if done: nat :| done >= from && AllDone(states(done)) {
      end := FirstMomentAllDone(states, steps, from, done);
      return;
    }
    assert NeverDone(states, from);
    var m := TicksStop(states, steps, from);
    var n := JanitorsStop(states, steps, from);
    var late := if m > n then m else n;
    StaysOrderly(states, steps, from, late);
    end := ProgressFinishes(states, steps, late);
  }
}
