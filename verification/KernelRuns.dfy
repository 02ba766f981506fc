/** Whole runs of the packet pipeline: dry-run staging against enforcement, how much
    one source can get through, how many events are emitted, and who is dropped. */
module KernelRuns {
  import opened Words
  import opened Parsers
  import opened Telemetry
  import opened TokenBucket
  import opened Reputation
  import opened Kernel

  function StateAfter(dry: bool, st: KState, run: seq<Arrival>): KState
    decreases |run|
  {
    if run == [] then st else StateAfter(dry, After(dry, st, run[0]), run[1..])
  }

  function Reasons(dry: bool, st: KState, run: seq<Arrival>): (r: seq<DropReason>)
    ensures |r| == |run|
    decreases |run|
  {
    if run == [] then []
    else [FindingOf(st, run[0]).reason] + Reasons(dry, After(dry, st, run[0]), run[1..])
  }

  function Wires(dry: bool, st: KState, run: seq<Arrival>): (w: seq<Wire>)
    ensures |w| == |run|
    decreases |run|
  {
    if run == [] then []
    else [WireOf(dry, st, run[0])] + Wires(dry, After(dry, st, run[0]), run[1..])
  }

  // ---- Dry-run staging ----

  /** An enforcement event as dry-run mode would have recorded it. */
  function Softened(e: FlowPacketMeta): FlowPacketMeta {
    if e.action == ActionCode(Drop) then e.(action := ActionCode(WouldDrop)) else e
  }

  ghost predicate EventsMatch(enforced: seq<FlowPacketMeta>, dry: seq<FlowPacketMeta>) {
    |enforced| == |dry| && forall i :: 0 <= i < |dry| ==> dry[i] == Softened(enforced[i])
  }

  /** Two kernels that went through the same traffic, the second one in dry-run mode,
      since a moment when both had `common` events. */
  ghost predicate InParity(e: KState, d: KState, common: nat) {
    && d.rate == e.rate && d.log == e.log
    && common <= |e.events| && |e.events| == |d.events|
    && e.events[..common] == d.events[..common]
    && EventsMatch(e.events[common..], d.events[common..])
  }

  lemma StepKeepsParity(e: KState, d: KState, common: nat, a: Arrival)
    requires InParity(e, d, common)
    ensures InParity(After(false, e, a), After(true, d, a), common)
    ensures FindingOf(e, a) == FindingOf(d, a)
    ensures |After(false, e, a).events| >= |e.events|
  {
  }

  lemma {:induction false} RunKeepsParity(e: KState, d: KState, common: nat, run: seq<Arrival>)
    requires InParity(e, d, common)
    ensures InParity(StateAfter(false, e, run), StateAfter(true, d, run), common)
    ensures Reasons(false, e, run) == Reasons(true, d, run)
    ensures forall i :: 0 <= i < |run| ==> Wires(true, d, run)[i] == XdpPass
    ensures forall i :: 0 <= i < |run| ==>
              (Wires(false, e, run)[i] == XdpDrop <==> Reasons(true, d, run)[i] != NoReason)
    decreases |run|
  {
    if run != [] {
      StepKeepsParity(e, d, common, run[0]);
      RunKeepsParity(After(false, e, run[0]), After(true, d, run[0]), common, run[1..]);
    }
  }

  /** From one state, any traffic: dry-run finds the same reasons, spends the same
      tokens, records the same new events with WouldDrop for Drop, and drops nothing;
      enforcement drops exactly the packets dry-run reports. */
  lemma {:induction false} DryRunParity(st: KState, run: seq<Arrival>)
    ensures InParity(StateAfter(false, st, run), StateAfter(true, st, run), |st.events|)
    ensures Reasons(false, st, run) == Reasons(true, st, run)
    ensures forall i :: 0 <= i < |run| ==> Wires(true, st, run)[i] == XdpPass
    ensures forall i :: 0 <= i < |run| ==>
              (Wires(false, st, run)[i] == XdpDrop <==> Reasons(true, st, run)[i] != NoReason)
  {
    RunKeepsParity(st, st, |st.events|, run);
  }

  // ---- State kept by every step ----

  predicate ClocksBehind(st: KState, t: nat) {
    && (forall src <- st.rate :: st.rate[src].lastUpdateNs <= t)
    && (st.log.Some? ==> st.log.value.lastUpdateNs <= t)
  }

  predicate RisingRun(run: seq<Arrival>, from: nat)
    decreases |run|
  {
    run == [] || (from <= run[0].now && RisingRun(run[1..], run[0].now))
  }

  predicate Sound(st: KState, t: nat) {
    WithinCapacity(st) && ClocksBehind(st, t)
  }

  lemma StepKeepsSound(dry: bool, st: KState, a: Arrival, t: nat)
    requires Sound(st, t) && t <= a.now
    ensures Sound(After(dry, st, a), a.now)
  {
    ChargedSlotsOnly(dry, st, a);
  }

  lemma {:induction false} RunKeepsSound(dry: bool, st: KState, run: seq<Arrival>, more: seq<Arrival>, t: nat)
    requires Sound(st, t) && RisingRun(run + more, t)
    ensures exists t': nat :: Sound(StateAfter(dry, st, run), t') && RisingRun(more, t')
    decreases |run|
  {
    if run == [] {
      assert run + more == more;
    } else {
      assert (run + more)[0] == run[0] && (run + more)[1..] == run[1..] + more;
      StepKeepsSound(dry, st, run[0], t);
      RunKeepsSound(dry, After(dry, st, run[0]), run[1..], more, run[0].now);
    }
  }

  // ---- What one source can get through ----

  /** The source whose bucket a packet is charged to: only a fragment, or a datagram
      no earlier check drops, reaches the limiter. */
  function Charged(policy: Policy, h: Headers): Option<u32> {
    match h
    case Bad(_, _) => None
    case NotIp => None
    case Fragment(seen) => Some(seen.srcIp)
    case Datagram(seen) =>
      if RfcViolation(seen) == NoReason && !IsBlacklisted(policy.reputation, seen.srcIp) && !IsPortBlocked(policy.gate, seen)
      then Some(seen.srcIp) else None
  }

  function ChargedBy(a: Arrival): Option<u32> {
    Charged(a.policy, HeadersOf(a.packet))
  }

  /** Only the charged slot changes, apart from evictions; packets dropped by an earlier
      check cost no token. */
  lemma ChargedSlotsOnly(dry: bool, st: KState, a: Arrival)
    ensures var kept := st.rate - a.env.evicted;
            After(dry, st, a).rate == match ChargedBy(a)
              case None => kept
              case Some(src) => RateAfter(kept, src, a.now, a.env.insertWorks)
    ensures FindingOf(st, a).reason !in {NoReason, RateLimited} ==> After(dry, st, a).rate == st.rate - a.env.evicted
  {
  }

  /** An IPv4 packet of this source that the enforcing kernel lets through. */
  predicate PassesFrom(st: KState, a: Arrival, src: u32) {
    var h := HeadersOf(a.packet);
    (h.Fragment? || h.Datagram?) && h.seen.srcIp == src && WireOf(false, st, a) == XdpPass
  }

  predicate LosesSlot(st: KState, a: Arrival, src: u32) {
    src in st.rate && src in a.env.evicted
  }

  predicate FailsInsert(st: KState, a: Arrival, src: u32) {
    ChargedBy(a) == Some(src) && src !in st.rate - a.env.evicted && !a.env.insertWorks
  }

  function Passed(st: KState, run: seq<Arrival>, src: u32): nat
    decreases |run|
  {
    if run == [] then 0 else One(PassesFrom(st, run[0], src)) + Passed(After(false, st, run[0]), run[1..], src)
  }

  function Evictions(st: KState, run: seq<Arrival>, src: u32): nat
    decreases |run|
  {
    if run == [] then 0 else One(LosesSlot(st, run[0], src)) + Evictions(After(false, st, run[0]), run[1..], src)
  }

  function FailedInserts(st: KState, run: seq<Arrival>, src: u32): nat
    decreases |run|
  {
    if run == [] then 0 else One(FailsInsert(st, run[0], src)) + FailedInserts(After(false, st, run[0]), run[1..], src)
  }

  /** The most this source can still get through until `until`, if it keeps its slot. */
  function Allowance(rate: RateTable, src: u32, t: nat, until: nat): int
    requires t <= until && (src in rate ==> rate[src].lastUpdateNs <= t)
  {
    if src in rate then rate[src].tokens as int + (until - rate[src].lastUpdateNs) / NANOS_PER_TOKEN
    else BURST_CAPACITY + (until - t) / NANOS_PER_TOKEN
  }

  function Burst(n: nat): nat {
    BURST_CAPACITY * n
  }

  lemma EvictionCostsOneBurst(st: KState, a: Arrival, src: u32, t: nat, until: nat)
    requires Sound(st, t) && t <= a.now <= until
    ensures Allowance(st.rate - a.env.evicted, src, a.now, until)
            <= Allowance(st.rate, src, t, until) + Burst(One(LosesSlot(st, a, src)))
  {
  }

  lemma ChargeSpendsAllowance(rate: RateTable, a: Arrival, src: u32, until: nat)
    requires src in rate ==> rate[src].tokens <= BURST_CAPACITY && rate[src].lastUpdateNs <= a.now
    requires a.now <= until
    ensures var rate' := RateAfter(rate, src, a.now, a.env.insertWorks);
            && (src in rate' ==> rate'[src].lastUpdateNs <= a.now)
            && One(RateGrants(rate, src, a.now)) + Allowance(rate', src, a.now, until)
               <= Allowance(rate, src, a.now, until) + One(src !in rate && !a.env.insertWorks)
            && One(RateGrants(rate, src, a.now)) + Allowance(rate', src, a.now, until)
               <= BURST_CAPACITY + (until - a.now + NANOS_PER_TOKEN - 1) / NANOS_PER_TOKEN
                  + One(src !in rate && !a.env.insertWorks)
  {
  }

  lemma StepSpendsAllowance(st: KState, a: Arrival, src: u32, t: nat, until: nat)
    requires Sound(st, t) && t <= a.now <= until
    ensures Sound(After(false, st, a), a.now)
    ensures One(PassesFrom(st, a, src)) + Allowance(After(false, st, a).rate, src, a.now, until)
            <= Allowance(st.rate, src, t, until) + Burst(One(LosesSlot(st, a, src))) + One(FailsInsert(st, a, src))
    ensures ChargedBy(a) == Some(src) ==>
            One(PassesFrom(st, a, src)) + Allowance(After(false, st, a).rate, src, a.now, until)
            <= BURST_CAPACITY + (until - a.now + NANOS_PER_TOKEN - 1) / NANOS_PER_TOKEN + One(FailsInsert(st, a, src))
  {
    var kept := st.rate - a.env.evicted;
    StepKeepsSound(false, st, a, t);
    ChargedSlotsOnly(false, st, a);
    EvictionCostsOneBurst(st, a, src, t, until);
    ChargeSpendsAllowance(kept, a, src, until);
    PassesOnlyIfGranted(st, a, src);
  }

  lemma PassesOnlyIfGranted(st: KState, a: Arrival, src: u32)
    ensures PassesFrom(st, a, src) <==>
            ChargedBy(a) == Some(src) && RateGrants(st.rate - a.env.evicted, src, a.now)
  {
  }

  predicate AllBy(run: seq<Arrival>, until: nat) {
    forall i :: 0 <= i < |run| ==> run[i].now <= until
  }

  lemma {:induction false} PassedWithinAllowance(st: KState, run: seq<Arrival>, src: u32, t: nat, until: nat)
    requires Sound(st, t) && RisingRun(run, t) && AllBy(run, until) && t <= until
    ensures Passed(st, run, src)
            <= Allowance(st.rate, src, t, until) + Burst(Evictions(st, run, src)) + FailedInserts(st, run, src)
    decreases |run|
  {
    if run != [] {
      StepSpendsAllowance(st, run[0], src, t, until);
      PassedWithinAllowance(After(false, st, run[0]), run[1..], src, run[0].now, until);
    }
  }

  /** In a stretch that starts no earlier than `from`, however old the slot was. */
  lemma {:induction false} PassedWithinWindow(st: KState, run: seq<Arrival>, src: u32, t: nat, from: nat, until: nat)
    requires Sound(st, t) && RisingRun(run, t) && AllBy(run, until)
    requires run != [] ==> from <= run[0].now
    requires from <= until
    ensures Passed(st, run, src)
            <= Burst(1 + Evictions(st, run, src)) + (until - from + NANOS_PER_TOKEN - 1) / NANOS_PER_TOKEN
               + FailedInserts(st, run, src)
    decreases |run|
  {
    if run != [] {
      var a := run[0];
      var next := After(false, st, a);
      StepSpendsAllowance(st, a, src, t, until);
      if ChargedBy(a) == Some(src) || LosesSlot(st, a, src) {
        ChargedSlotsOnly(false, st, a);
        PassesOnlyIfGranted(st, a, src);
        PassedWithinAllowance(next, run[1..], src, a.now, until);
      } else {
        PassesOnlyIfGranted(st, a, src);
        PassedWithinWindow(next, run[1..], src, a.now, from, until);
      }
    }
  }

  /** The per-source bound. After any history, the packets of one source that pass in a
      window [from, until] number at most one burst, plus one token per started 100 us
      of the window, plus one burst per eviction of its slot, plus one per failed insert. */
  lemma PassBound(start: KState, t: nat, history: seq<Arrival>, window: seq<Arrival>, src: u32, from: nat, until: nat)
    requires Sound(start, t) && RisingRun(history + window, t) && AllBy(window, until)
    requires window != [] ==> from <= window[0].now
    requires from <= until
    ensures var st := StateAfter(false, start, history);
            Passed(st, window, src)
            <= BURST_CAPACITY * (1 + Evictions(st, window, src)) + FailedInserts(st, window, src)
               + (until - from + NANOS_PER_TOKEN - 1) / NANOS_PER_TOKEN
  {
    RunKeepsSound(false, start, history, window, t);
    hide Sound, StateAfter, RisingRun, AllBy, Passed, Evictions, FailedInserts;
    var st := StateAfter(false, start, history);
    var t': nat :| Sound(st, t') && RisingRun(window, t');
    PassedWithinWindow(st, window, src, t', from, until);
  }

  // ---- How much a source is sure to get through ----

  /** Traffic of one source that no earlier rule drops, while its slot is left alone. */
  predicate IsBurst(run: seq<Arrival>, src: u32) {
    forall i :: 0 <= i < |run| ==> ChargedBy(run[i]) == Some(src) && src !in run[i].env.evicted
  }

  function Held(rate: RateTable, src: u32): nat {
    if src in rate then rate[src].tokens else 20_000
  }

  /** Whatever the timing, a source gets through as many packets as it holds tokens; one
      that has no bucket yet gets 20,000. */
  lemma {:induction false} HeldTokensPass(st: KState, run: seq<Arrival>, src: u32)
    requires WithinCapacity(st) && IsBurst(run, src)
    ensures Passed(st, run, src) >= Min(|run|, Held(st.rate, src))
    decreases |run|
  {
    if run != [] {
      var a := run[0];
      var next := After(false, st, a);
      BurstStep(st, a, src);
      hide ChargedBy, PassesFrom, WithinCapacity, Held, After;
      assert IsBurst(run[1..], src);
      HeldTokensPass(next, run[1..], src);
    }
  }

  lemma BurstStep(st: KState, a: Arrival, src: u32)
    requires WithinCapacity(st) && ChargedBy(a) == Some(src) && src !in a.env.evicted
    ensures var next := After(false, st, a);
            && WithinCapacity(next)
            && (Held(st.rate, src) > 0 ==> PassesFrom(st, a, src) && Held(next.rate, src) >= Held(st.rate, src) - 1)
  {
    ChargedSlotsOnly(false, st, a);
    PassesOnlyIfGranted(st, a, src);
    StepKeepsCapacity(false, st, a);
    hide ChargedBy, PassesFrom, After, WithinCapacity;
  }

  lemma StepKeepsCapacity(dry: bool, st: KState, a: Arrival)
    requires WithinCapacity(st)
    ensures WithinCapacity(After(dry, st, a))
  {
    ChargedSlotsOnly(dry, st, a);
    hide FindingOf, ChargedBy;
  }

  /** The tokens a source has at a moment: what its bucket held, one more for each whole
      100 us since its clock, and never more than 20,000; a new source has all of them. */
  function Ready(rate: RateTable, src: u32, t: nat): nat {
    if src !in rate then 20_000
    else if t < rate[src].lastUpdateNs then rate[src].tokens
    else Min(rate[src].tokens as int + (t - rate[src].lastUpdateNs) / 100_000, 20_000)
  }

  predicate AllAt(run: seq<Arrival>, t: nat) {
    forall i :: 0 <= i < |run| ==> run[i].now == t && run[i].env.insertWorks
  }

  lemma OneDrawAt(st: KState, a: Arrival, src: u32)
    requires WithinCapacity(st) && ChargedBy(a) == Some(src) && src !in a.env.evicted && a.env.insertWorks
    ensures var next, ready := After(false, st, a), Ready(st.rate, src, a.now);
            && WithinCapacity(next)
            && (PassesFrom(st, a, src) <==> ready > 0)
            && Ready(next.rate, src, a.now) == if ready > 0 then ready - 1 else 0
  {
    ChargedSlotsOnly(false, st, a);
    PassesOnlyIfGranted(st, a, src);
    StepKeepsCapacity(false, st, a);
    hide ChargedBy, PassesFrom, After;
  }

  /** A burst at one moment gets through exactly as many packets as the source has tokens
      ready: 20,000 for a new source or one idle for two seconds. */
  lemma {:induction false} BurstIsExact(st: KState, run: seq<Arrival>, src: u32, t: nat)
    requires WithinCapacity(st) && IsBurst(run, src) && AllAt(run, t)
    ensures Passed(st, run, src) == Min(|run|, Ready(st.rate, src, t))
    decreases |run|
  {
    if run != [] {
      var a := run[0];
      OneDrawAt(st, a, src);
      hide ChargedBy, PassesFrom, WithinCapacity, Ready, After;
      assert IsBurst(run[1..], src) && AllAt(run[1..], t);
      BurstIsExact(After(false, st, a), run[1..], src, t);
    }
  }

  // ---- How many events a run emits ----

  /** The telemetry limiter holds over whole runs, whatever the packets are. */
  lemma {:induction false} EventsAreBounded(dry: bool, st: KState, run: seq<Arrival>, t: nat, until: nat)
    requires Sound(st, t) && RisingRun(run, t) && AllBy(run, until) && t <= until && st.log.Some?
    ensures var end := StateAfter(dry, st, run);
            |end.events| - |st.events| <= st.log.value.tokens as int + (until - st.log.value.lastUpdateNs) / NANOS_PER_TOKEN
    decreases |run|
  {
    if run != [] {
      var a := run[0];
      StepKeepsSound(dry, st, a, t);
      EventsAreBounded(dry, After(dry, st, a), run[1..], a.now, until);
      if LogWorthy(a.policy.level, FindingOf(st, a).reason) {
        DivSuperadditive(a.now - st.log.value.lastUpdateNs, until - a.now, NANOS_PER_TOKEN);
      }
    }
  }

  /** The events the log limiter would let out at a moment. */
  function LogReady(log: Bucket, t: nat): nat {
    if t < log.lastUpdateNs then log.tokens
    else Min(log.tokens as int + (t - log.lastUpdateNs) / 100_000, 1_000)
  }

  /** Every packet is logged, and the ring buffer never runs full. */
  predicate LogsAll(run: seq<Arrival>, t: nat) {
    forall i :: 0 <= i < |run| ==> run[i].now == t && run[i].policy.level == Some(1) && run[i].env.ringHasRoom
  }

  lemma OneLogAt(dry: bool, st: KState, a: Arrival)
    requires st.log.Some? && st.log.value.tokens <= 1_000 && a.policy.level == Some(1) && a.env.ringHasRoom
    ensures var next, ready := After(dry, st, a), LogReady(st.log.value, a.now);
            && next.log.Some? && next.log.value.tokens <= 1_000
            && |next.events| == |st.events| + One(ready > 0)
            && LogReady(next.log.value, a.now) == if ready > 0 then ready - 1 else 0
  {
    hide FindingOf;
  }

  /** With everything logged, a burst at one moment leaves exactly as many events as the
      limiter has ready, at most a thousand. */
  lemma {:induction false} LogBurstIsExact(dry: bool, st: KState, run: seq<Arrival>, t: nat)
    requires st.log.Some? && st.log.value.tokens <= 1_000 && LogsAll(run, t)
    ensures |StateAfter(dry, st, run).events| == |st.events| + Min(|run|, LogReady(st.log.value, t))
    decreases |run|
  {
    if run != [] {
      OneLogAt(dry, st, run[0]);
      hide LogReady, After;
      assert LogsAll(run[1..], t);
      LogBurstIsExact(dry, After(dry, st, run[0]), run[1..], t);
    }
  }

  // ---- Who is dropped ----

  lemma {:induction false} TagsOfExtension(p: seq<u8>, extra: seq<u8>)
    requires |p| >= 14 && |p| >= 14 + 4 * TagCount(p)
    ensures TagCount(p + extra) == TagCount(p)
  {
  }

  /** Bytes appended behind completely parsed headers change nothing that is seen. */
  lemma AppendedBytesAreNotSeen(p: seq<u8>, extra: seq<u8>)
    requires !HeadersOf(p).Bad?
    ensures HeadersOf(p + extra) == HeadersOf(p)
  {
    TagsOfExtension(p, extra);
    var e, e' := Ethernet(p).value, Ethernet(p + extra).value;
    assert (p + extra)[6..12] == p[6..12] && (p + extra)[0..6] == p[0..6];
    assert e' == e;
  }

  /** So neither the verdict nor the state depends on them. */
  lemma AppendedBytesChangeNothing(dry: bool, st: KState, a: Arrival, extra: seq<u8>)
    requires !HeadersOf(a.packet).Bad?
    ensures var a' := a.(packet := a.packet + extra);
            After(dry, st, a') == After(dry, st, a) && WireOf(dry, st, a') == WireOf(dry, st, a)
  {
    AppendedBytesAreNotSeen(a.packet, extra);
  }

  /** A packet whose Ethernet and IPv4 headers parse. */
  predicate IsIpv4(p: seq<u8>) {
    && Ethernet(p).Some? && Ethernet(p).value.value.ethType == ETH_IPV4
    && Ipv4(p, Ethernet(p).value.next).Some?
  }

  predicate IsFragment(p: seq<u8>)
    requires IsIpv4(p)
  {
    Ipv4(p, Ethernet(p).value.next).value.value.isFragment
  }

  /** The source address as the four bytes on the wire. */
  function WireSource(p: seq<u8>): u32
    requires IsIpv4(p)
  {
    Be32(p, Ethernet(p).value.next + 12)
  }

  predicate IsStored(t: Table, addr: u32) {
    exists p <- t :: Inside(addr, p)
  }

  /** The source the pipeline sees in an IPv4 packet is the one on the wire, loaded in
      host order, even when the header behind it is bad. */
  lemma {:induction false} SeenSourceIsOnTheWire(p: seq<u8>)
    requires IsIpv4(p)
    ensures var h := HeadersOf(p);
            && !h.NotIp?
            && h.seen.srcIp == Le32(p, Ethernet(p).value.next + 12)
            && NetworkValue(h.seen.srcIp) == WireSource(p)
            && (h.Fragment? <==> IsFragment(p))
            && (h.Bad? ==> h.reason in {TcpParseFailed, UdpParseFailed})
  {
    var at := Ethernet(p).value.next;
    NetworkValueOfLoad(p, at + 12);
    hide Ethernet, Tcp, Udp, Le32, Be32, Be16, NetworkValue;
    assert Ipv4(p, at).value.value.srcIp == Le32(p, at + 12);
    hide Ipv4;
  }

  /** The filters on headers whose source is in the blacklist, or is not. */
  lemma BlacklistDecides(policy: Policy, rate: RateTable, h: Headers, now: u64, env: Env)
    requires !h.NotIp?
    requires h.Bad? ==> h.reason in {TcpParseFailed, UdpParseFailed}
    ensures var f := Inspect(policy, rate, h, now, env);
            && (f.reason == BlacklistHit <==>
                  IsBlacklisted(policy.reputation, h.seen.srcIp) && h.Datagram? && RfcViolation(h.seen) == NoReason)
            && (IsBlacklisted(policy.reputation, h.seen.srcIp) ==>
                  (f.reason != NoReason <==> !h.Fragment? || !RateGrants(rate - env.evicted, h.seen.srcIp, now)))
  {
    hide IsBlacklisted, IsPortBlocked, RateGrants, IsLoopback, HasBit;
  }

  /** An IPv4 packet from inside a stored prefix is dropped, whatever else it holds,
      unless it is a fragment: fragments leave the pipeline before the blacklist and
      are dropped only when their source has run out of tokens. The blacklist is the
      reason given exactly when the rules before it are met. */
  lemma {:induction false} BlockedSourcesAreDropped(st: KState, a: Arrival)
    requires WellFormed(a.policy.reputation) && OnlyBlocks(a.policy.reputation) && IsIpv4(a.packet)
    ensures var h := HeadersOf(a.packet);
            && !h.NotIp?
            && (IsStored(a.policy.reputation, WireSource(a.packet)) ==>
                  (WireOf(false, st, a) == XdpDrop <==>
                    !IsFragment(a.packet) || !RateGrants(st.rate - a.env.evicted, h.seen.srcIp, a.now)))
            && (FindingOf(st, a).reason == BlacklistHit <==>
                  IsStored(a.policy.reputation, WireSource(a.packet)) && h.Datagram? && RfcViolation(h.seen) == NoReason)
  {
    SeenSourceIsOnTheWire(a.packet);
    BlockedIffInsideAStoredPrefix(a.policy.reputation, WireSource(a.packet));
    hide HeadersOf, Inspect, RateGrants, RfcViolation, IsFragment, WireSource, NetworkValue, Inside, Lookup, IsIpv4;
    BlacklistDecides(a.policy, st.rate, HeadersOf(a.packet), a.now, a.env);
  }

  /** The loopback exemption looks at the first address byte on the wire. */
  lemma LoopbackIsTheFirstByte(p: seq<u8>, at: nat)
    requires at + 4 <= |p|
    ensures IsLoopback(Le32(p, at)) <==> p[at] == 127
  {
  }

  /** Traffic that answers a connection made from here: TCP with ACK, or UDP to an
      ephemeral port. */
  predicate IsReply(s: Seen) {
    (s.protocol == PROTO_TCP && HasBit(s.tcpFlags, ACK)) || (s.protocol == PROTO_UDP && s.dstPort >= 32_768)
  }

  /** The port gate matters exactly to new inbound TCP connections and low UDP ports that
      every earlier rule lets by: no policy for ports can change what happens to a reply. */
  lemma RepliesAreNeverGated(policy: Policy, gate: PortGate, rate: RateTable, h: Headers, now: u64, env: Env)
    requires h.Datagram? && IsReply(h.seen)
    ensures Inspect(policy, rate, h, now, env) == Inspect(policy.(gate := gate), rate, h, now, env)
    ensures Inspect(policy, rate, h, now, env).reason != PortBlocked
  {
  }
}
