/** The XDP program: the pipeline as it runs, over its maps, one packet at a time. */
module XdpFirewall {
  import opened Words
  import opened PacketCursor
  import opened Parsers
  import opened Telemetry
  import opened TokenBucket
  import opened Reputation
  import opened Kernel

  class Firewall {
    var config: map<nat, u32>
    const reputation: LpmTrie
    var portGate: PortGate
    var rateLimits: RateTable
    var logRateLimit: Option<Bucket>
    var events: seq<FlowPacketMeta>

    constructor (reputation: LpmTrie)
      ensures Valid() && View() == KState(map[], Some(Bucket(0, 0)), [])
      ensures this.reputation == reputation
    {
      this.reputation := reputation;
      config, portGate, rateLimits := map[0 := 0, 1 := 0], map[], map[];
      logRateLimit, events := Some(Bucket(0, 0)), [];
    }

    function View(): KState
      reads this
    {
      KState(rateLimits, logRateLimit, events)
    }

    function Config(index: nat): Option<u32>
      reads this
    {
      if index in config then Some(config[index]) else None
    }

    function PolicyView(): Policy
      reads this, reputation
    {
      Policy(Config(0), reputation.entries, portGate)
    }

    /** No bucket holds more than its capacity; the additions below rest on it. */
    ghost predicate Valid()
      reads this
    {
      WithinCapacity(View())
    }

    method CheckLogRateLimit(now: u64) returns (ok: bool)
      requires Valid()
      modifies this`logRateLimit
      ensures Valid()
      ensures ok == LogGrants(old(logRateLimit), now)
      ensures logRateLimit == LogAfter(old(logRateLimit), now)
    {
      if logRateLimit.None? {
        return true;
      }
      var state := logRateLimit.value;
      var elapsed: u64 := if now >= state.lastUpdateNs then now - state.lastUpdateNs else 0;
      var newTokens: u64 := elapsed / NANOS_PER_TOKEN;
      if newTokens > 0 {
        var sum: u64 := state.tokens + newTokens;
        state := state.(tokens := Min(sum, LOG_BURST_CAPACITY));
        state := state.(lastUpdateNs := now);
      }
      if state.tokens >= 1 {
        state := state.(tokens := state.tokens - 1);
        ok := true;
      } else {
        ok := false;
      }
      logRateLimit := Some(state);
    }

    method CheckRateLimit(srcIp: u32, now: u64, insertWorks: bool) returns (ok: bool)
      requires Valid()
      modifies this`rateLimits
      ensures Valid()
      ensures ok == RateGrants(old(rateLimits), srcIp, now)
      ensures rateLimits == RateAfter(old(rateLimits), srcIp, now, insertWorks)
    {
      if srcIp in rateLimits {
        var state := rateLimits[srcIp];
        var elapsed: u64 := if now >= state.lastUpdateNs then now - state.lastUpdateNs else 0;
        var newTokens: u64 := elapsed / NANOS_PER_TOKEN;
        if newTokens > 0 {
          var sum: u64 := state.tokens + newTokens;
          state := state.(tokens := Min(sum, BURST_CAPACITY));
          state := state.(lastUpdateNs := now);
        }
        if state.tokens >= 1 {
          state := state.(tokens := state.tokens - 1);
          ok := true;
        } else {
          ok := false;
        }
        rateLimits := rateLimits[srcIp := state];
      } else {
        var newState := Bucket(now, BURST_CAPACITY - 1);
        if insertWorks {
          rateLimits := rateLimits[srcIp := newState];
        }
        ok := true;
      }
    }

    method EmitAndReturn(action: Wire, dropReason: DropReason, seen: Seen, now: u64, ringHasRoom: bool)
      returns (wire: Wire)
      requires Valid() && (action == XdpDrop <==> dropReason != NoReason)
      modifies this`logRateLimit, this`events
      ensures Valid()
      ensures wire == Verdict(Dry(Config(1)), dropReason)
      ensures View() == Emit(Config(0), Dry(Config(1)), old(View()), Finding(dropReason, seen, rateLimits), now, ringHasRoom)
    {
      var dryRun := 1 in config && config[1] == 1;
      var telemetryAction: Action;
      if action == XdpDrop {
        if dryRun {
          wire, telemetryAction := XdpPass, WouldDrop;
        } else {
          wire, telemetryAction := XdpDrop, Drop;
        }
      } else {
        wire, telemetryAction := action, Pass;
      }
      var threshold := if 0 in config then config[0] else 0;
      if threshold == 0 {
        return;
      }
      var severity := Severity(dropReason);
      if severity < threshold {
        return;
      }
      var granted := CheckLogRateLimit(now);
      if !granted {
        return;
      }
      var meta := FlowPacketMeta(seen.srcIp, seen.dstIp, seen.srcPort, seen.dstPort, seen.protocol, seen.tcpFlags,
                                 ActionCode(Pass), ReasonCode(NoReason), now);
      meta := meta.(action := ActionCode(telemetryAction), dropReason := ReasonCode(dropReason), timestampNs := now);
      if ringHasRoom {
        events := events + [meta];
      }
    }

    /** One packet through the hook. `start` is where the kernel placed the packet. */
    method Process(packet: seq<u8>, start: u64, now: u64, env: Env) returns (wire: Wire)
      requires Valid() && start as int + |packet| <= ADDRESS_CEILING
      modifies this
      ensures Valid()
      ensures config == old(config) && portGate == old(portGate)
      ensures var a := Arrival(packet, now, old(PolicyView()), env);
              && View() == After(Dry(Config(1)), old(View()), a)
              && wire == WireOf(Dry(Config(1)), old(View()), a)
    {
      EvictionComesFirst(PolicyView(), rateLimits, HeadersOf(packet), now, env);
      rateLimits := rateLimits - env.evicted;
      var cursor := new Cursor(packet, start);
      wire := ProcessFrame(cursor, now, env);
    }

    method ProcessFrame(cursor: Cursor, now: u64, env: Env) returns (wire: Wire)
      requires Valid() && cursor.Valid() && cursor.offset == 0 && rateLimits.Keys !! env.evicted
      modifies this`rateLimits, this`logRateLimit, this`events, cursor
      ensures Valid()
      ensures var f := Inspect(old(PolicyView()), old(rateLimits), HeadersOf(cursor.packet), now, env);
              && View() == Emit(Config(0), Dry(Config(1)), old(View()), f, now, env.ringHasRoom)
              && wire == Verdict(Dry(Config(1)), f.reason)
      ensures HeadersEnd(cursor.packet).Some? ==> cursor.offset == HeadersEnd(cursor.packet).value
    {
      assert rateLimits - env.evicted == rateLimits;
      var l2 := ParseEthernet(cursor);
      if l2.None? {
        wire := EmitAndReturn(XdpDrop, EthParseFailed, NOTHING, now, env.ringHasRoom);
        return;
      }
      if l2.value.ethType == ETH_IPV4 {
        wire := ProcessIpv4(cursor, now, env);
      } else if l2.value.ethType == ETH_ARP {
        var arp := ParseArp(cursor);
        if arp.Some? {
          wire := EmitAndReturn(XdpPass, NoReason, NOTHING, now, env.ringHasRoom);
        } else {
          wire := EmitAndReturn(XdpDrop, ArpParseFailed, NOTHING, now, env.ringHasRoom);
        }
      } else {
        wire := EmitAndReturn(XdpPass, NoReason, NOTHING, now, env.ringHasRoom);
      }
    }

    method ProcessIpv4(cursor: Cursor, now: u64, env: Env) returns (wire: Wire)
      requires Valid() && cursor.Valid() && rateLimits.Keys !! env.evicted
      modifies this`rateLimits, this`logRateLimit, this`events, cursor
      ensures Valid()
      ensures var f := Inspect(old(PolicyView()), old(rateLimits), Ipv4HeadersOf(cursor.packet, old(cursor.offset)), now, env);
              && View() == Emit(Config(0), Dry(Config(1)), old(View()), f, now, env.ringHasRoom)
              && wire == Verdict(Dry(Config(1)), f.reason)
      ensures var end := Ipv4HeadersEnd(cursor.packet, old(cursor.offset)); end.Some? ==> cursor.offset == end.value
    {
      assert rateLimits - env.evicted == rateLimits;
      var l3 := ParseIpv4(cursor);
      if l3.None? {
        wire := EmitAndReturn(XdpDrop, Ipv4ParseFailed, NOTHING, now, env.ringHasRoom);
        return;
      }
      var seen := NOTHING;
      seen := seen.(srcIp := l3.value.srcIp);
      seen := seen.(dstIp := l3.value.dstIp);
      seen := seen.(protocol := l3.value.proto);
      if l3.value.isFragment {
        wire := LimitAndEmit(seen, now, env);
        return;
      }
      if l3.value.proto == PROTO_TCP {
        var tcp := ParseTcp(cursor);
        if tcp.None? {
          wire := EmitAndReturn(XdpDrop, TcpParseFailed, seen, now, env.ringHasRoom);
          return;
        }
        seen := seen.(srcPort := tcp.value.srcPort);
        seen := seen.(dstPort := tcp.value.dstPort);
        seen := seen.(tcpFlags := tcp.value.flags);
      } else if l3.value.proto == PROTO_UDP {
        var udp := ParseUdp(cursor);
        if udp.None? {
          wire := EmitAndReturn(XdpDrop, UdpParseFailed, seen, now, env.ringHasRoom);
          return;
        }
        seen := seen.(srcPort := udp.value.srcPort);
        seen := seen.(dstPort := udp.value.dstPort);
      }
      wire := Filter(seen, now, env);
    }

    method Filter(seen: Seen, now: u64, env: Env) returns (wire: Wire)
      requires Valid() && rateLimits.Keys !! env.evicted
      modifies this`rateLimits, this`logRateLimit, this`events
      ensures Valid()
      ensures var f := Inspect(old(PolicyView()), old(rateLimits), Datagram(seen), now, env);
              && View() == Emit(Config(0), Dry(Config(1)), old(View()), f, now, env.ringHasRoom)
              && wire == Verdict(Dry(Config(1)), f.reason)
    {
      assert rateLimits - env.evicted == rateLimits;
      var rfc := RfcViolation(seen);
      if rfc != NoReason {
        wire := EmitAndReturn(XdpDrop, rfc, seen, now, env.ringHasRoom);
        return;
      }
      var action := Lookup(reputation.entries, NetworkValue(seen.srcIp));
      if action.Some? && action.value == 1 {
        wire := EmitAndReturn(XdpDrop, BlacklistHit, seen, now, env.ringHasRoom);
        return;
      }
      if IsPortBlocked(portGate, seen) {
        wire := EmitAndReturn(XdpDrop, PortBlocked, seen, now, env.ringHasRoom);
        return;
      }
      wire := LimitAndEmit(seen, now, env);
    }

    /** The last stage of both the fragment path and the clean path. */
    method LimitAndEmit(seen: Seen, now: u64, env: Env) returns (wire: Wire)
      requires Valid()
      modifies this`rateLimits, this`logRateLimit, this`events
      ensures Valid()
      ensures var f := RateLimit(old(rateLimits), seen, now, env.insertWorks);
              && View() == Emit(Config(0), Dry(Config(1)), old(View()), f, now, env.ringHasRoom)
              && wire == Verdict(Dry(Config(1)), f.reason)
    {
      var ok := CheckRateLimit(seen.srcIp, now, env.insertWorks);
      if !ok {
        wire := EmitAndReturn(XdpDrop, RateLimited, seen, now, env.ringHasRoom);
        return;
      }
      wire := EmitAndReturn(XdpPass, NoReason, seen, now, env.ringHasRoom);
    }
  }
}
