/** The packet pipeline as functions on values: which headers a packet has, what the
    ordered filters find, and how a finding becomes a verdict and a telemetry event. */
module Kernel {
  import opened Words
  import opened Parsers
  import opened Telemetry
  import opened TokenBucket
  import opened Reputation

  const BURST_CAPACITY: nat := 20_000
  const LOG_BURST_CAPACITY: nat := 1_000

  const FIN: nat := 0x01
  const SYN: nat := 0x02
  const PSH: nat := 0x08
  const ACK: nat := 0x10
  const URG: nat := 0x20

  /** What parsing has learned of a packet when its fate is decided. */
  datatype Seen = Seen(srcIp: u32, dstIp: u32, srcPort: u16, dstPort: u16, protocol: u8, tcpFlags: u8)

  const NOTHING := Seen(0, 0, 0, 0, 0, 0)

  datatype Headers =
    | Bad(reason: DropReason, seen: Seen)
    | Fragment(seen: Seen)
    | Datagram(seen: Seen)
    | NotIp

  function HeadersOf(p: seq<u8>): Headers {
    match Ethernet(p)
    case None => Bad(EthParseFailed, NOTHING)
    case Some(l2) =>
      if l2.value.ethType == ETH_IPV4 then Ipv4HeadersOf(p, l2.next)
      else if l2.value.ethType == ETH_ARP && Arp(p, l2.next).None? then Bad(ArpParseFailed, NOTHING)
      else NotIp
  }

  function Ipv4HeadersOf(p: seq<u8>, at: nat): Headers {
    match Ipv4(p, at)
    case None => Bad(Ipv4ParseFailed, NOTHING)
    case Some(l3) =>
      var ip := NOTHING.(srcIp := l3.value.srcIp, dstIp := l3.value.dstIp, protocol := l3.value.proto);
      if l3.value.isFragment then Fragment(ip) else L4HeadersOf(p, l3.next, ip)
  }

  function L4HeadersOf(p: seq<u8>, at: nat, ip: Seen): Headers {
    if ip.protocol == PROTO_TCP then
      match Tcp(p, at)
      case None => Bad(TcpParseFailed, ip)
      case Some(t) => Datagram(ip.(srcPort := t.value.srcPort, dstPort := t.value.dstPort, tcpFlags := t.value.flags))
    else if ip.protocol == PROTO_UDP then
      match Udp(p, at)
      case None => Bad(UdpParseFailed, ip)
      case Some(u) => Datagram(ip.(srcPort := u.value.srcPort, dstPort := u.value.dstPort))
    else Datagram(ip)
  }

  /** Where the last header of a completely parsed packet ends. */
  function HeadersEnd(p: seq<u8>): Option<nat> {
    match Ethernet(p)
    case None => None
    case Some(l2) =>
      if l2.value.ethType == ETH_IPV4 then Ipv4HeadersEnd(p, l2.next)
      else if l2.value.ethType == ETH_ARP then EndOf(Arp(p, l2.next))
      else Some(l2.next)
  }

  function Ipv4HeadersEnd(p: seq<u8>, at: nat): Option<nat> {
    match Ipv4(p, at)
    case None => None
    case Some(l3) =>
      if l3.value.isFragment then Some(l3.next)
      else if l3.value.proto == PROTO_TCP then EndOf(Tcp(p, l3.next))
      else if l3.value.proto == PROTO_UDP then EndOf(Udp(p, l3.next))
      else Some(l3.next)
  }

  function EndOf<T>(r: Option<Parsed<T>>): Option<nat> {
    if r.Some? then Some(r.value.next) else None
  }

  predicate IsLoopback(ipRaw: u32) {
    NetworkValue(ipRaw) / 0x100_0000 == 0x7F
  }

  /** The RFC structural rules, first violation first. */
  function RfcViolation(s: Seen): DropReason {
    var control := s.tcpFlags % 0x40;
    if !IsLoopback(s.srcIp) && !IsLoopback(s.dstIp) && s.srcIp != 0 && s.srcIp == s.dstIp then RfcLandAttack
    else if s.protocol != PROTO_TCP then NoReason
    else if control == 0 then RfcNullScan
    else if HasBit(control, SYN) && HasBit(control, FIN) then RfcSynFin
    else if HasBit(control, FIN) && HasBit(control, PSH) && HasBit(control, URG) then RfcXmasScan
    else NoReason
  }

  type PortGate = map<u16, u8>

  predicate IsPortBlocked(gate: PortGate, s: Seen) {
    && s.dstPort != 0
    && ((s.protocol == PROTO_TCP && HasBit(s.tcpFlags, SYN) && !HasBit(s.tcpFlags, ACK))
        || (s.protocol == PROTO_UDP && s.dstPort < 32_768))
    && s.dstPort in gate && gate[s.dstPort] == 2
  }

  predicate IsBlacklisted(t: Table, srcRaw: u32) {
    Lookup(t, NetworkValue(srcRaw)) == Some(BLOCK)
  }

  type RateTable = map<u32, Bucket>

  /** What the kernel around the program decides for one packet: which rate slots the
      LRU table has evicted since the last packet, whether inserting a new slot
      succeeds, and whether the ring buffer has room. */
  datatype Env = Env(evicted: set<u32>, insertWorks: bool, ringHasRoom: bool)

  predicate RateGrants(rate: RateTable, src: u32, now: u64) {
    src in rate ==> Grants(BURST_CAPACITY, rate[src], now)
  }

  function RateAfter(rate: RateTable, src: u32, now: u64, insertWorks: bool): RateTable {
    if src in rate then rate[src := Draw(BURST_CAPACITY, rate[src], now)]
    else if insertWorks then rate[src := Bucket(now, BURST_CAPACITY - 1)]
    else rate
  }

  /** What the control plane has configured, apart from the dry-run switch. */
  datatype Policy = Policy(level: Option<u32>, reputation: Table, gate: PortGate)

  datatype Finding = Finding(reason: DropReason, seen: Seen, rate: RateTable)

  /** The ordered filters. The finding drops the packet iff its reason is not NoReason. */
  function Inspect(policy: Policy, rate: RateTable, h: Headers, now: u64, env: Env): Finding {
    var kept := rate - env.evicted;
    match h
    case Bad(reason, seen) => Finding(reason, seen, kept)
    case NotIp => Finding(NoReason, NOTHING, kept)
    case Fragment(seen) => RateLimit(kept, seen, now, env.insertWorks)
    case Datagram(seen) =>
      if RfcViolation(seen) != NoReason then Finding(RfcViolation(seen), seen, kept)
      else if IsBlacklisted(policy.reputation, seen.srcIp) then Finding(BlacklistHit, seen, kept)
      else if IsPortBlocked(policy.gate, seen) then Finding(PortBlocked, seen, kept)
      else RateLimit(kept, seen, now, env.insertWorks)
  }

  function RateLimit(rate: RateTable, seen: Seen, now: u64, insertWorks: bool): Finding {
    Finding(if RateGrants(rate, seen.srcIp, now) then NoReason else RateLimited,
            seen, RateAfter(rate, seen.srcIp, now, insertWorks))
  }

  /** Evicting twice is evicting once, so the filters may run on the evicted table. */
  lemma EvictionComesFirst(policy: Policy, rate: RateTable, h: Headers, now: u64, env: Env)
    ensures Inspect(policy, rate - env.evicted, h, now, env) == Inspect(policy, rate, h, now, env)
  {
    assert (rate - env.evicted) - env.evicted == rate - env.evicted;
  }

  datatype Wire = XdpDrop | XdpPass

  datatype KState = KState(rate: RateTable, log: Option<Bucket>, events: seq<FlowPacketMeta>)

  /** No bucket holds more tokens than its capacity. */
  predicate WithinCapacity(st: KState) {
    && (forall src <- st.rate :: st.rate[src].tokens <= BURST_CAPACITY)
    && (st.log.Some? ==> st.log.value.tokens <= LOG_BURST_CAPACITY)
  }

  predicate Dry(dryRun: Option<u32>) {
    dryRun == Some(1)
  }

  predicate LogWorthy(level: Option<u32>, reason: DropReason) {
    level.Some? && level.value != 0 && Severity(reason) >= level.value
  }

  function LogAfter(log: Option<Bucket>, now: u64): Option<Bucket> {
    if log.Some? then Some(Draw(LOG_BURST_CAPACITY, log.value, now)) else None
  }

  predicate LogGrants(log: Option<Bucket>, now: u64) {
    log.Some? ==> Grants(LOG_BURST_CAPACITY, log.value, now)
  }

  function EventOf(f: Finding, dry: bool, now: u64): FlowPacketMeta {
    FlowPacketMeta(f.seen.srcIp, f.seen.dstIp, f.seen.srcPort, f.seen.dstPort, f.seen.protocol, f.seen.tcpFlags,
                   ActionCode(if f.reason == NoReason then Pass else if dry then WouldDrop else Drop),
                   ReasonCode(f.reason), now)
  }

  /** The finding becomes a state with, perhaps, one more event. */
  function Emit(level: Option<u32>, dry: bool, st: KState, f: Finding, now: u64, ringHasRoom: bool): KState {
    if !LogWorthy(level, f.reason) then st.(rate := f.rate)
    else
      KState(f.rate, LogAfter(st.log, now),
             if LogGrants(st.log, now) && ringHasRoom then st.events + [EventOf(f, dry, now)] else st.events)
  }

  function Verdict(dry: bool, reason: DropReason): Wire {
    if reason != NoReason && !dry then XdpDrop else XdpPass
  }

  /** One packet reaching the hook, with everything around it at that moment. */
  datatype Arrival = Arrival(packet: seq<u8>, now: u64, policy: Policy, env: Env)

  function FindingOf(st: KState, a: Arrival): Finding {
    Inspect(a.policy, st.rate, HeadersOf(a.packet), a.now, a.env)
  }

  function After(dry: bool, st: KState, a: Arrival): KState {
    Emit(a.policy.level, dry, st, FindingOf(st, a), a.now, a.env.ringHasRoom)
  }

  function WireOf(dry: bool, st: KState, a: Arrival): Wire {
    Verdict(dry, FindingOf(st, a).reason)
  }
}
