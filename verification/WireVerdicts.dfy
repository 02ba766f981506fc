/** What happens to the frames a sender serialises, in terms of the fields the sender wrote:
    which of them are dropped and why, and what the telemetry says of them. */
module WireVerdicts {
  import opened Words
  import opened Parsers
  import opened Frames
  import opened Telemetry
  import opened TokenBucket
  import opened Reputation
  import opened Kernel
  import KernelRuns

  /** An IPv4 frame that is no fragment, field by field. */
  datatype Frame = Frame(dst: seq<u8>, src: seq<u8>, tags: seq<Tag>, ip: Ipv4Fields, l4: L4Fields, payload: seq<u8>)

  predicate FrameFits(f: Frame) {
    && |f.dst| == 6 && |f.src| == 6 && TagsFit(f.tags, ETH_IPV4) && Ipv4Fits(f.ip) && L4Fits(f.ip.proto, f.l4)
    && f.ip.fragOff % 0x4000 == 0
  }

  function Bytes(f: Frame): seq<u8>
    requires FrameFits(f)
  {
    f.dst + f.src + EncodeTags(f.tags, ETH_IPV4) + EncodeIpv4(f.ip) + EncodeL4(f.l4) + f.payload
  }

  // ---- The rules, on the sender's fields ----

  /** Same source and destination, neither loopback nor 0.0.0.0. */
  predicate IsLand(ip: Ipv4Fields)
    requires Ipv4Fits(ip)
  {
    ip.src == ip.dst && ip.src != [0, 0, 0, 0] && ip.src[0] != 127
  }

  /** FIN, SYN, RST, PSH, ACK and URG are bits 0 to 5 of the flag byte. */
  predicate IsNullScan(flags: u8) {
    flags % 64 == 0
  }

  predicate IsSynFin(flags: u8) {
    flags % 4 == 3
  }

  predicate IsXmas(flags: u8) {
    flags % 2 == 1 && (flags / 8) % 2 == 1 && (flags / 32) % 2 == 1
  }

  /** SYN without ACK. */
  predicate OpensConnection(flags: u8) {
    (flags / 2) % 2 == 1 && (flags / 16) % 2 == 0
  }

  predicate IsGated(gate: PortGate, port: u16) {
    port != 0 && port in gate && gate[port] == 2
  }

  /** A new TCP connection to a gated port, or a datagram to a gated port that is not
      ephemeral. */
  predicate HitsGate(gate: PortGate, l4: L4Fields) {
    match l4
    case TcpSegment(t) => OpensConnection(t.flags) && IsGated(gate, t.dstPort)
    case UdpDatagram(u) => u.dstPort < 32_768 && IsGated(gate, u.dstPort)
    case OtherL4 => false
  }

  predicate BreaksTcpRule(l4: L4Fields) {
    l4.TcpSegment? && (IsNullScan(l4.tcp.flags) || IsSynFin(l4.tcp.flags) || IsXmas(l4.tcp.flags))
  }

  // ---- The parsed frame ----

  lemma DatagramsAreIpv4(p: seq<u8>)
    requires HeadersOf(p).Datagram?
    ensures KernelRuns.IsIpv4(p) && !KernelRuns.IsFragment(p)
  {
    hide Ethernet, Ipv4, L4HeadersOf;
    KernelRuns.SeenSourceIsOnTheWire(p);
  }

  lemma SeenOfFrame(f: Frame)
    requires FrameFits(f)
    ensures HeadersOf(Bytes(f)) == Datagram(Meant(f.ip, f.l4))
    ensures KernelRuns.IsIpv4(Bytes(f)) && !KernelRuns.IsFragment(Bytes(f))
    ensures KernelRuns.WireSource(Bytes(f)) == Be32(f.ip.src, 0)
  {
    FrameRoundTrip(f.dst, f.src, f.tags, f.ip, f.l4, f.payload);
    hide HeadersOf, EncodeTags, EncodeIpv4, EncodeL4, KernelRuns.IsIpv4, KernelRuns.IsFragment, KernelRuns.WireSource;
    DatagramsAreIpv4(Bytes(f));
    KernelRuns.SeenSourceIsOnTheWire(Bytes(f));
    NetworkValueOfLoad(f.ip.src, 0);
  }

  /** Equal bytes and equal loaded words are one thing. */
  lemma LoadIsInjective(a: seq<u8>, b: seq<u8>)
    requires |a| == 4 && |b| == 4
    ensures Le32(a, 0) == Le32(b, 0) <==> a == b
    ensures Le32(a, 0) == 0 <==> a == [0, 0, 0, 0]
    ensures IsLoopback(Le32(a, 0)) <==> a[0] == 127
  {
    KernelRuns.LoopbackIsTheFirstByte(a, 0);
    hide IsLoopback;
    Le32RoundTrip(a, 0);
    Le32RoundTrip(b, 0);
    assert a[0..4] == a && b[0..4] == b;
  }

  lemma ControlBits(high: nat, low: nat)
    requires low < 64
    ensures var x := 64 * high + low;
            && x % 64 == low
            && x / 2 == 32 * high + low / 2 && x / 8 == 8 * high + low / 8 && x / 32 == 2 * high + low / 32
  {
    var x := 64 * high + low;
    Halves(x, 32 * high, low);
    Eighths(x, 8 * high, low);
    ThirtySeconds(x, 2 * high, low);
  }

  lemma Halves(x: nat, k: nat, low: nat)
    requires x == 2 * k + low
    ensures x / 2 == k + low / 2
  {
  }

  lemma Eighths(x: nat, k: nat, low: nat)
    requires x == 8 * k + low
    ensures x / 8 == k + low / 8
  {
  }

  lemma ThirtySeconds(x: nat, k: nat, low: nat)
    requires x == 32 * k + low
    ensures x / 32 == k + low / 32
  {
  }

  lemma Parity(x: nat, y: nat, k: nat)
    requires x == 2 * k + y
    ensures x % 2 == y % 2
  {
  }

  lemma FlagBits(flags: u8)
    ensures flags % 0x40 == 0 <==> IsNullScan(flags)
    ensures HasBit(flags % 0x40, SYN) && HasBit(flags % 0x40, FIN) <==> IsSynFin(flags)
    ensures HasBit(flags % 0x40, FIN) && HasBit(flags % 0x40, PSH) && HasBit(flags % 0x40, URG) <==> IsXmas(flags)
    ensures HasBit(flags, SYN) && !HasBit(flags, ACK) <==> OpensConnection(flags)
  {
    var high, low := flags / 64, flags % 64;
    ControlBits(high, low);
    Parity(flags / 2, low / 2, 16 * high);
    Parity(flags / 8, low / 8, 4 * high);
    Parity(flags / 32, low / 32, high);
    LowTwoBits(flags);
  }

  lemma LowTwoBits(flags: u8)
    ensures flags % 4 == 3 <==> flags % 2 == 1 && (flags / 2) % 2 == 1
  {
  }

  // ---- Verdicts ----

  /** What the rules make of a frame, first violation first. `listed` and `granted` are the
      answers of the blacklist and of the limiter for its source. */
  lemma RulesOfFrame(f: Frame)
    requires FrameFits(f)
    ensures var r := RfcViolation(Meant(f.ip, f.l4));
            && (r == RfcLandAttack <==> IsLand(f.ip))
            && (r == RfcNullScan <==> !IsLand(f.ip) && f.l4.TcpSegment? && IsNullScan(f.l4.tcp.flags))
            && (r == RfcSynFin <==> !IsLand(f.ip) && f.l4.TcpSegment? && IsSynFin(f.l4.tcp.flags))
            && (r == RfcXmasScan <==> !IsLand(f.ip) && f.l4.TcpSegment? && !IsSynFin(f.l4.tcp.flags) && IsXmas(f.l4.tcp.flags))
            && (r == NoReason <==> !IsLand(f.ip) && !BreaksTcpRule(f.l4))
  {
    LoadIsInjective(f.ip.src, f.ip.dst);
    LoadIsInjective(f.ip.dst, f.ip.src);
    if f.l4.TcpSegment? {
      FlagBits(f.l4.tcp.flags);
    }
    hide IsLoopback, HasBit, Le32;
  }

  lemma GateOfFrame(f: Frame, gate: PortGate)
    requires FrameFits(f)
    ensures IsPortBlocked(gate, Meant(f.ip, f.l4)) <==> HitsGate(gate, f.l4)
  {
    if f.l4.TcpSegment? {
      FlagBits(f.l4.tcp.flags);
    }
    hide HasBit, Le32;
  }

  predicate IsListed(policy: Policy, ip: Ipv4Fields)
    requires Ipv4Fits(ip)
  {
    KernelRuns.IsStored(policy.reputation, Be32(ip.src, 0))
  }

  /** The source has no bucket yet, or a token left, or has waited long enough for one. */
  predicate HasToken(rate: RateTable, src: u32, now: u64) {
    src !in rate || rate[src].tokens >= 1 || now >= rate[src].lastUpdateNs + 100_000
  }

  lemma GrantsIffToken(rate: RateTable, src: u32, now: u64)
    ensures RateGrants(rate, src, now) <==> HasToken(rate, src, now)
  {
  }

  /** A frame reaching the hook. */
  predicate Carries(a: Arrival, f: Frame) {
    && FrameFits(f) && a.packet == Bytes(f)
    && WellFormed(a.policy.reputation) && OnlyBlocks(a.policy.reputation)
  }

  /** Exactly which frames are dropped, and for which reason, in the sender's terms. Each
      reason excludes the ones before it. */
  lemma {:induction false} FrameVerdicts(st: KState, a: Arrival, f: Frame)
    requires Carries(a, f)
    ensures var r := FindingOf(st, a).reason;
            var land, rule, listed, gated := IsLand(f.ip), BreaksTcpRule(f.l4), IsListed(a.policy, f.ip), HitsGate(a.policy.gate, f.l4);
            var token := HasToken(st.rate - a.env.evicted, Le32(f.ip.src, 0), a.now);
            && (r == RfcLandAttack <==> land)
            && (r == RfcNullScan <==> !land && f.l4.TcpSegment? && IsNullScan(f.l4.tcp.flags))
            && (r == RfcSynFin <==> !land && f.l4.TcpSegment? && IsSynFin(f.l4.tcp.flags))
            && (r == RfcXmasScan <==> !land && f.l4.TcpSegment? && !IsSynFin(f.l4.tcp.flags) && IsXmas(f.l4.tcp.flags))
            && (r == BlacklistHit <==> !land && !rule && listed)
            && (r == PortBlocked <==> !land && !rule && !listed && gated)
            && (r == RateLimited <==> !land && !rule && !listed && !gated && !token)
            && (WireOf(false, st, a) == XdpDrop <==> land || rule || listed || gated || !token)
  {
    SeenOfFrame(f);
    RulesOfFrame(f);
    GateOfFrame(f, a.policy.gate);
    KernelRuns.SeenSourceIsOnTheWire(Bytes(f));
    BlockedIffInsideAStoredPrefix(a.policy.reputation, Be32(f.ip.src, 0));
    GrantsIffToken(st.rate - a.env.evicted, Le32(f.ip.src, 0), a.now);
    hide HeadersOf, Bytes, RfcViolation, RateGrants, HasToken, IsPortBlocked, HitsGate, IsLand, Lookup, Inside, NetworkValue, Le32, Be32;
    hide IsNullScan, IsSynFin, IsXmas, KernelRuns.IsIpv4, KernelRuns.WireSource;
  }

  /** The control flags of an ordinary connection: SYN, SYN-ACK, ACK, PSH-ACK, FIN-ACK,
      RST and RST-ACK. */
  predicate IsOrdinary(flags: u8) {
    flags in {0x02, 0x12, 0x10, 0x18, 0x11, 0x04, 0x14}
  }

  lemma OrdinaryFlags(flags: u8)
    requires IsOrdinary(flags)
    ensures !IsNullScan(flags) && !IsSynFin(flags) && !IsXmas(flags) && (OpensConnection(flags) <==> flags == 0x02)
  {
  }

  /** None of the segments of a connection between different hosts is dropped, unless the
      source is listed or out of tokens or, for its SYN, the port is gated. */
  lemma {:induction false} OrdinarySegmentsPass(st: KState, a: Arrival, f: Frame)
    requires Carries(a, f) && f.l4.TcpSegment? && IsOrdinary(f.l4.tcp.flags) && f.ip.src != f.ip.dst
    requires !IsListed(a.policy, f.ip) && HasToken(st.rate - a.env.evicted, Le32(f.ip.src, 0), a.now)
    ensures WireOf(false, st, a) == XdpDrop <==> f.l4.tcp.flags == 0x02 && IsGated(a.policy.gate, f.l4.tcp.dstPort)
  {
    FrameVerdicts(st, a, f);
    OrdinaryFlags(f.l4.tcp.flags);
    hide WireOf, FindingOf, FrameFits, Bytes, IsListed, HasToken, IsGated, IsOrdinary, OpensConnection;
    hide IsNullScan, IsSynFin, IsXmas, WellFormed, OnlyBlocks;
  }

  // ---- What cannot be parsed, and what is not looked into ----

  predicate HoldsEthernetArp(p: seq<u8>, at: nat) {
    at + 28 <= |p| && p[at..at + 6] == [0, 1, 8, 0, 6, 4]
  }

  ghost predicate HoldsTransport(p: seq<u8>, at: nat, proto: u8) {
    (proto == 6 ==> HoldsTcp(p, at)) && (proto == 17 ==> HoldsUdp(p, at))
  }

  /** Any bytes whatsoever: a packet is dropped for its link layer, or for its ARP header,
      exactly when none has been serialised there; and what is neither IPv4 nor a bad ARP
      packet passes without a look at any rule. */
  lemma {:induction false} UnparseableLinks(st: KState, a: Arrival)
    ensures var p, r := a.packet, FindingOf(st, a).reason;
            && (r == EthParseFailed <==> !HoldsEthernet(p))
            && (HoldsEthernet(p) ==>
                  var l2 := Ethernet(p).value;
                  && (r == ArpParseFailed <==> l2.value.ethType == 0x0806 && !HoldsEthernetArp(p, l2.next))
                  && (l2.value.ethType != 0x0800 && r != ArpParseFailed ==> r == NoReason))
  {
    var p := a.packet;
    EthernetIffEncoded(p);
    if HoldsEthernet(p) {
      ArpIffEthernetIpv4(p, Ethernet(p).value.next);
    }
    RulesAreNotParsing(a.policy, st.rate, HeadersOf(p), a.now, a.env);
    hide Ethernet, Ipv4, Tcp, Udp, Arp, HoldsEthernet, HoldsEthernetArp, Inspect;
  }

  /** So is an IPv4 packet for its network or transport header; of a fragment no
      transport header is expected. */
  lemma {:induction false} UnparseableDatagrams(st: KState, a: Arrival)
    requires Ethernet(a.packet).Some? && Ethernet(a.packet).value.value.ethType == 0x0800
    ensures var p, at, r := a.packet, Ethernet(a.packet).value.next, FindingOf(st, a).reason;
            && (r == Ipv4ParseFailed <==> !HoldsIpv4(p, at))
            && (HoldsIpv4(p, at) ==>
                  var l3 := Ipv4(p, at).value;
                  (r in {TcpParseFailed, UdpParseFailed} <==>
                    !l3.value.isFragment && !HoldsTransport(p, l3.next, l3.value.proto)))
  {
    var p, at := a.packet, Ethernet(a.packet).value.next;
    Ipv4IffEncoded(p, at);
    if HoldsIpv4(p, at) {
      TcpIffEncoded(p, Ipv4(p, at).value.next);
      UdpIffEncoded(p, Ipv4(p, at).value.next);
    }
    RulesAreNotParsing(a.policy, st.rate, HeadersOf(p), a.now, a.env);
    hide Ethernet, Ipv4, Tcp, Udp, Arp, HoldsEthernet, HoldsIpv4, HoldsTcp, HoldsUdp, Inspect;
  }

  lemma RulesAreNotParsing(policy: Policy, rate: RateTable, h: Headers, now: u64, env: Env)
    ensures var r := Inspect(policy, rate, h, now, env).reason;
            && (h.Bad? ==> r == h.reason)
            && (h.NotIp? ==> r == NoReason)
            && (h.Datagram? || h.Fragment? ==> r !in PARSE_FAILURES)
  {
    hide IsBlacklisted, IsPortBlocked, IsLoopback, HasBit, RateGrants, RateAfter;
  }

  // ---- Telemetry ----

  /** Ports and flags as the sender wrote them, zero where the protocol has none. */
  function SentSrcPort(l4: L4Fields): u16 {
    match l4
    case TcpSegment(t) => t.srcPort
    case UdpDatagram(u) => u.srcPort
    case OtherL4 => 0
  }

  function SentDstPort(l4: L4Fields): u16 {
    match l4
    case TcpSegment(t) => t.dstPort
    case UdpDatagram(u) => u.dstPort
    case OtherL4 => 0
  }

  function SentFlags(l4: L4Fields): u8 {
    if l4.TcpSegment? then l4.tcp.flags else 0
  }

  /** The addresses, ports, protocol and flags of a record are the sender's. */
  predicate Names(e: FlowPacketMeta, ip: Ipv4Fields, l4: L4Fields)
    requires Ipv4Fits(ip)
  {
    && Be32Bytes(e.srcIp) == ip.src && Be32Bytes(e.dstIp) == ip.dst && e.protocol == ip.proto
    && e.srcPort == SentSrcPort(l4) && e.dstPort == SentDstPort(l4) && e.tcpFlags == SentFlags(l4)
  }

  /** Action byte 1 on a packet that is dropped, 2 on one that passes and would have passed
      under enforcement, 5 on one that passes only because of dry-run mode. */
  predicate TellsTheVerdict(e: FlowPacketMeta, dry: bool, st: KState, a: Arrival) {
    && (e.action == 1 <==> WireOf(dry, st, a) == XdpDrop)
    && (e.action == 2 <==> WireOf(false, st, a) == XdpPass)
    && (e.action == 5 <==> WireOf(dry, st, a) == XdpPass && WireOf(false, st, a) == XdpDrop)
  }

  predicate TellsTheReason(e: FlowPacketMeta, r: DropReason) {
    && (e.dropReason == 0 <==> r == NoReason)
    && (e.dropReason == 10 <==> r == RfcLandAttack) && (e.dropReason == 11 <==> r == RfcNullScan)
    && (e.dropReason == 12 <==> r == RfcSynFin) && (e.dropReason == 13 <==> r == RfcXmasScan)
    && (e.dropReason == 14 <==> r == BlacklistHit)
    && (e.dropReason == 20 <==> r == PortBlocked) && (e.dropReason == 21 <==> r == RateLimited)
  }

  /** The record the control plane decodes from the event an arrival leaves. */
  function Told(dry: bool, st: KState, a: Arrival, extra: seq<u8>): FlowPacketMeta
    requires |After(dry, st, a).events| > |st.events|
  {
    Decoded(KernelBytes(Last(After(dry, st, a).events)) + extra)
  }

  lemma EventOfArrival(dry: bool, st: KState, a: Arrival, extra: seq<u8>, seen: Seen)
    requires |After(dry, st, a).events| > |st.events|
    requires HeadersOf(a.packet) in {Datagram(seen), Fragment(seen)}
    ensures var e := Told(dry, st, a, extra);
            && e.srcIp == NetworkValue(seen.srcIp) && e.dstIp == NetworkValue(seen.dstIp)
            && e.srcPort == seen.srcPort && e.dstPort == seen.dstPort
            && e.protocol == seen.protocol && e.tcpFlags == seen.tcpFlags && e.timestampNs == a.now
            && TellsTheVerdict(e, dry, st, a) && TellsTheReason(e, FindingOf(st, a).reason)
  {
    hide KernelBytes, Decoded, NetworkValue, HeadersOf, RfcViolation, IsBlacklisted, IsPortBlocked, RateGrants, RateAfter, LogGrants, LogWorthy;
    DecodeOfKernelBytes(Last(After(dry, st, a).events), extra);
  }

  /** Every event of a frame tells what the sender wrote, when it came, and what became
      of it; for a fragment, which carries no transport header, the ports are zero. */
  lemma {:induction false} EventsTellTheFrame(dry: bool, st: KState, a: Arrival, f: Frame, extra: seq<u8>)
    requires FrameFits(f) && a.packet == Bytes(f) && |After(dry, st, a).events| > |st.events|
    ensures var e := Told(dry, st, a, extra);
            && Names(e, f.ip, f.l4) && e.timestampNs == a.now
            && TellsTheVerdict(e, dry, st, a) && TellsTheReason(e, FindingOf(st, a).reason)
  {
    SeenOfFrame(f);
    hide After, Told, HeadersOf, Bytes, TellsTheVerdict, TellsTheReason, NetworkValue;
    EventOfArrival(dry, st, a, extra, Meant(f.ip, f.l4));
    AddressesOfLoads(f.ip);
  }

  lemma AddressesOfLoads(ip: Ipv4Fields)
    requires Ipv4Fits(ip)
    ensures Be32Bytes(NetworkValue(Le32(ip.src, 0))) == ip.src && Be32Bytes(NetworkValue(Le32(ip.dst, 0))) == ip.dst
  {
    NetworkValueOfLoad(ip.src, 0);
    NetworkValueOfLoad(ip.dst, 0);
    hide NetworkValue, Be32, Be32Bytes, Le32;
    Be32RoundTrip(ip.src, 0);
    Be32RoundTrip(ip.dst, 0);
    assert ip.src[0..4] == ip.src && ip.dst[0..4] == ip.dst;
  }

  /** A serialised fragment, with whatever follows its IPv4 header. */
  predicate CarriesFragment(a: Arrival, dst: seq<u8>, src: seq<u8>, tags: seq<Tag>, ip: Ipv4Fields, rest: seq<u8>) {
    && |dst| == 6 && |src| == 6 && TagsFit(tags, ETH_IPV4) && Ipv4Fits(ip) && ip.fragOff % 0x4000 != 0
    && a.packet == dst + src + EncodeTags(tags, ETH_IPV4) + EncodeIpv4(ip) + rest
  }

  lemma {:induction false} EventsTellTheFragment(
      dry: bool, st: KState, a: Arrival, extra: seq<u8>,
      dst: seq<u8>, src: seq<u8>, tags: seq<Tag>, ip: Ipv4Fields, rest: seq<u8>)
    requires CarriesFragment(a, dst, src, tags, ip, rest) && |After(dry, st, a).events| > |st.events|
    ensures var e := Told(dry, st, a, extra);
            && Names(e, ip, OtherL4) && e.timestampNs == a.now && TellsTheVerdict(e, dry, st, a)
  {
    FragmentRoundTrip(dst, src, tags, ip, rest);
    hide After, Told, HeadersOf, TellsTheVerdict, TellsTheReason, NetworkValue, CarriesFragment;
    EventOfArrival(dry, st, a, extra, Meant(ip, OtherL4));
    AddressesOfLoads(ip);
  }

  // ---- Which packets leave an event ----

  const PARSE_FAILURES: set<DropReason> := {EthParseFailed, Ipv4ParseFailed, TcpParseFailed, UdpParseFailed, ArpParseFailed}

  /** Level 1 logs everything, 2 every violation, 3 what the structural rules and the
      blacklist find, 4 what cannot be parsed; 0 and anything above 4 log nothing. */
  predicate IsLogged(level: u32, r: DropReason) {
    || level == 1
    || (level == 2 && r != NoReason)
    || (level == 3 && r !in {NoReason, PortBlocked, RateLimited})
    || (level == 4 && r in PARSE_FAILURES)
  }

  predicate LogHasToken(log: Option<Bucket>, now: u64) {
    log.None? || log.value.tokens >= 1 || now >= log.value.lastUpdateNs + 100_000
  }

  /** Exactly when an arrival, of any bytes, leaves an event; it never leaves two, and
      earlier ones stay. */
  lemma {:induction false} EventsLeft(dry: bool, st: KState, a: Arrival)
    ensures var before, after := st.events, After(dry, st, a).events;
            && (after == before || (|after| == |before| + 1 && after[..|before|] == before))
            && (after != before <==>
                  && a.policy.level.Some? && IsLogged(a.policy.level.value, FindingOf(st, a).reason)
                  && LogHasToken(st.log, a.now) && a.env.ringHasRoom)
  {
    LevelsBySeverity(a.policy.level, FindingOf(st, a).reason);
    LogGrantsIffToken(st.log, a.now);
    hide FindingOf, IsLogged, LogWorthy, LogGrants, LogHasToken, EventOf;
  }

  lemma LevelsBySeverity(level: Option<u32>, r: DropReason)
    ensures LogWorthy(level, r) <==> level.Some? && IsLogged(level.value, r)
  {
  }

  lemma LogGrantsIffToken(log: Option<Bucket>, now: u64)
    ensures LogGrants(log, now) <==> LogHasToken(log, now)
  {
  }
}
