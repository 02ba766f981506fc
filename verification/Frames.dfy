/** Frames as a sender serialises them (section 3.1 of RFC 791, section 3.1 of
    RFC 9293), and the parsers as the inverse of that. */
module Frames {
  import opened Words
  import opened Parsers
  import opened Kernel

  datatype Tag = Tag(tpid: u16, tci: u16)

  datatype Ipv4Fields = Ipv4Fields(
    tos: u8, totalLen: u16, id: u16, fragOff: u16, ttl: u8, proto: u8, check: u16,
    src: seq<u8>, dst: seq<u8>, options: seq<u8>)

  datatype TcpFields = TcpFields(
    srcPort: u16, dstPort: u16, seqNo: u32, ackNo: u32, reserved: u8, flags: u8,
    window: u16, check: u16, urgent: u16, options: seq<u8>)

  datatype UdpFields = UdpFields(srcPort: u16, dstPort: u16, length: u16, check: u16)

  /** Options fill whole 32-bit words, at most ten of them. */
  predicate OptionsFit(options: seq<u8>) {
    |options| % 4 == 0 && |options| <= 40
  }

  predicate Ipv4Fits(f: Ipv4Fields) {
    |f.src| == 4 && |f.dst| == 4 && OptionsFit(f.options)
  }

  predicate TcpFits(f: TcpFields) {
    f.reserved < 16 && OptionsFit(f.options)
  }

  predicate TagsFit(tags: seq<Tag>, ethType: u16) {
    && |tags| <= 2 && (forall t <- tags :: IsVlan(t.tpid))
    && (|tags| < 2 ==> !IsVlan(ethType))
  }

  function EncodeTags(tags: seq<Tag>, ethType: u16): (b: seq<u8>)
    ensures |b| == 2 + 4 * |tags|
  {
    if tags == [] then Be16Bytes(ethType)
    else Be16Bytes(tags[0].tpid) + Be16Bytes(tags[0].tci) + EncodeTags(tags[1..], ethType)
  }

  function EncodeIpv4(f: Ipv4Fields): (b: seq<u8>)
    requires Ipv4Fits(f)
    ensures |b| == 20 + |f.options|
  {
    [0x40 + 5 + |f.options| / 4, f.tos] + Be16Bytes(f.totalLen) + Be16Bytes(f.id) + Be16Bytes(f.fragOff)
    + [f.ttl, f.proto] + Be16Bytes(f.check) + f.src + f.dst + f.options
  }

  function EncodeTcp(f: TcpFields): (b: seq<u8>)
    requires TcpFits(f)
    ensures |b| == 20 + |f.options|
  {
    Be16Bytes(f.srcPort) + Be16Bytes(f.dstPort) + Be32Bytes(f.seqNo) + Be32Bytes(f.ackNo)
    + [(5 + |f.options| / 4) * 16 + f.reserved, f.flags]
    + Be16Bytes(f.window) + Be16Bytes(f.check) + Be16Bytes(f.urgent) + f.options
  }

  function EncodeUdp(f: UdpFields): (b: seq<u8>)
    ensures |b| == 8
  {
    Be16Bytes(f.srcPort) + Be16Bytes(f.dstPort) + Be16Bytes(f.length) + Be16Bytes(f.check)
  }

  lemma Be16RoundTrip(p: seq<u8>, at: nat, x: u16)
    requires at + 2 <= |p| && p[at] == x / 0x100 && p[at + 1] == x % 0x100
    ensures Be16(p, at) == x
  {
  }

  lemma {:induction false} EthernetRoundTrip(dst: seq<u8>, src: seq<u8>, tags: seq<Tag>, ethType: u16, rest: seq<u8>)
    requires |dst| == 6 && |src| == 6 && TagsFit(tags, ethType)
    ensures Ethernet(dst + src + EncodeTags(tags, ethType) + rest)
            == Some(Parsed(L2Info(src, dst, ethType), 14 + 4 * |tags|))
  {
    var p := dst + src + EncodeTags(tags, ethType) + rest;
    assert p[0..6] == dst && p[6..12] == src;
    if |tags| == 0 {
      Be16RoundTrip(p, 12, ethType);
    } else {
      assert tags[0] in tags;
      var inner := EncodeTags(tags[1..], ethType);
      assert p[12] == Be16Bytes(tags[0].tpid)[0] && p[13] == Be16Bytes(tags[0].tpid)[1];
      assert p[16] == inner[0] && p[17] == inner[1];
      Be16RoundTrip(p, 12, tags[0].tpid);
      if |tags| == 1 {
        Be16RoundTrip(p, 16, ethType);
      } else {
        assert tags[1] in tags && tags[1..][0] == tags[1];
        assert inner == Be16Bytes(tags[1].tpid) + Be16Bytes(tags[1].tci) + EncodeTags(tags[1..][1..], ethType);
        assert p[20] == inner[4] && p[21] == inner[5];
        Be16RoundTrip(p, 16, tags[1].tpid);
        Be16RoundTrip(p, 20, ethType);
      }
    }
  }

  lemma Ipv4RoundTrip(before: seq<u8>, f: Ipv4Fields, rest: seq<u8>)
    requires Ipv4Fits(f)
    ensures Ipv4(before + EncodeIpv4(f) + rest, |before|)
            == Some(Parsed(L3Ipv4Info(Le32(f.src, 0), Le32(f.dst, 0), f.proto, f.totalLen, f.fragOff % 0x4000 != 0),
                           |before| + |EncodeIpv4(f)|))
  {
  }

  lemma TcpRoundTrip(before: seq<u8>, f: TcpFields, rest: seq<u8>)
    requires TcpFits(f)
    ensures Tcp(before + EncodeTcp(f) + rest, |before|)
            == Some(Parsed(L4TcpInfo(f.srcPort, f.dstPort, f.flags, |EncodeTcp(f)|), |before| + |EncodeTcp(f)|))
  {
  }

  lemma UdpRoundTrip(before: seq<u8>, f: UdpFields, rest: seq<u8>)
    requires f.length >= 8
    ensures Udp(before + EncodeUdp(f) + rest, |before|)
            == Some(Parsed(L4UdpInfo(f.srcPort, f.dstPort, f.length), |before| + 8))
  {
  }

  datatype L4Fields = TcpSegment(tcp: TcpFields) | UdpDatagram(udp: UdpFields) | OtherL4

  predicate L4Fits(proto: u8, l4: L4Fields) {
    match l4
    case TcpSegment(t) => proto == PROTO_TCP && TcpFits(t)
    case UdpDatagram(u) => proto == PROTO_UDP && u.length >= 8
    case OtherL4 => proto != PROTO_TCP && proto != PROTO_UDP
  }

  function EncodeL4(l4: L4Fields): seq<u8>
    requires l4.TcpSegment? ==> TcpFits(l4.tcp)
  {
    match l4
    case TcpSegment(t) => EncodeTcp(t)
    case UdpDatagram(u) => EncodeUdp(u)
    case OtherL4 => []
  }

  /** What the sender meant, as the pipeline should see it. */
  function Meant(ip: Ipv4Fields, l4: L4Fields): Seen
    requires Ipv4Fits(ip)
  {
    var s := NOTHING.(srcIp := Le32(ip.src, 0), dstIp := Le32(ip.dst, 0), protocol := ip.proto);
    match l4
    case TcpSegment(t) => s.(srcPort := t.srcPort, dstPort := t.dstPort, tcpFlags := t.flags)
    case UdpDatagram(u) => s.(srcPort := u.srcPort, dstPort := u.dstPort)
    case OtherL4 => s
  }

  lemma L4RoundTrip(before: seq<u8>, ip: Ipv4Fields, l4: L4Fields, payload: seq<u8>)
    requires Ipv4Fits(ip) && L4Fits(ip.proto, l4)
    ensures L4HeadersOf(before + EncodeL4(l4) + payload, |before|, Meant(ip, OtherL4)) == Datagram(Meant(ip, l4))
    ensures var p := before + EncodeL4(l4) + payload;
            && (l4.TcpSegment? ==> EndOf(Tcp(p, |before|)) == Some(|p| - |payload|))
            && (l4.UdpDatagram? ==> EndOf(Udp(p, |before|)) == Some(|p| - |payload|))
  {
    match l4 {
      case TcpSegment(t) => TcpRoundTrip(before, t, payload);
      case UdpDatagram(u) => UdpRoundTrip(before, u, payload);
      case OtherL4 =>
    }
  }

  lemma IpRoundTrip(before: seq<u8>, ip: Ipv4Fields, l4: L4Fields, payload: seq<u8>)
    requires Ipv4Fits(ip) && L4Fits(ip.proto, l4) && ip.fragOff % 0x4000 == 0
    ensures var p := before + EncodeIpv4(ip) + EncodeL4(l4) + payload;
            Ipv4HeadersOf(p, |before|) == Datagram(Meant(ip, l4)) && Ipv4HeadersEnd(p, |before|) == Some(|p| - |payload|)
  {
    assert before + EncodeIpv4(ip) + EncodeL4(l4) + payload == before + EncodeIpv4(ip) + (EncodeL4(l4) + payload);
    Ipv4RoundTrip(before, ip, EncodeL4(l4) + payload);
    L4RoundTrip(before + EncodeIpv4(ip), ip, l4, payload);
  }

  /** The whole frame: whatever the tags, options and payload, the pipeline sees exactly
      the fields the sender encoded, and the headers end where the payload starts. */
  lemma {:induction false} FrameRoundTrip(dst: seq<u8>, src: seq<u8>, tags: seq<Tag>, ip: Ipv4Fields, l4: L4Fields, payload: seq<u8>)
    requires |dst| == 6 && |src| == 6 && TagsFit(tags, ETH_IPV4) && Ipv4Fits(ip) && L4Fits(ip.proto, l4)
    requires ip.fragOff % 0x4000 == 0
    ensures var p := dst + src + EncodeTags(tags, ETH_IPV4) + EncodeIpv4(ip) + EncodeL4(l4) + payload;
            && HeadersOf(p) == Datagram(Meant(ip, l4))
            && HeadersEnd(p) == Some(14 + 4 * |tags| + (20 + |ip.options|) + |EncodeL4(l4)|)
            && HeadersEnd(p) == Some(|p| - |payload|)
  {
    hide Ethernet, Ipv4HeadersOf, Ipv4HeadersEnd, EncodeTags, EncodeIpv4, EncodeL4, Meant;
    var l2 := dst + src + EncodeTags(tags, ETH_IPV4);
    var rest := EncodeIpv4(ip) + EncodeL4(l4) + payload;
    assert l2 + EncodeIpv4(ip) + EncodeL4(l4) + payload == l2 + rest;
    EthernetRoundTrip(dst, src, tags, ETH_IPV4, rest);
    IpRoundTrip(l2, ip, l4, payload);
    assert |l2| == 14 + 4 * |tags|;
  }

  /** A fragment is recognised as one whatever it carries. */
  lemma {:induction false} FragmentRoundTrip(dst: seq<u8>, src: seq<u8>, tags: seq<Tag>, ip: Ipv4Fields, rest: seq<u8>)
    requires |dst| == 6 && |src| == 6 && TagsFit(tags, ETH_IPV4) && Ipv4Fits(ip)
    requires ip.fragOff % 0x4000 != 0
    ensures HeadersOf(dst + src + EncodeTags(tags, ETH_IPV4) + EncodeIpv4(ip) + rest)
            == Fragment(Meant(ip, OtherL4))
  {
    var l2 := dst + src + EncodeTags(tags, ETH_IPV4);
    assert l2 + EncodeIpv4(ip) + rest == l2 + (EncodeIpv4(ip) + rest);
    EthernetRoundTrip(dst, src, tags, ETH_IPV4, EncodeIpv4(ip) + rest);
    Ipv4RoundTrip(l2, ip, rest);
  }

  // ---- Only encodings parse ----

  lemma Be16BytesOf(p: seq<u8>, at: nat)
    requires at + 2 <= |p|
    ensures Be16Bytes(Be16(p, at)) == [p[at], p[at + 1]]
  {
  }

  /** The fields of a header as they lie at an offset. */
  function Ipv4FieldsAt(p: seq<u8>, at: nat): Ipv4Fields
    requires |p| >= at + 20 && |p| >= at + 4 * (p[at] % 16) >= at + 20
  {
    Ipv4Fields(p[at + 1], Be16(p, at + 2), Be16(p, at + 4), Be16(p, at + 6), p[at + 8], p[at + 9], Be16(p, at + 10),
               p[at + 12..at + 16], p[at + 16..at + 20], p[at + 20..at + 4 * (p[at] % 16)])
  }

  lemma Ipv4Decodes(p: seq<u8>, at: nat)
    requires Ipv4(p, at).Some?
    ensures var f := Ipv4FieldsAt(p, at); Ipv4Fits(f) && EncodeIpv4(f) == p[at..Ipv4(p, at).value.next]
  {
    Be16BytesOf(p, at + 2);
    Be16BytesOf(p, at + 4);
    Be16BytesOf(p, at + 6);
    Be16BytesOf(p, at + 10);
    hide Be16Bytes, Be16, Le32;
  }

  ghost predicate HoldsIpv4(p: seq<u8>, at: nat) {
    at <= |p| && exists f | Ipv4Fits(f) :: EncodeIpv4(f) <= p[at..]
  }

  lemma Ipv4OfEncoded(p: seq<u8>, at: nat, f: Ipv4Fields)
    requires at <= |p| && Ipv4Fits(f) && EncodeIpv4(f) <= p[at..]
    ensures Ipv4(p, at).Some?
  {
    hide Ipv4, EncodeIpv4;
    assert p == p[..at] + EncodeIpv4(f) + p[at + |EncodeIpv4(f)|..];
    Ipv4RoundTrip(p[..at], f, p[at + |EncodeIpv4(f)|..]);
  }

  /** An IPv4 header parses exactly where one has been serialised. */
  lemma {:induction false} Ipv4IffEncoded(p: seq<u8>, at: nat)
    ensures Ipv4(p, at).Some? <==> HoldsIpv4(p, at)
  {
    if Ipv4(p, at).Some? {
      Ipv4Decodes(p, at);
      hide EncodeIpv4;
      assert EncodeIpv4(Ipv4FieldsAt(p, at)) <= p[at..];
    }
    if HoldsIpv4(p, at) {
      var f :| Ipv4Fits(f) && EncodeIpv4(f) <= p[at..];
      Ipv4OfEncoded(p, at, f);
    }
  }

  function TcpFieldsAt(p: seq<u8>, at: nat): TcpFields
    requires |p| >= at + 20 && |p| >= at + 4 * (p[at + 12] / 16) >= at + 20
  {
    TcpFields(Be16(p, at), Be16(p, at + 2), Be32(p, at + 4), Be32(p, at + 8), p[at + 12] % 16, p[at + 13],
              Be16(p, at + 14), Be16(p, at + 16), Be16(p, at + 18), p[at + 20..at + 4 * (p[at + 12] / 16)])
  }

  lemma TcpDecodes(p: seq<u8>, at: nat)
    requires Tcp(p, at).Some?
    ensures var f := TcpFieldsAt(p, at); TcpFits(f) && EncodeTcp(f) == p[at..Tcp(p, at).value.next]
  {
    Be16BytesOf(p, at);
    Be16BytesOf(p, at + 2);
    Be16BytesOf(p, at + 14);
    Be16BytesOf(p, at + 16);
    Be16BytesOf(p, at + 18);
    Be32RoundTrip(p, at + 4);
    Be32RoundTrip(p, at + 8);
    hide Be16Bytes, Be16, Be32, Be32Bytes;
  }

  ghost predicate HoldsTcp(p: seq<u8>, at: nat) {
    at <= |p| && exists f | TcpFits(f) :: EncodeTcp(f) <= p[at..]
  }

  lemma TcpOfEncoded(p: seq<u8>, at: nat, f: TcpFields)
    requires at <= |p| && TcpFits(f) && EncodeTcp(f) <= p[at..]
    ensures Tcp(p, at).Some?
  {
    hide Tcp, EncodeTcp;
    assert p == p[..at] + EncodeTcp(f) + p[at + |EncodeTcp(f)|..];
    TcpRoundTrip(p[..at], f, p[at + |EncodeTcp(f)|..]);
  }

  lemma {:induction false} TcpIffEncoded(p: seq<u8>, at: nat)
    ensures Tcp(p, at).Some? <==> HoldsTcp(p, at)
  {
    if Tcp(p, at).Some? {
      TcpDecodes(p, at);
      hide EncodeTcp;
      assert EncodeTcp(TcpFieldsAt(p, at)) <= p[at..];
    }
    if HoldsTcp(p, at) {
      var f :| TcpFits(f) && EncodeTcp(f) <= p[at..];
      TcpOfEncoded(p, at, f);
    }
  }

  ghost predicate HoldsUdp(p: seq<u8>, at: nat) {
    at <= |p| && exists f: UdpFields | f.length >= 8 :: EncodeUdp(f) <= p[at..]
  }

  lemma {:induction false} UdpIffEncoded(p: seq<u8>, at: nat)
    ensures Udp(p, at).Some? <==> HoldsUdp(p, at)
  {
    if Udp(p, at).Some? {
      var f := UdpFields(Be16(p, at), Be16(p, at + 2), Be16(p, at + 4), Be16(p, at + 6));
      Be16BytesOf(p, at);
      Be16BytesOf(p, at + 2);
      Be16BytesOf(p, at + 4);
      Be16BytesOf(p, at + 6);
      assert EncodeUdp(f) == p[at..at + 8] <= p[at..];
    }
    if HoldsUdp(p, at) {
      var f: UdpFields :| f.length >= 8 && EncodeUdp(f) <= p[at..];
      assert p == p[..at] + EncodeUdp(f) + p[at + 8..];
      UdpRoundTrip(p[..at], f, p[at + 8..]);
    }
  }

  /** An ARP header is one for Ethernet and IPv4, with room for its addresses. */
  lemma ArpIffEthernetIpv4(p: seq<u8>, at: nat)
    ensures Arp(p, at).Some? <==> at + 28 <= |p| && p[at..at + 6] == [0, 1, 8, 0, 6, 4]
  {
  }

  predicate StartsWith(p: seq<u8>, dst: seq<u8>, src: seq<u8>, tags: seq<Tag>, ethType: u16) {
    |dst| == 6 && |src| == 6 && TagsFit(tags, ethType) && dst + src + EncodeTags(tags, ethType) <= p
  }

  ghost predicate HoldsEthernet(p: seq<u8>) {
    exists dst, src, tags, ethType :: StartsWith(p, dst, src, tags, ethType)
  }

  lemma TagsUnrolled(t: Tag, u: Tag, ethType: u16)
    ensures EncodeTags([], ethType) == Be16Bytes(ethType)
    ensures EncodeTags([t], ethType) == Be16Bytes(t.tpid) + Be16Bytes(t.tci) + Be16Bytes(ethType)
    ensures EncodeTags([t, u], ethType)
            == Be16Bytes(t.tpid) + Be16Bytes(t.tci) + Be16Bytes(u.tpid) + Be16Bytes(u.tci) + Be16Bytes(ethType)
  {
    hide Be16Bytes;
    assert [t][1..] == [] && [t, u][1..] == [u] && [u][1..] == [];
    var e := EncodeTags([u], ethType);
    assert e == Be16Bytes(u.tpid) + Be16Bytes(u.tci) + EncodeTags([], ethType);
    assert EncodeTags([t, u], ethType) == Be16Bytes(t.tpid) + Be16Bytes(t.tci) + e;
  }

  /** The tags in front of an EtherType `n` tags in. */
  function TagsAt(p: seq<u8>, n: nat): seq<Tag>
    requires |p| >= 14 + 4 * n && n <= 2
  {
    if n == 0 then []
    else if n == 1 then [Tag(Be16(p, 12), Be16(p, 14))]
    else [Tag(Be16(p, 12), Be16(p, 14)), Tag(Be16(p, 16), Be16(p, 18))]
  }

  lemma TagsDecode(p: seq<u8>, n: nat)
    requires |p| >= 14 + 4 * n && n <= 2
    ensures EncodeTags(TagsAt(p, n), Be16(p, 12 + 4 * n)) == p[12..14 + 4 * n]
  {
    TagBytes(p, n);
    var ethType := Be16(p, 12 + 4 * n);
    if n == 0 {
      TagsUnrolled(Tag(0, 0), Tag(0, 0), ethType);
    } else if n == 1 {
      TagsUnrolled(TagsAt(p, n)[0], Tag(0, 0), ethType);
      hide EncodeTags, Be16, Be16Bytes;
    } else {
      TagsUnrolled(TagsAt(p, n)[0], TagsAt(p, n)[1], ethType);
      hide EncodeTags, Be16, Be16Bytes;
    }
  }

  lemma TagsAtFit(p: seq<u8>)
    requires Ethernet(p).Some?
    ensures TagsFit(TagsAt(p, TagCount(p)), Be16(p, 12 + 4 * TagCount(p)))
  {
  }

  lemma {:induction false} EthernetDecodes(p: seq<u8>)
    requires Ethernet(p).Some?
    ensures HoldsEthernet(p)
  {
    TagsAtFit(p);
    var n := TagCount(p);
    TagsDecode(p, n);
    var tags, ethType := TagsAt(p, n), Be16(p, 12 + 4 * n);
    hide EncodeTags, TagsAt, TagCount, Be16, TagsFit;
    assert p[..6] + p[6..12] + p[12..14 + 4 * n] == p[..14 + 4 * n];
    assert StartsWith(p, p[..6], p[6..12], tags, ethType);
  }

  lemma TagBytes(p: seq<u8>, n: nat)
    requires |p| >= 14 + 4 * n && n <= 2
    ensures Be16Bytes(Be16(p, 12)) == p[12..14]
    ensures n > 0 ==> Be16Bytes(Be16(p, 14)) == p[14..16] && Be16Bytes(Be16(p, 16)) == p[16..18]
    ensures n > 1 ==> Be16Bytes(Be16(p, 18)) == p[18..20] && Be16Bytes(Be16(p, 20)) == p[20..22]
  {
    Be16BytesOf(p, 12);
    if n > 0 {
      Be16BytesOf(p, 14);
      Be16BytesOf(p, 16);
    }
    if n > 1 {
      Be16BytesOf(p, 18);
      Be16BytesOf(p, 20);
    }
    hide Be16Bytes, Be16;
  }

  lemma {:induction false} EthernetIffEncoded(p: seq<u8>)
    ensures Ethernet(p).Some? <==> HoldsEthernet(p)
  {
    if Ethernet(p).Some? {
      EthernetDecodes(p);
    }
    if HoldsEthernet(p) {
      var dst, src, tags, ethType :| StartsWith(p, dst, src, tags, ethType);
      var l2 := dst + src + EncodeTags(tags, ethType);
      assert p == l2 + p[|l2|..];
      EthernetRoundTrip(dst, src, tags, ethType, p[|l2|..]);
    }
  }
}
