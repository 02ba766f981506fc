/** Ethernet, IPv4, TCP, UDP and ARP header parsers.

    For each header there is a function on the packet bytes, which says what is at
    a given offset and where the next header starts, and the method that reads it
    through the cursor. */
module Parsers {
  import opened Words
  import opened PacketCursor

  const ETH_IPV4: u16 := 0x0800
  const ETH_ARP: u16 := 0x0806
  const ETH_VLAN_8021Q: u16 := 0x8100
  const ETH_QINQ_8021AD: u16 := 0x88A8

  const PROTO_TCP: u8 := 6
  const PROTO_UDP: u8 := 17

  /** A header value together with the offset just behind the header. */
  datatype Parsed<+T> = Parsed(value: T, next: nat)

  datatype L2Info = L2Info(srcMac: seq<u8>, dstMac: seq<u8>, ethType: u16)
  datatype L3Ipv4Info = L3Ipv4Info(srcIp: u32, dstIp: u32, proto: u8, totalLen: u16, isFragment: bool)
  datatype L4TcpInfo = L4TcpInfo(srcPort: u16, dstPort: u16, flags: u8, dataOffset: nat)
  datatype L4UdpInfo = L4UdpInfo(srcPort: u16, dstPort: u16, length: u16)

  predicate IsVlan(ethType: u16) {
    ethType == ETH_VLAN_8021Q || ethType == ETH_QINQ_8021AD
  }

  /** How many of the first two EtherType positions hold a VLAN tag. */
  function TagCount(p: seq<u8>): (n: nat)
    requires |p| >= 14
    ensures n <= 2
  {
    if !IsVlan(Be16(p, 12)) then 0
    else if |p| >= 18 && !IsVlan(Be16(p, 16)) then 1
    else 2
  }

  function Ethernet(p: seq<u8>): Option<Parsed<L2Info>> {
    if |p| < 14 then None
    else
      var next := 14 + 4 * TagCount(p);
      if |p| < next then None
      else Some(Parsed(L2Info(p[6..12], p[0..6], Be16(p, next - 2)), next))
  }

  function Ipv4(p: seq<u8>, at: nat): Option<Parsed<L3Ipv4Info>> {
    if |p| < at + 20 then None
    else
      var ihl := p[at] % 16;
      if p[at] / 16 != 4 || ihl < 5 || |p| < at + 4 * ihl then None
      else
        Some(Parsed(
               L3Ipv4Info(Le32(p, at + 12), Le32(p, at + 16), p[at + 9], Be16(p, at + 2),
                          Be16(p, at + 6) % 0x4000 != 0),
               at + 4 * ihl))
  }

  function Tcp(p: seq<u8>, at: nat): Option<Parsed<L4TcpInfo>> {
    if |p| < at + 20 then None
    else
      var doff := p[at + 12] / 16;
      if doff < 5 || |p| < at + 4 * doff then None
      else Some(Parsed(L4TcpInfo(Be16(p, at), Be16(p, at + 2), p[at + 13], 4 * doff), at + 4 * doff))
  }

  function Udp(p: seq<u8>, at: nat): Option<Parsed<L4UdpInfo>> {
    if |p| < at + 8 || Be16(p, at + 4) < 8 then None
    else Some(Parsed(L4UdpInfo(Be16(p, at), Be16(p, at + 2), Be16(p, at + 4)), at + 8))
  }

  function Arp(p: seq<u8>, at: nat): Option<Parsed<()>> {
    if |p| < at + 28 then None
    else if Be16(p, at) != 1 || Be16(p, at + 2) != ETH_IPV4 || p[at + 4] != 6 || p[at + 5] != 4 then None
    else Some(Parsed((), at + 28))
  }

  /** What a parsing method owes for the function's answer `want`: the same value,
      and on success the cursor just behind the header. */
  ghost predicate Reads<T(!new)>(c: Cursor, got: Option<T>, want: Option<Parsed<T>>)
    reads c
  {
    && c.Valid()
    && (got.Some? <==> want.Some?)
    && (got.Some? ==> got.value == want.value.value && c.offset == want.value.next)
  }

  method ParseEthernet(c: Cursor) returns (r: Option<L2Info>)
    requires c.Valid() && c.offset == 0
    modifies c
    ensures Reads(c, r, Ethernet(c.packet))
  {
    var eth := c.Read(14);
    if eth.None? {
      return None;
    }
    var ethType := Be16(eth.value, 12);
    var i := 0;
    while i < 2
      invariant 0 <= i <= 2
      invariant c.Valid() && c.offset == 14 + 4 * i && eth.value == c.packet[..14]
      invariant ethType == Be16(c.packet, 12 + 4 * i)
      invariant i <= TagCount(c.packet)
    {
      if ethType == ETH_VLAN_8021Q || ethType == ETH_QINQ_8021AD {
        var vlan := c.Read(4);
        if vlan.None? {
          return None;
        }
        ethType := Be16(vlan.value, 2);
      } else {
        break;
      }
      i := i + 1;
    }
    r := Some(L2Info(eth.value[6..12], eth.value[0..6], ethType));
  }

  method ParseIpv4(c: Cursor) returns (r: Option<L3Ipv4Info>)
    requires c.Valid()
    modifies c
    ensures Reads(c, r, Ipv4(c.packet, old(c.offset)))
  {
    var ip := c.Read(20);
    if ip.None? {
      return None;
    }
    var hdr := ip.value;
    var version := hdr[0] / 16;
    var ihl := hdr[0] % 16;
    if version != 4 || ihl < 5 {
      return None;
    }
    var fragOff := Be16(hdr, 6);
    var isFragment := fragOff % 0x4000 != 0;
    if ihl > 5 {
      var optionsLen: u64 := (ihl - 5) * 4;
      var ok := c.Advance(optionsLen);
      if !ok {
        return None;
      }
    }
    r := Some(L3Ipv4Info(Le32(hdr, 12), Le32(hdr, 16), hdr[9], Be16(hdr, 2), isFragment));
  }

  method ParseTcp(c: Cursor) returns (r: Option<L4TcpInfo>)
    requires c.Valid()
    modifies c
    ensures Reads(c, r, Tcp(c.packet, old(c.offset)))
  {
    var tcp := c.Read(20);
    if tcp.None? {
      return None;
    }
    var hdr := tcp.value;
    var flagsRaw := Be16(hdr, 12);
    var doff := (flagsRaw / 0x1000) % 16;
    if doff < 5 {
      return None;
    }
    var flags := flagsRaw % 0x100;
    if doff > 5 {
      var optionsLen: u64 := (doff - 5) * 4;
      var ok := c.Advance(optionsLen);
      if !ok {
        return None;
      }
    }
    r := Some(L4TcpInfo(Be16(hdr, 0), Be16(hdr, 2), flags, doff * 4));
  }

  method ParseUdp(c: Cursor) returns (r: Option<L4UdpInfo>)
    requires c.Valid()
    modifies c
    ensures Reads(c, r, Udp(c.packet, old(c.offset)))
  {
    var udp := c.Read(8);
    if udp.None? {
      return None;
    }
    var hdr := udp.value;
    var length := Be16(hdr, 4);
    if length < 8 {
      return None;
    }
    r := Some(L4UdpInfo(Be16(hdr, 0), Be16(hdr, 2), length));
  }

  method ParseArp(c: Cursor) returns (r: Option<()>)
    requires c.Valid()
    modifies c
    ensures Reads(c, r, Arp(c.packet, old(c.offset)))
  {
    var arp := c.Read(8);
    if arp.None? {
      return None;
    }
    var hdr := arp.value;
    if Be16(hdr, 0) != 1 || Be16(hdr, 2) != 0x0800 || hdr[4] != 6 || hdr[5] != 4 {
      return None;
    }
    var ok := c.Advance(20);
    return if ok then Some(()) else None;
  }
}
