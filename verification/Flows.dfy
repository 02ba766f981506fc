/** Direction-free flow keys and the shard each key is routed to. */
module Flows {
  import opened Words
  import opened Telemetry

  const NUM_SHARDS: nat := 16

  datatype FlowKey = FlowKey(ipLo: u32, ipHi: u32, portLo: u16, portHi: u16, protocol: u8)

  /** Whether the packet travels from the lower endpoint to the higher one. */
  predicate SrcIsLo(m: FlowPacketMeta) {
    m.srcIp < m.dstIp || (m.srcIp == m.dstIp && m.srcPort <= m.dstPort)
  }

  function KeyOf(m: FlowPacketMeta): FlowKey {
    if SrcIsLo(m) then FlowKey(m.srcIp, m.dstIp, m.srcPort, m.dstPort, m.protocol)
    else FlowKey(m.dstIp, m.srcIp, m.dstPort, m.srcPort, m.protocol)
  }

  /** Bitwise exclusive or. */
  function Xor(a: nat, b: nat): nat
    decreases a + b
  {
    if a == 0 && b == 0 then 0 else (a + b) % 2 + 2 * Xor(a / 2, b / 2)
  }

  /** 32-bit multiplication, wrapping. */
  function Mul32(a: u32, b: u32): u32 {
    (a as int * b as int) % 0x1_0000_0000
  }

  function IpHash(ipLo: u32, ipHi: u32): nat {
    Xor(Mul32(ipLo, 2654435761), Mul32(ipHi, 40503))
  }

  function Mixed(ips: nat, portLo: nat, portHi: nat, protocol: nat): nat {
    Xor(Xor(Xor(ips, portLo * 0x1_0000), portHi), protocol)
  }

  function ShardHash(k: FlowKey): nat {
    Mixed(IpHash(k.ipLo, k.ipHi), k.portLo, k.portHi, k.protocol)
  }

  function ShardIndex(k: FlowKey): (i: nat)
    ensures i < NUM_SHARDS
  {
    ShardHash(k) % NUM_SHARDS
  }

  function SrcShardIndex(srcIp: u32): (i: nat)
    ensures i < NUM_SHARDS
  {
    Mul32(srcIp, 2654435761) % NUM_SHARDS
  }

  predicate SameDirection(m: FlowPacketMeta, n: FlowPacketMeta) {
    m.srcIp == n.srcIp && m.srcPort == n.srcPort && m.dstIp == n.dstIp && m.dstPort == n.dstPort
  }

  predicate Opposite(m: FlowPacketMeta, n: FlowPacketMeta) {
    m.srcIp == n.dstIp && m.srcPort == n.dstPort && m.dstIp == n.srcIp && m.dstPort == n.srcPort
  }

  /** The packet was sent from the key's lower end. */
  predicate FromLowerEnd(m: FlowPacketMeta, k: FlowKey) {
    m.srcIp == k.ipLo && m.srcPort == k.portLo
  }

  /** A key's first end is its lower one, by address and then by port; its two ends are
      those of the packet; and a packet counts as forward exactly when it comes from the
      first. */
  lemma KeyIsOrdered(m: FlowPacketMeta)
    ensures var k := KeyOf(m);
            && (k.ipLo < k.ipHi || (k.ipLo == k.ipHi && k.portLo <= k.portHi))
            && {(k.ipLo, k.portLo), (k.ipHi, k.portHi)} == {(m.srcIp, m.srcPort), (m.dstIp, m.dstPort)}
            && k.protocol == m.protocol
            && (SrcIsLo(m) <==> FromLowerEnd(m, k))
  {
  }

  /** Two packets share a key exactly when they are of one protocol and between the same
      two endpoints; they are counted in the same direction unless they are opposite. */
  lemma SameKeyIffSameConversation(m: FlowPacketMeta, n: FlowPacketMeta)
    ensures KeyOf(m) == KeyOf(n) <==> m.protocol == n.protocol && (SameDirection(m, n) || Opposite(m, n))
    ensures KeyOf(m) == KeyOf(n) && SrcIsLo(m) == SrcIsLo(n) ==> SameDirection(m, n)
    ensures KeyOf(m) == KeyOf(n) && SrcIsLo(m) != SrcIsLo(n) ==> Opposite(m, n) && !SameDirection(m, n)
  {
  }

  /** The `n` lowest bits. */
  function Low(x: nat, n: nat): nat {
    if n == 0 then 0 else x % 2 + 2 * Low(x / 2, n - 1)
  }

  lemma LowFourIsModSixteen(x: nat)
    ensures Low(x, 4) == x % 16
  {
    assert Low(x, 4) == x % 2 + 2 * Low(x / 2, 3);
    assert Low(x / 2, 3) == (x / 2) % 2 + 2 * Low(x / 4, 2) by { assert x / 2 / 2 == x / 4; }
    assert Low(x / 4, 2) == (x / 4) % 2 + 2 * Low(x / 8, 1) by { assert x / 4 / 2 == x / 8; }
    assert Low(x / 8, 1) == (x / 8) % 2 + 2 * Low(x / 8 / 2, 0);
  }

  lemma Halves(bit: nat, x: nat)
    requires bit < 2
    ensures (bit + 2 * x) % 2 == bit && (bit + 2 * x) / 2 == x
  {
  }

  lemma XorHalves(a: nat, b: nat)
    ensures Xor(a, b) % 2 == (a % 2 + b % 2) % 2
    ensures Xor(a, b) / 2 == Xor(a / 2, b / 2)
  {
    if a != 0 || b != 0 {
      Halves((a + b) % 2, Xor(a / 2, b / 2));
    }
  }

  lemma {:induction false} LowOfXor(a: nat, a': nat, b: nat, b': nat, n: nat)
    requires Low(a, n) == Low(a', n) && Low(b, n) == Low(b', n)
    ensures Low(Xor(a, b), n) == Low(Xor(a', b'), n)
    decreases n
  {
    if n > 0 {
      LowHalves(a, a', n);
      LowHalves(b, b', n);
      XorHalves(a, b);
      XorHalves(a', b');
      LowOfXor(a / 2, a' / 2, b / 2, b' / 2, n - 1);
    }
  }

  lemma LowHalves(x: nat, y: nat, n: nat)
    requires n > 0 && Low(x, n) == Low(y, n)
    ensures x % 2 == y % 2 && Low(x / 2, n - 1) == Low(y / 2, n - 1)
  {
  }

  lemma MixedAlike(ips: nat, portLo: nat, portLo': nat, portHi: nat, protocol: nat)
    ensures Mixed(ips, portLo, portHi, protocol) % 16 == Mixed(ips, portLo', portHi, protocol) % 16
  {
    hide Xor, Low;
    var p, p' := portLo * 0x1_0000, portLo' * 0x1_0000;
    LowFourIsModSixteen(p);
    LowFourIsModSixteen(p');
    var x, x' := Xor(ips, p), Xor(ips, p');
    LowOfXor(ips, ips, p, p', 4);
    var y, y' := Xor(x, portHi), Xor(x', portHi);
    LowOfXor(x, x', portHi, portHi, 4);
    LowOfXor(y, y', protocol, protocol, 4);
    LowFourIsModSixteen(Xor(y, protocol));
    LowFourIsModSixteen(Xor(y', protocol));
  }

  /** Only the low four bits of the hash pick a shard, so the port of the lower endpoint,
      shifted past them, never does: all its flows to one service share one shard. */
  lemma {:induction false} ShardIgnoresLowerPort(k: FlowKey, port: u16)
    ensures ShardIndex(k.(portLo := port)) == ShardIndex(k)
  {
    hide Mixed, IpHash;
    MixedAlike(IpHash(k.ipLo, k.ipHi), k.portLo, port, k.portHi, k.protocol);
  }

  lemma LowOfNibble(x: nat)
    ensures Low(x % 16, 4) == Low(x, 4)
  {
    hide Low;
    LowFourIsModSixteen(x);
    LowFourIsModSixteen(x % 16);
  }

  lemma WrappedProduct(x: u32, c: u32, low: nat)
    requires c % 16 == low
    ensures Mul32(x, c) % 16 == (low * x) % 16
  {
    var high := c / 16;
    assert x as int * c == 16 * (high * x) + low * x;
    SameRemainder(low * x, high * x);
    WrapKeepsNibble(x as int * c);
  }

  lemma SameRemainder(x: nat, k: nat)
    ensures (16 * k + x) % 16 == x % 16
  {
  }

  lemma WrapKeepsNibble(x: nat)
    ensures (x % 0x1_0000_0000) % 16 == x % 16
  {
  }

  /** The multiplier of the source hash is one modulo 16, so a source's shard is the last
      four bits of its address. */
  lemma {:induction false} SourceShardIsTheLastNibble(ip: u32)
    ensures SrcShardIndex(ip) == ip % 16
  {
    WrappedProduct(ip, 2654435761, 1);
  }

  lemma LowOfProduct(x: u32, c: u32, low: nat)
    requires c % 16 == low
    ensures Low(Mul32(x, c), 4) == Low((low * x) % 16, 4)
  {
    WrappedProduct(x, c, low);
    hide Low, Mul32;
    LowFourIsModSixteen(Mul32(x, c));
    LowOfNibble(low * x);
    LowFourIsModSixteen(low * x);
  }

  lemma IpHashNibble(ipLo: u32, ipHi: u32)
    ensures Low(IpHash(ipLo, ipHi), 4) == Low(Xor(ipLo % 16, (7 * ipHi) % 16), 4)
  {
    hide Xor, Low, Mul32;
    LowOfProduct(ipLo, 2654435761, 1);
    LowOfProduct(ipHi, 40503, 7);
    LowOfXor(Mul32(ipLo, 2654435761), ipLo % 16, Mul32(ipHi, 40503), (7 * ipHi) % 16, 4);
  }

  lemma MixedNibble(ips: nat, ips': nat, portLo: nat, portHi: nat, protocol: nat)
    requires Low(ips, 4) == Low(ips', 4)
    ensures Mixed(ips, portLo, portHi, protocol) % 16 == Xor(Xor(ips', portHi % 16), protocol % 16) % 16
  {
    hide Xor, Low;
    var p, h, r := portLo * 0x1_0000, portHi % 16, protocol % 16;
    var x := Xor(ips, p);
    SameLow(p, 0);
    SameLow(portHi, h);
    SameLow(protocol, r);
    LowOfXor(ips, ips', p, 0, 4);
    XorZero(ips');
    LowOfXor(x, ips', portHi, h, 4);
    LowOfXor(Xor(x, portHi), Xor(ips', h), protocol, r, 4);
    LowFourIsModSixteen(Xor(Xor(x, portHi), protocol));
    LowFourIsModSixteen(Xor(Xor(ips', h), r));
  }

  /** The shard of a flow mixes the last four bits of the lower address, seven times the
      higher one, the higher port and the protocol, and nothing else. */
  lemma {:induction false} ShardIsFromLowNibbles(k: FlowKey)
    ensures ShardIndex(k)
            == Xor(Xor(Xor(k.ipLo % 16, (7 * k.ipHi) % 16), k.portHi % 16), k.protocol % 16) % 16
  {
    hide Xor, Low, Mixed, IpHash;
    IpHashNibble(k.ipLo, k.ipHi);
    MixedNibble(IpHash(k.ipLo, k.ipHi), Xor(k.ipLo % 16, (7 * k.ipHi) % 16), k.portLo, k.portHi, k.protocol);
  }

  lemma SameLow(x: nat, y: nat)
    requires x % 16 == y % 16
    ensures Low(x, 4) == Low(y, 4)
  {
    LowOfNibble(x);
    LowOfNibble(y);
  }

  lemma {:induction false} XorZero(x: nat)
    ensures Xor(x, 0) == x
  {
    if x > 0 {
      XorZero(x / 2);
    }
  }

  lemma {:induction false} XorSeparates(a: nat, b: nat, c: nat, n: nat)
    requires Low(Xor(a, b), n) == Low(Xor(a, c), n)
    ensures Low(b, n) == Low(c, n)
    decreases n
  {
    if n > 0 {
      XorHalves(a, b);
      XorHalves(a, c);
      LowHalves(Xor(a, b), Xor(a, c), n);
      XorSeparates(a / 2, b / 2, c / 2, n - 1);
      SameParity(a % 2, b % 2, c % 2);
    }
  }

  lemma SameParity(a: nat, b: nat, c: nat)
    requires a < 2 && b < 2 && c < 2 && (a + b) % 2 == (a + c) % 2
    ensures b == c
  {
  }

  lemma {:induction false} XorCommutes(a: nat, b: nat)
    ensures Xor(a, b) == Xor(b, a)
    decreases a + b
  {
    if a != 0 || b != 0 {
      XorCommutes(a / 2, b / 2);
    }
  }

  lemma MixedSeparates(ips: nat, portLo: nat, p: nat, q: nat, protocol: nat)
    ensures Mixed(ips, portLo, p, protocol) % 16 == Mixed(ips, portLo, q, protocol) % 16 <==> p % 16 == q % 16
  {
    hide Xor, Low;
    var x := Xor(ips, portLo * 0x1_0000);
    var y, z := Xor(x, p), Xor(x, q);
    LowFourIsModSixteen(Xor(y, protocol));
    LowFourIsModSixteen(Xor(z, protocol));
    LowFourIsModSixteen(p);
    LowFourIsModSixteen(q);
    if p % 16 == q % 16 {
      LowOfXor(x, x, p, q, 4);
      LowOfXor(y, z, protocol, protocol, 4);
    }
    if Low(Xor(y, protocol), 4) == Low(Xor(z, protocol), 4) {
      XorCommutes(y, protocol);
      XorCommutes(z, protocol);
      XorSeparates(protocol, y, z, 4);
      XorSeparates(x, p, q, 4);
    }
  }

  /** All else equal, flows whose higher ports differ in the last four bits are in
      different shards: sixteen consecutive ports use all sixteen shards. */
  lemma {:induction false} HigherPortSpreads(k: FlowKey, p: u16, q: u16)
    ensures ShardIndex(k.(portHi := p)) == ShardIndex(k.(portHi := q)) <==> p % 16 == q % 16
  {
    hide Mixed, IpHash;
    MixedSeparates(IpHash(k.ipLo, k.ipHi), k.portLo, p, q, k.protocol);
  }
}
