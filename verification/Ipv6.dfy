/** The IPv6 header parser with its bounded walk over extension headers. */
module Ipv6Parser {
  import opened Words
  import opened PacketCursor
  import opened Parsers

  const MAX_EXTENSIONS: nat := 4
  const FRAGMENT_HEADER: u8 := 44

  datatype L3Ipv6Info = L3Ipv6Info(srcIp: seq<u8>, dstIp: seq<u8>, nextProto: u8, payloadLen: u16)

  predicate IsOptions(proto: u8) {
    proto == 0 || proto == 43 || proto == 60
  }

  predicate IsExtension(proto: u8) {
    IsOptions(proto) || proto == FRAGMENT_HEADER
  }

  /** Bytes of the extension header of type `proto` at `at`. */
  function ExtensionSize(p: seq<u8>, at: nat, proto: u8): nat
    requires at + 2 <= |p|
  {
    if proto == FRAGMENT_HEADER then 8 else 8 * (p[at + 1] as int + 1)
  }

  /** The protocol behind at most `steps` extension headers, and where it starts. */
  function Walk(p: seq<u8>, at: nat, proto: u8, steps: nat): Option<Parsed<u8>>
    decreases steps
  {
    if steps == 0 || !IsExtension(proto) then Some(Parsed(proto, at))
    else if |p| < at + 2 || |p| < at + ExtensionSize(p, at, proto) then None
    else Walk(p, at + ExtensionSize(p, at, proto), p[at], steps - 1)
  }

  function Ipv6(p: seq<u8>, at: nat): Option<Parsed<L3Ipv6Info>> {
    if |p| < at + 40 then None
    else
      match Walk(p, at + 40, p[at + 6], MAX_EXTENSIONS)
      case None => None
      case Some(w) => Some(Parsed(L3Ipv6Info(p[at + 8..at + 24], p[at + 24..at + 40], w.value, Be16(p, at + 4)), w.next))
  }

  lemma WalkStep(p: seq<u8>, at: nat, proto: u8, steps: nat)
    ensures steps == 0 || !IsExtension(proto) ==> Walk(p, at, proto, steps) == Some(Parsed(proto, at))
    ensures steps > 0 && IsExtension(proto) ==>
              Walk(p, at, proto, steps)
              == if |p| < at + 2 || |p| < at + ExtensionSize(p, at, proto) then None
                 else Walk(p, at + ExtensionSize(p, at, proto), p[at], steps - 1)
  {
  }

  lemma SliceOfSlice(p: seq<u8>, at: nat, n: nat, i: nat, j: nat)
    requires i <= j <= n && at + n <= |p|
    ensures p[at..at + n][i..j] == p[at + i..at + j]
  {
    var s := p[at..at + n];
    forall k | 0 <= k < j - i ensures s[i..j][k] == p[at + i..at + j][k] {
      assert s[i + k] == p[at + (i + k)];
    }
  }

  method ParseIpv6(c: Cursor) returns (r: Option<L3Ipv6Info>)
    requires c.Valid()
    modifies c
    ensures Reads(c, r, Ipv6(c.packet, old(c.offset)))
  {
    hide Walk;
    ghost var at := c.offset as int;
    var ip6 := c.Read(40);
    if ip6.None? {
      return None;
    }
    var hdr := ip6.value;
    var nextProto := hdr[6];
    var i := 0;
    while i < 4
      invariant 0 <= i <= 4
      invariant c.Valid() && |c.packet| >= at + 40 && hdr == c.packet[at..at + 40]
      invariant Walk(c.packet, at + 40, hdr[6], MAX_EXTENSIONS) == Walk(c.packet, c.offset, nextProto, 4 - i)
    {
      ghost var from, proto := c.offset as int, nextProto;
      WalkStep(c.packet, from, proto, 4 - i);
      if nextProto == 0 || nextProto == 43 || nextProto == 60 {
        var ext := c.Read(2);
        if ext.None? {
          return None;
        }
        nextProto := ext.value[0];
        assert nextProto == c.packet[from] && ext.value[1] == c.packet[from + 1];
        var extLen: u64 := (ext.value[1] as int + 1) * 8;
        if extLen > 2 {
          var ok := c.Advance(extLen - 2);
          if !ok {
            return None;
          }
        }
      } else if nextProto == 44 {
        var ext := c.Read(2);
        if ext.None? {
          return None;
        }
        nextProto := ext.value[0];
        assert nextProto == c.packet[from];
        var ok := c.Advance(6);
        if !ok {
          return None;
        }
      } else {
        break;
      }
      assert c.offset == from + ExtensionSize(c.packet, from, proto);
      i := i + 1;
    }
    WalkStep(c.packet, c.offset, nextProto, 4 - i);
    SliceOfSlice(c.packet, at, 40, 8, 24);
    SliceOfSlice(c.packet, at, 40, 24, 40);
    assert Walk(c.packet, at + 40, c.packet[at + 6], MAX_EXTENSIONS) == Some(Parsed(nextProto, c.offset));
    assert Be16(hdr, 4) == Be16(c.packet, at + 4);
    r := Some(L3Ipv6Info(hdr[8..24], hdr[24..40], nextProto, Be16(hdr, 4)));
  }

  /** An extension header as a sender writes it: its own type, its length byte, and
      what follows its first two bytes. */
  datatype Extension = Extension(proto: u8, lengthByte: u8, body: seq<u8>)

  predicate Wellformed(e: Extension) {
    IsExtension(e.proto) &&
    |e.body| == if e.proto == FRAGMENT_HEADER then 6 else 8 * (e.lengthByte as int + 1) - 2
  }

  function FirstProto(chain: seq<Extension>, last: u8): u8 {
    if chain == [] then last else chain[0].proto
  }

  function EncodeChain(chain: seq<Extension>, last: u8): seq<u8> {
    if chain == [] then []
    else [FirstProto(chain[1..], last), chain[0].lengthByte] + chain[0].body + EncodeChain(chain[1..], last)
  }

  /** Bytes a chain takes up. */
  function Span(chain: seq<Extension>): nat {
    if chain == [] then 0 else 2 + |chain[0].body| + Span(chain[1..])
  }

  /** Walking a chain that a sender wrote skips exactly its first `steps` headers:
      all of it when it is short enough and ends in a protocol that is no extension. */
  lemma {:induction false} WalkOfEncodedChain(before: seq<u8>, chain: seq<Extension>, last: u8, payload: seq<u8>, steps: nat)
    requires forall e <- chain :: Wellformed(e)
    requires !IsExtension(last)
    ensures var skipped := if |chain| <= steps then chain else chain[..steps];
            var left := if |chain| <= steps then [] else chain[steps..];
            Walk(before + EncodeChain(chain, last) + payload, |before|, FirstProto(chain, last), steps)
            == Some(Parsed(FirstProto(left, last), |before| + Span(skipped)))
    decreases steps
  {
    var p := before + EncodeChain(chain, last) + payload;
    if steps > 0 && chain != [] {
      var e, rest := chain[0], chain[1..];
      var head := [FirstProto(rest, last), e.lengthByte] + e.body;
      assert Wellformed(e);
      assert p[|before|] == head[0] && p[|before| + 1] == head[1];
      assert ExtensionSize(p, |before|, e.proto) == |head|;
      assert p == (before + head) + EncodeChain(rest, last) + payload;
      WalkOfEncodedChain(before + head, rest, last, payload, steps - 1);
      if |chain| > steps {
        assert chain[steps..] == rest[steps - 1..] && chain[..steps][1..] == rest[..steps - 1];
      }
    } else if chain != [] {
      assert chain[0..] == chain;
    }
  }

  /** One extension header takes whole eight-byte units, at most 256 of them. */
  lemma ExtensionUnits(p: seq<u8>, at: nat, proto: u8)
    requires at + 2 <= |p|
    ensures var n := ExtensionSize(p, at, proto); 8 <= n <= 2048 && n % 8 == 0
  {
  }

  /** A successful walk stays inside the packet and advances by whole eight-byte units. */
  lemma {:induction false} WalkStaysInside(p: seq<u8>, at: nat, proto: u8, steps: nat)
    requires at <= |p|
    ensures var w := Walk(p, at, proto, steps);
            w.Some? ==>
              && at <= w.value.next <= |p| && (w.value.next - at) % 8 == 0
              && w.value.next - at <= 2048 * steps
              && (w.value.next - at < 8 * steps ==> !IsExtension(w.value.value))
    decreases steps
  {
    if steps > 0 && IsExtension(proto) && |p| >= at + 2 && |p| >= at + ExtensionSize(p, at, proto) {
      ExtensionUnits(p, at, proto);
      hide ExtensionSize;
      WalkStaysInside(p, at + ExtensionSize(p, at, proto), p[at], steps - 1);
    }
  }
}
