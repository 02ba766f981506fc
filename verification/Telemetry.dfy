/** The 24-byte telemetry record: how the kernel lays it out, how the control plane
    decodes it, and the codes both sides share. */
module Telemetry {
  import opened Words

  datatype Action = Drop | Pass | WouldDrop

  function ActionCode(a: Action): u8 {
    match a
    case Drop => 1
    case Pass => 2
    case WouldDrop => 5
  }

  datatype DropReason =
    | NoReason
    | EthParseFailed | Ipv4ParseFailed | TcpParseFailed | UdpParseFailed | ArpParseFailed
    | RfcLandAttack | RfcNullScan | RfcSynFin | RfcXmasScan | BlacklistHit
    | PortBlocked | RateLimited

  function ReasonCode(r: DropReason): u8 {
    match r
    case NoReason => 0
    case EthParseFailed => 1
    case Ipv4ParseFailed => 2
    case TcpParseFailed => 3
    case UdpParseFailed => 4
    case ArpParseFailed => 5
    case RfcLandAttack => 10
    case RfcNullScan => 11
    case RfcSynFin => 12
    case RfcXmasScan => 13
    case BlacklistHit => 14
    case PortBlocked => 20
    case RateLimited => 21
  }

  /** Log severity, from Debug = 1 to Error = 4, by range of the reason code. */
  function Severity(r: DropReason): u32 {
    var c := ReasonCode(r);
    if 1 <= c <= 9 then 4 else if 10 <= c <= 19 then 3 else if 20 <= c <= 29 then 2 else 1
  }

  datatype FlowPacketMeta = FlowPacketMeta(
    srcIp: u32, dstIp: u32, srcPort: u16, dstPort: u16,
    protocol: u8, tcpFlags: u8, action: u8, dropReason: u8, timestampNs: u64)

  /** The record as it lies in the memory of a little-endian host. */
  function KernelBytes(m: FlowPacketMeta): (b: seq<u8>)
    ensures |b| == 24
  {
    Le32Bytes(m.srcIp) + Le32Bytes(m.dstIp) + Le16Bytes(m.srcPort) + Le16Bytes(m.dstPort)
    + [m.protocol, m.tcpFlags, m.action, m.dropReason] + Le64Bytes(m.timestampNs)
  }

  /** The record the control plane reads out of a frame. */
  function Decoded(data: seq<u8>): FlowPacketMeta
    requires |data| >= 24
  {
    FlowPacketMeta(Be32(data, 0), Be32(data, 4), Le16(data, 8), Le16(data, 10),
                   data[12], data[13], data[14], data[15], Le64(data, 16))
  }

  /** The control plane's receiver struct, refilled for every frame. */
  class PacketMeta {
    var srcIp: u32
    var dstIp: u32
    var srcPort: u16
    var dstPort: u16
    var protocol: u8
    var tcpFlags: u8
    var action: u8
    var dropReason: u8
    var timestampNs: u64

    constructor ()
      ensures View() == FlowPacketMeta(0, 0, 0, 0, 0, 0, 0, 0, 0)
    {
      srcIp, dstIp, srcPort, dstPort := 0, 0, 0, 0;
      protocol, tcpFlags, action, dropReason, timestampNs := 0, 0, 0, 0, 0;
    }

    function View(): FlowPacketMeta
      reads this
    {
      FlowPacketMeta(srcIp, dstIp, srcPort, dstPort, protocol, tcpFlags, action, dropReason, timestampNs)
    }

    /** A frame that is too short leaves the record of the previous frame in place. */
    method UnmarshalBinary(data: seq<u8>) returns (ok: bool)
      modifies this
      ensures ok == (|data| >= 24)
      ensures View() == if |data| >= 24 then Decoded(data) else old(View())
    {
      if |data| < 24 {
        return false;
      }
      srcIp := Be32(data, 0);
      dstIp := Be32(data, 4);
      srcPort := Le16(data, 8);
      dstPort := Le16(data, 10);
      protocol := data[12];
      tcpFlags := data[13];
      action := data[14];
      dropReason := data[15];
      timestampNs := Le64(data, 16);
      return true;
    }
  }

  /** The layout, offset by offset. */
  lemma KernelLayout(m: FlowPacketMeta, extra: seq<u8>)
    ensures var b := KernelBytes(m) + extra;
            && b[0..4] == Le32Bytes(m.srcIp) && b[4..8] == Le32Bytes(m.dstIp)
            && b[8..10] == Le16Bytes(m.srcPort) && b[10..12] == Le16Bytes(m.dstPort)
            && b[12] == m.protocol && b[13] == m.tcpFlags && b[14] == m.action && b[15] == m.dropReason
            && b[16..24] == Le64Bytes(m.timestampNs)
  {
  }

  lemma WordsOfSlices(b: seq<u8>)
    requires |b| >= 24
    ensures Be32(b, 0) == Be32(b[0..4], 0) && Be32(b, 4) == Be32(b[4..8], 0)
    ensures Le16(b, 8) == Le16(b[8..10], 0) && Le16(b, 10) == Le16(b[10..12], 0)
    ensures Le64(b, 16) == Le64(b[16..24], 0)
  {
  }

  lemma Le16Inverse(x: u16)
    ensures Le16(Le16Bytes(x), 0) == x
  {
  }

  /** Decoding undoes the kernel's layout: every field comes back, with the two
      addresses, which the kernel never byte-swaps, in network order. Bytes behind the
      record are ignored. */
  lemma DecodeOfKernelBytes(m: FlowPacketMeta, extra: seq<u8>)
    ensures Decoded(KernelBytes(m) + extra)
            == m.(srcIp := NetworkValue(m.srcIp), dstIp := NetworkValue(m.dstIp))
  {
    hide KernelBytes, Be32, Le16, Le32, Le64, Le64Bytes, Le16Bytes, Le32Bytes;
    KernelLayout(m, extra);
    WordsOfSlices(KernelBytes(m) + extra);
    Le16Inverse(m.srcPort);
    Le16Inverse(m.dstPort);
    Le64Inverse(m.timestampNs);
  }
}
