/** The packet cursor every header parser reads through. */
module PacketCursor {
  import opened Words

  /** No packet buffer lies this close to the top of the address space; the largest
      single request, an IPv6 extension header, is 2048 bytes. */
  const ADDRESS_CEILING: nat := 0xFFFF_FFFF_FFFF_F000
  const MAX_REQUEST: nat := 2048

  class Cursor {
    const packet: seq<u8>
    const start: u64
    const end: u64
    var offset: u64

    ghost predicate Valid()
      reads this
    {
      && start as int + |packet| == end
      && end <= ADDRESS_CEILING
      && offset <= |packet|
    }

    constructor (packet: seq<u8>, start: u64)
      requires start as int + |packet| <= ADDRESS_CEILING
      ensures Valid()
      ensures this.packet == packet && offset == 0
    {
      this.packet := packet;
      this.start := start;
      this.end := start + |packet|;
      this.offset := 0;
    }

    /** Reads a structure of `size` bytes: exactly the next `size` bytes of the
        packet, or nothing when they are not all there. */
    method Read(size: u64) returns (r: Option<seq<u8>>)
      requires Valid() && size <= MAX_REQUEST
      modifies this
      ensures Valid()
      ensures r.Some? <==> old(offset) as int + size <= |packet|
      ensures offset as int == if r.Some? then old(offset) as int + size else old(offset)
      ensures r.Some? ==> r.value == packet[old(offset)..offset]
    {
      var target: u64 := start + offset;
      var limit: u64 := target + size;
      if limit > end {
        return None;
      }
      offset := offset + size;
      r := Some(packet[target - start..limit - start]);
    }

    /** Skips `bytes` bytes without reading them. */
    method Advance(bytes: u64) returns (ok: bool)
      requires Valid() && bytes <= MAX_REQUEST
      modifies this
      ensures Valid()
      ensures ok <==> old(offset) as int + bytes <= |packet|
      ensures offset as int == if ok then old(offset) as int + bytes else old(offset)
    {
      var target: u64 := start + offset;
      var limit: u64 := target + bytes;
      if limit > end {
        return false;
      }
      offset := offset + bytes;
      return true;
    }
  }
}
