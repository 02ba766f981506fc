/** Machine words, byte order and the option type shared by every component.

    The words are subset types: a sum stored in a word-typed variable has to be
    proved to fit, which is how absence of wrap-around is shown for code that is
    compiled without overflow checks. */
module Words {
  type u8 = x: int | 0 <= x < 0x100
  type u16 = x: int | 0 <= x < 0x1_0000
  type u32 = x: int | 0 <= x < 0x1_0000_0000
  type u64 = x: int | 0 <= x < 0x1_0000_0000_0000_0000

  datatype Option<+T> = None | Some(value: T) {
    function UnwrapOr(default: T): T {
      if Some? then value else default
    }
  }

  function Min(a: int, b: int): int {
    if a <= b then a else b
  }

  /** A condition as a count. */
  function One(b: bool): nat {
    if b then 1 else 0
  }

  function Init<T>(s: seq<T>): seq<T>
    requires s != []
  {
    s[..|s| - 1]
  }

  function Last<T>(s: seq<T>): T
    requires s != []
  {
    s[|s| - 1]
  }

  /** `x & mask != 0` for a mask with a single bit set. */
  predicate HasBit(x: u8, mask: nat)
    requires mask > 0
  {
    (x / mask) % 2 == 1
  }

  function Be16(b: seq<u8>, at: nat): u16
    requires at + 2 <= |b|
  {
    b[at] as int * 0x100 + b[at + 1]
  }

  function Le16(b: seq<u8>, at: nat): u16
    requires at + 2 <= |b|
  {
    b[at] + b[at + 1] as int * 0x100
  }

  function Be32(b: seq<u8>, at: nat): u32
    requires at + 4 <= |b|
  {
    b[at] as int * 0x100_0000 + b[at + 1] as int * 0x1_0000 + b[at + 2] as int * 0x100 + b[at + 3]
  }

  function Le32(b: seq<u8>, at: nat): u32
    requires at + 4 <= |b|
  {
    b[at] + b[at + 1] as int * 0x100 + b[at + 2] as int * 0x1_0000 + b[at + 3] as int * 0x100_0000
  }

  function Le64(b: seq<u8>, at: nat): u64
    requires at + 8 <= |b|
  {
    Le32(b, at) + Le32(b, at + 4) * 0x1_0000_0000
  }

  function Be16Bytes(x: u16): (b: seq<u8>)
    ensures |b| == 2
  {
    [x / 0x100, x % 0x100]
  }

  function Le16Bytes(x: u16): (b: seq<u8>)
    ensures |b| == 2
  {
    [x % 0x100, x / 0x100]
  }

  function Be32Bytes(x: u32): (b: seq<u8>)
    ensures |b| == 4
  {
    [x / 0x100_0000, (x / 0x1_0000) % 0x100, (x / 0x100) % 0x100, x % 0x100]
  }

  function Le32Bytes(x: u32): (b: seq<u8>)
    ensures |b| == 4
  {
    [x % 0x100, (x / 0x100) % 0x100, (x / 0x1_0000) % 0x100, x / 0x100_0000]
  }

  function Le64Bytes(x: u64): (b: seq<u8>)
    ensures |b| == 8
  {
    Le32Bytes(x % 0x1_0000_0000) + Le32Bytes(x / 0x1_0000_0000)
  }

  /** The network-order value of a word that a little-endian host loaded straight
      from network-order memory. */
  function NetworkValue(raw: u32): u32 {
    Be32(Le32Bytes(raw), 0)
  }

  lemma Le32RoundTrip(b: seq<u8>, at: nat)
    requires at + 4 <= |b|
    ensures Le32Bytes(Le32(b, at)) == b[at..at + 4]
  {
    var b0, b1, b2, b3 := b[at], b[at + 1], b[at + 2], b[at + 3];
    Le32Digits(b0, b1, b2, b3);
    assert b[at..at + 4] == [b0, b1, b2, b3];
  }

  lemma Le32Digits(b0: u8, b1: u8, b2: u8, b3: u8)
    ensures var x := b0 + b1 as int * 0x100 + b2 as int * 0x1_0000 + b3 as int * 0x100_0000;
            x % 0x100 == b0 && (x / 0x100) % 0x100 == b1 && (x / 0x1_0000) % 0x100 == b2 && x / 0x100_0000 == b3
  {
    var x := b0 + b1 as int * 0x100 + b2 as int * 0x1_0000 + b3 as int * 0x100_0000;
    assert x / 0x100 == b1 + b2 as int * 0x100 + b3 as int * 0x1_0000;
    assert x / 0x1_0000 == b2 + b3 as int * 0x100;
  }

  lemma Be32RoundTrip(b: seq<u8>, at: nat)
    requires at + 4 <= |b|
    ensures Be32Bytes(Be32(b, at)) == b[at..at + 4]
  {
    var x := Be32(b, at);
    assert x / 0x100_0000 == b[at];
    assert x / 0x1_0000 == b[at] as int * 0x100 + b[at + 1];
    assert x / 0x100 == b[at] as int * 0x1_0000 + b[at + 1] as int * 0x100 + b[at + 2];
  }

  lemma Le32Inverse(x: u32)
    ensures Le32(Le32Bytes(x), 0) == x
  {
    assert x / 0x1_0000 == (x / 0x100) / 0x100;
    assert x / 0x100_0000 == (x / 0x1_0000) / 0x100;
  }

  lemma Be32Inverse(x: u32)
    ensures Be32(Be32Bytes(x), 0) == x
  {
    assert x / 0x1_0000 == (x / 0x100) / 0x100;
    assert x / 0x100_0000 == (x / 0x1_0000) / 0x100;
  }

  lemma Le64Inverse(x: u64)
    ensures Le64(Le64Bytes(x), 0) == x
  {
    var lo, hi := x % 0x1_0000_0000, x / 0x1_0000_0000;
    Le32Inverse(lo);
    Le32Inverse(hi);
    var b := Le64Bytes(x);
    assert b[..4] == Le32Bytes(lo) && b[4..] == Le32Bytes(hi);
    assert Le32(b, 0) == Le32(b[..4], 0) && Le32(b, 4) == Le32(b[4..], 0);
  }

  /** Loading the same four bytes in host order and converting gives their
      network-order value. */
  lemma NetworkValueOfLoad(b: seq<u8>, at: nat)
    requires at + 4 <= |b|
    ensures NetworkValue(Le32(b, at)) == Be32(b, at)
  {
    Le32RoundTrip(b, at);
    assert Be32(b[at..at + 4], 0) == Be32(b, at);
  }
}
