/** The kernel's longest-prefix-match table of blocked addresses, and the keys the
    control plane writes into it. Addresses are network-order values. */
module Reputation {
  import opened Words

  const BLOCK: u32 := 1

  /** `x >> n`. */
  function ShiftRight(x: nat, n: nat): nat {
    if n == 0 then x else ShiftRight(x / 2, n - 1)
  }

  /** The leading `len` bits of an address. */
  function Top(addr: u32, len: nat): nat
    requires len <= 32
  {
    ShiftRight(addr, 32 - len)
  }

  /** A trie node: a length and that many leading bits. */
  datatype Prefix = Prefix(len: nat, top: nat)

  predicate Inside(addr: u32, p: Prefix) {
    p.len <= 32 && Top(addr, p.len) == p.top
  }

  function Host(addr: u32): Prefix {
    Prefix(32, addr)
  }

  /** The key structure handed to the kernel; its address may keep host bits. */
  datatype LpmKey = LpmKey(prefixLen: nat, addr: seq<u8>)

  predicate KeyFits(k: LpmKey) {
    k.prefixLen <= 32 && |k.addr| == 4
  }

  /** The node a key names: the trie compares only the leading `prefixLen` bits. */
  function NodeOf(k: LpmKey): Prefix
    requires KeyFits(k)
  {
    Prefix(k.prefixLen, Top(Be32(k.addr, 0), k.prefixLen))
  }

  type Table = map<Prefix, u32>

  predicate WellFormed(t: Table) {
    forall p <- t :: p.len <= 32
  }

  predicate OnlyBlocks(t: Table) {
    forall p <- t :: t[p] == BLOCK
  }

  /** Longest match among the nodes of length at most `len`. */
  function MatchUpTo(t: Table, addr: u32, len: nat): Option<Prefix>
    requires len <= 32
  {
    var p := Prefix(len, Top(addr, len));
    if p in t then Some(p)
    else if len == 0 then None
    else MatchUpTo(t, addr, len - 1)
  }

  function Lookup(t: Table, addr: u32): Option<u32> {
    match MatchUpTo(t, addr, 32)
    case Some(p) => if p in t then Some(t[p]) else None
    case None => None
  }

  lemma {:induction false} MatchUpToIsLongest(t: Table, addr: u32, len: nat)
    requires len <= 32
    ensures MatchUpTo(t, addr, len).None? <==>
            forall p <- t :: p.len <= len ==> !Inside(addr, p)
    ensures var r := MatchUpTo(t, addr, len);
            r.Some? ==> r.value in t && Inside(addr, r.value) && r.value.len <= len &&
                        forall p <- t :: p.len <= len && Inside(addr, p) ==> p.len <= r.value.len
  {
    var here := Prefix(len, Top(addr, len));
    if here in t {
      assert Inside(addr, here);
    } else {
      forall p | p in t && p.len == len ensures !Inside(addr, p) {
        assert p != here;
      }
      if len > 0 {
        MatchUpToIsLongest(t, addr, len - 1);
      }
    }
  }

  /** The lookup finds the longest stored prefix around an address, and fails only
      when no stored prefix is around it. */
  lemma LookupIsLongestMatch(t: Table, addr: u32)
    requires WellFormed(t)
    ensures Lookup(t, addr).None? <==> forall p <- t :: !Inside(addr, p)
    ensures Lookup(t, addr).Some? ==>
              exists p <- t :: Inside(addr, p) && Lookup(t, addr).value == t[p] &&
                               forall q <- t :: Inside(addr, q) ==> q.len <= p.len
  {
    MatchUpToIsLongest(t, addr, 32);
    if Lookup(t, addr).Some? {
      var p := MatchUpTo(t, addr, 32).value;
      assert p in t && Inside(addr, p);
    }
  }

  /** While only the block value is ever written, a source is blocked exactly when
      some stored prefix is around it. */
  lemma BlockedIffInsideAStoredPrefix(t: Table, addr: u32)
    requires WellFormed(t) && OnlyBlocks(t)
    ensures Lookup(t, addr) == Some(BLOCK) <==> exists p <- t :: Inside(addr, p)
  {
    LookupIsLongestMatch(t, addr);
  }

  /** `x << n`. */
  function ShiftLeft(x: nat, n: nat): nat {
    if n == 0 then x else 2 * ShiftLeft(x, n - 1)
  }

  lemma {:induction false} ShiftsCancel(x: nat, n: nat)
    ensures ShiftRight(ShiftLeft(x, n), n) == x
  {
    if n > 0 {
      ShiftsCancel(x, n - 1);
    }
  }

  lemma {:induction false} ShiftingBackClearsLowBits(x: nat, n: nat)
    ensures ShiftLeft(ShiftRight(x, n), n) <= x < ShiftLeft(ShiftRight(x, n), n) + ShiftLeft(1, n)
  {
    if n > 0 {
      ShiftingBackClearsLowBits(x / 2, n - 1);
    }
  }

  /** The address with its host bits cleared: a multiple of the block size `2^(32 - len)`,
      less than one block below the address. */
  function Network(addr: u32, len: nat): (r: u32)
    requires len <= 32
    ensures r <= addr < r + ShiftLeft(1, 32 - len)
  {
    ShiftingBackClearsLowBits(addr, 32 - len);
    ShiftLeft(Top(addr, len), 32 - len)
  }

  lemma {:induction false} TopOfNetwork(addr: u32, len: nat)
    requires len <= 32
    ensures Top(Network(addr, len), len) == Top(addr, len)
  {
    ShiftsCancel(Top(addr, len), 32 - len);
  }

  /** Host bits left in a key do not matter: clearing them leaves its node as it is, two
      keys name one node exactly when they agree in length and network, and the node is
      around exactly the addresses of that network. */
  lemma {:induction false} NodeIgnoresHostBits(k: LpmKey, j: LpmKey, addr: u32)
    requires KeyFits(k) && KeyFits(j)
    ensures NodeOf(k.(addr := Be32Bytes(Network(Be32(k.addr, 0), k.prefixLen)))) == NodeOf(k)
    ensures NodeOf(k) == NodeOf(j) <==>
            k.prefixLen == j.prefixLen && Network(Be32(k.addr, 0), k.prefixLen) == Network(Be32(j.addr, 0), k.prefixLen)
    ensures Inside(addr, NodeOf(k)) <==> Network(addr, k.prefixLen) == Network(Be32(k.addr, 0), k.prefixLen)
  {
    var a, b := Be32(k.addr, 0), Be32(j.addr, 0);
    Be32Inverse(Network(a, k.prefixLen));
    TopOfNetwork(a, k.prefixLen);
    TopOfNetwork(b, k.prefixLen);
    TopOfNetwork(addr, k.prefixLen);
  }

  lemma {:induction false} SameLeadingBits(x: nat, y: nat, n: nat)
    ensures ShiftRight(x, n) == ShiftRight(y, n) <==>
            ShiftLeft(ShiftRight(y, n), n) <= x < ShiftLeft(ShiftRight(y, n), n) + ShiftLeft(1, n)
  {
    if n > 0 {
      SameLeadingBits(x / 2, y / 2, n - 1);
    }
  }

  /** The addresses from the network address on, as many as the host bits allow. */
  predicate InBlock(addr: u32, base: u32, len: nat) {
    len <= 32 && Network(base, len) <= addr < Network(base, len) + ShiftLeft(1, 32 - len)
  }

  lemma {:induction false} SameTopIsSameBlock(addr: u32, base: u32, len: nat)
    requires len <= 32
    ensures Top(addr, len) == Top(base, len) <==> InBlock(addr, base, len)
  {
    SameLeadingBits(addr, base, 32 - len);
  }

  /** How many addresses a block has: 2^24 for a /8, 256 for a /24, one for a /32. */
  lemma BlockSizes()
    ensures ShiftLeft(1, 32) == 0x1_0000_0000 && ShiftLeft(1, 24) == 0x100_0000
    ensures ShiftLeft(1, 8) == 0x100 && ShiftLeft(1, 0) == 1
  {
    ShiftedTwice(1, 8, 8);
    ShiftedTwice(1, 16, 8);
    ShiftedTwice(1, 24, 8);
    EightShifts(1);
    EightShifts(0x100);
    EightShifts(0x1_0000);
    EightShifts(0x100_0000);
  }

  lemma EightShifts(x: nat)
    ensures ShiftLeft(x, 8) == 0x100 * x
  {
    FourShifts(x);
    FourShifts(16 * x);
    ShiftedTwice(x, 4, 4);
  }

  lemma FourShifts(x: nat)
    ensures ShiftLeft(x, 4) == 16 * x
  {
    assert ShiftLeft(x, 4) == 2 * ShiftLeft(x, 3) && ShiftLeft(x, 3) == 2 * ShiftLeft(x, 2);
    assert ShiftLeft(x, 2) == 2 * ShiftLeft(x, 1) && ShiftLeft(x, 1) == 2 * ShiftLeft(x, 0);
  }

  lemma {:induction false} ShiftedTwice(x: nat, m: nat, n: nat)
    ensures ShiftLeft(x, m + n) == ShiftLeft(ShiftLeft(x, m), n)
  {
    if n > 0 {
      ShiftedTwice(x, m, n - 1);
    }
  }

  lemma HostNode(addr: u32, other: u32)
    ensures Inside(other, Host(addr)) <==> other == addr
  {
  }

  /** The pinned kernel map: a foreign object, kept to what its calls can do. Every
      call may fail; `works` is the environment's choice. */
  class LpmTrie {
    var entries: Table

    constructor ()
      ensures entries == map[]
    {
      entries := map[];
    }

    method Put(key: LpmKey, value: u32, works: bool) returns (ok: bool)
      modifies this
      ensures ok == (works && KeyFits(key))
      ensures entries == if ok then old(entries)[NodeOf(key) := value] else old(entries)
    {
      ok := works && KeyFits(key);
      if ok {
        entries := entries[NodeOf(key) := value];
      }
    }

    /** `absent` reports the key-does-not-exist error, which is not a failure of the call. */
    method Delete(key: LpmKey, works: bool) returns (ok: bool, absent: bool)
      modifies this
      ensures ok == (works && KeyFits(key) && NodeOf(key) in old(entries))
      ensures absent == (works && KeyFits(key) && NodeOf(key) !in old(entries))
      ensures entries == if ok then old(entries) - {NodeOf(key)} else old(entries)
    {
      ok, absent := false, false;
      if works && KeyFits(key) {
        if NodeOf(key) in entries {
          ok, entries := true, entries - {NodeOf(key)};
        } else {
          absent := true;
        }
      }
    }
  }
}
