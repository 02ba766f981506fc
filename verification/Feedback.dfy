/** The feedback controller: alerts become timed /32 blocks, the janitor takes them back,
    and every kernel call may fail. */
module Feedback {
  import opened Words
  import opened Reputation

  /** Five minutes, in nanoseconds. */
  const BLOCK_TTL: nat := 300_000_000_000

  // ---- Kernel map access ----

  /** An address as the control plane's parser delivers it: four bytes, or IPv6 only. */
  datatype IpAddress = V4(bytes: seq<u8>) | V6

  /** A block target: an address with a mask length, a bare address, or neither. */
  datatype Target = Cidr(ip: IpAddress, ones: nat) | Bare(ip: IpAddress) | Unparseable

  predicate FourBytes(ip: IpAddress) {
    ip.V4? && |ip.bytes| == 4
  }

  /** The trie key of a target. Host bits are kept. */
  function NewLpmKey(t: Target): Option<LpmKey> {
    match t
    case Cidr(ip, ones) => if FourBytes(ip) then Some(LpmKey(ones, ip.bytes)) else None
    case Bare(ip) => if FourBytes(ip) then Some(LpmKey(32, ip.bytes)) else None
    case Unparseable => None
  }

  class MapManager {
    const reputationMap: LpmTrie

    constructor (reputationMap: LpmTrie)
      ensures this.reputationMap == reputationMap
    {
      this.reputationMap := reputationMap;
    }

    method BlockIP(t: Target, works: bool) returns (ok: bool)
      modifies reputationMap
      ensures ok == (works && NewLpmKey(t).Some? && KeyFits(NewLpmKey(t).value))
      ensures reputationMap.entries
              == if ok then old(reputationMap.entries)[NodeOf(NewLpmKey(t).value) := BLOCK] else old(reputationMap.entries)
    {
      var key := NewLpmKey(t);
      if key.None? {
        return false;
      }
      ok := reputationMap.Put(key.value, BLOCK, works);
    }

    /** Removing what is not there counts as success. */
    method UnblockIP(t: Target, works: bool) returns (ok: bool)
      modifies reputationMap
      ensures ok == (works && NewLpmKey(t).Some? && KeyFits(NewLpmKey(t).value))
      ensures reputationMap.entries
              == if ok then old(reputationMap.entries) - {NodeOf(NewLpmKey(t).value)} else old(reputationMap.entries)
    {
      var key := NewLpmKey(t);
      if key.None? {
        return false;
      }
      var deleted, absent := reputationMap.Delete(key.value, works);
      if !deleted {
        if absent {
          return true;
        }
        return false;
      }
      return true;
    }
  }

  /** The /32 target of an address names that address alone. */
  lemma HostTarget(ip: u32)
    ensures var key := NewLpmKey(Cidr(V4(Be32Bytes(ip)), 32));
            key.Some? && KeyFits(key.value) && NodeOf(key.value) == Host(ip)
  {
    Be32Inverse(ip);
    assert Top(ip, 32) == ip;
  }

  /** A target that can be written into the trie. */
  predicate IsUsable(t: Target) {
    match t
    case Cidr(ip, ones) => FourBytes(ip) && ones <= 32
    case Bare(ip) => FourBytes(ip)
    case Unparseable => false
  }

  /** The addresses a target stands for: the network of a CIDR, or the bare address. */
  predicate Covers(t: Target, addr: u32) {
    match t
    case Cidr(ip, ones) => FourBytes(ip) && InBlock(addr, Be32(ip.bytes, 0), ones)
    case Bare(ip) => FourBytes(ip) && addr == Be32(ip.bytes, 0)
    case Unparseable => false
  }

  /** The entry of a target is around exactly the addresses the target stands for. */
  lemma {:induction false} EntryCoversTarget(t: Target, addr: u32)
    ensures NewLpmKey(t).Some? && KeyFits(NewLpmKey(t).value) <==> IsUsable(t)
    ensures IsUsable(t) ==> (Inside(addr, NodeOf(NewLpmKey(t).value)) <==> Covers(t, addr))
  {
    if IsUsable(t) {
      var key := NewLpmKey(t).value;
      SameTopIsSameBlock(addr, Be32(key.addr, 0), key.prefixLen);
      assert Top(addr, 32) == addr && Top(Be32(key.addr, 0), 32) == Be32(key.addr, 0);
    }
  }

  // ---- The registry and the kernel map as one value ----

  /** The block registry (address to expiry time) next to the kernel's table. */
  datatype Control = Control(blocked: map<u32, nat>, kernel: Table)

  datatype IPNet = Net4(addr: u32, ones: nat) | Net6

  predicate Contains(n: IPNet, ip: u32) {
    n.Net4? && n.ones <= 32 && Top(ip, n.ones) == Top(n.addr, n.ones)
  }

  /** A safe network holds exactly the addresses of its block; an IPv6 one holds none. */
  lemma {:induction false} SafeNetworksAreBlocks(n: IPNet, ip: u32)
    ensures Contains(n, ip) <==> n.Net4? && InBlock(ip, n.addr, n.ones)
  {
    if n.Net4? && n.ones <= 32 {
      SameTopIsSameBlock(ip, n.addr, n.ones);
    }
  }

  predicate InSafeNetwork(safe: seq<IPNet>, ip: u32) {
    exists n <- safe :: Contains(n, ip)
  }

  predicate IsLive(c: Control, ip: u32, now: nat) {
    ip in c.blocked && now < c.blocked[ip]
  }

  /** The alert reaches the kernel: its address parses, is in no safe network, and is not
      under a live block. */
  predicate Acts(c: Control, safe: seq<IPNet>, src: Option<u32>, now: nat) {
    src.Some? && !InSafeNetwork(safe, src.value) && !IsLive(c, src.value, now)
  }

  function Handled(c: Control, safe: seq<IPNet>, src: Option<u32>, now: nat, putWorks: bool): Control {
    if !Acts(c, safe, src, now) then c
    else if putWorks then Control(c.blocked[src.value := now + BLOCK_TTL], c.kernel[Host(src.value) := BLOCK])
    else c.(blocked := c.blocked - {src.value})
  }

  function Hosts(ips: set<u32>): set<Prefix> {
    set ip | ip in ips :: Host(ip)
  }

  function Expired(c: Control, now: nat): set<u32> {
    set ip | ip in c.blocked && now > c.blocked[ip]
  }

  /** The blocks of `ips` taken back. */
  function Gone(c: Control, ips: set<u32>): Control {
    Control(c.blocked - ips, c.kernel - Hosts(ips))
  }

  lemma NoneGone(c: Control)
    ensures Gone(c, {}) == c
  {
  }

  lemma OneMoreGone(c: Control, ips: set<u32>, ip: u32)
    ensures Control(Gone(c, ips).blocked - {ip}, Gone(c, ips).kernel - {Host(ip)}) == Gone(c, ips + {ip})
  {
  }

  lemma SweptIsGone(c: Control, now: nat, fails: set<u32>)
    ensures Swept(c, now, fails) == Gone(c, Expired(c, now) - fails)
  {
  }

  /** A janitor sweep in which the removals of `fails` fail. */
  function Swept(c: Control, now: nat, fails: set<u32>): Control {
    var gone := Expired(c, now) - fails;
    Control(c.blocked - gone, c.kernel - Hosts(gone))
  }

  class FeedbackController {
    const mgr: MapManager
    var safeNetworks: seq<IPNet>
    var blocked: map<u32, nat>

    constructor (mgr: MapManager, safeNetworks: seq<IPNet>)
      ensures View() == Control(map[], mgr.reputationMap.entries)
      ensures this.mgr == mgr && this.safeNetworks == safeNetworks
    {
      this.mgr, this.safeNetworks, blocked := mgr, safeNetworks, map[];
    }

    function View(): Control
      reads this, mgr.reputationMap
    {
      Control(blocked, mgr.reputationMap.entries)
    }

    /** The first registered network around the address. */
    method IsSafeNetwork(ip: u32) returns (r: Option<IPNet>)
      ensures r.Some? <==> InSafeNetwork(safeNetworks, ip)
      ensures r.Some? ==> r.value in safeNetworks && Contains(r.value, ip)
    {
      for i := 0 to |safeNetworks|
        invariant forall j :: 0 <= j < i ==> !Contains(safeNetworks[j], ip)
      {
        if Contains(safeNetworks[i], ip) {
          return Some(safeNetworks[i]);
        }
      }
      return None;
    }

    method Handle(src: Option<u32>, now: nat, putWorks: bool)
      modifies this`blocked, mgr.reputationMap
      ensures View() == Handled(old(View()), safeNetworks, src, now, putWorks)
    {
      if src.None? {
        return;
      }
      var ip := src.value;
      var safe := IsSafeNetwork(ip);
      if safe.Some? {
        return;
      }
      if ip in blocked && now < blocked[ip] {
        return;
      }
      var before := blocked;
      blocked := blocked[ip := now + BLOCK_TTL];
      HostTarget(ip);
      var ok := mgr.BlockIP(Cidr(V4(Be32Bytes(ip)), 32), putWorks);
      if !ok {
        blocked := blocked - {ip};
        assert blocked == before - {ip};
      }
    }

    method RunJanitor(now: nat, fails: set<u32>)
      modifies this`blocked, mgr.reputationMap
      ensures View() == Swept(old(View()), now, fails)
    {
      var expired := set ip | ip in blocked && now > blocked[ip];
      ghost var start := View();
      assert expired == Expired(start, now);
      NoneGone(start);
      hide Gone, Expired, Swept;
      var left := expired;
      assert (expired - left) - fails == {};
      while left != {}
        invariant left <= expired && View() == Gone(start, (expired - left) - fails)
        decreases |left|
      {
        var ip :| ip in left;
        ghost var done := (expired - left) - fails;
        var ok := Release(ip, ip !in fails, start, done);
        left := left - {ip};
        assert (expired - left) - fails == if ok then done + {ip} else done;
      }
      assert (expired - {}) - fails == expired - fails;
      SweptIsGone(start, now, fails);
    }

    /** Takes one block back; its record goes only when the kernel entry is gone. */
    method Release(ip: u32, works: bool, ghost start: Control, ghost done: set<u32>) returns (ok: bool)
      requires View() == Gone(start, done)
      modifies this`blocked, mgr.reputationMap
      ensures ok == works && View() == Gone(start, if ok then done + {ip} else done)
    {
      HostTarget(ip);
      OneMoreGone(start, done, ip);
      hide Gone, NodeOf;
      ok := mgr.UnblockIP(Cidr(V4(Be32Bytes(ip)), 32), works);
      if !ok {
        return;
      }
      blocked := blocked - {ip};
    }
  }

  // ---- Runs ----

  /** `Foreign` is an edit of the kernel table by somebody else, such as an operator's
      block or unblock from the command line: the node's new value, or its removal. */
  datatype Input =
    | Alert(src: Option<u32>, safe: seq<IPNet>, at: nat, putWorks: bool)
    | Sweep(at: nat, fails: set<u32>)
    | Foreign(node: Prefix, value: Option<u32>, at: nat)

  function Edited(t: Table, node: Prefix, value: Option<u32>): Table {
    if value.Some? then t[node := value.value] else t - {node}
  }

  function Step(c: Control, i: Input): Control {
    match i
    case Alert(src, safe, at, putWorks) => Handled(c, safe, src, at, putWorks)
    case Sweep(at, fails) => Swept(c, at, fails)
    case Foreign(node, value, _) => c.(kernel := Edited(c.kernel, node, value))
  }

  /** What the others have put into the kernel table, after one more step. */
  function OthersAfter(others: Table, i: Input): Table {
    if i.Foreign? then Edited(others, i.node, i.value) else others
  }

  function After(c: Control, run: seq<Input>): Control
    decreases |run|
  {
    if run == [] then c else After(Step(c, run[0]), run[1..])
  }

  // ---- Registry and kernel map agree ----

  function HostEntries(ips: set<u32>): Table {
    map p | p in Hosts(ips) :: BLOCK
  }

  /** The kernel holds what others put there, and one host entry per registry record. */
  ghost predicate Agrees(c: Control, others: Table) {
    && c.kernel == others + HostEntries(c.blocked.Keys)
    && Hosts(c.blocked.Keys) !! others.Keys
  }

  /** A new controller starts in agreement, whatever the kernel already holds. */
  lemma NewControllerAgrees(kernel: Table)
    ensures Agrees(Control(map[], kernel), kernel)
  {
    assert Hosts({}) == {};
    assert HostEntries({}) == map[];
  }

  /** The three ways the agreement breaks: the put of an alert fails although an expired
      entry of its address is still in the kernel; the put succeeds on a /32 that somebody
      else has blocked; or somebody else edits a /32 that has a record. */
  predicate Breaks(c: Control, others: Table, i: Input) {
    match i
    case Alert(src, safe, at, putWorks) =>
      Acts(c, safe, src, at) && if putWorks then Host(src.value) in others else src.value in c.blocked
    case Sweep(_, _) => false
    case Foreign(node, _, _) => node in Hosts(c.blocked.Keys)
  }

  lemma HostsDistribute(a: set<u32>, b: set<u32>)
    ensures Hosts(a + b) == Hosts(a) + Hosts(b) && Hosts(a - b) == Hosts(a) - Hosts(b)
    ensures forall ip :: Host(ip) in Hosts(a) <==> ip in a
  {
  }

  lemma EntriesOfFewer(others: Table, ips: set<u32>, gone: set<u32>)
    requires gone <= ips && Hosts(ips) !! others.Keys
    ensures others + HostEntries(ips - gone) == (others + HostEntries(ips)) - Hosts(gone)
    ensures Hosts(ips - gone) !! others.Keys
  {
  }

  lemma PutKeepsAgreement(c: Control, others: Table, ip: u32, expiry: nat)
    requires Agrees(c, others)
    ensures Agrees(Control(c.blocked[ip := expiry], c.kernel[Host(ip) := BLOCK]), others) <==> Host(ip) !in others
  {
  }

  lemma FailureKeepsAgreement(c: Control, others: Table, ip: u32)
    requires Agrees(c, others)
    ensures Agrees(c.(blocked := c.blocked - {ip}), others) <==> ip !in c.blocked
  {
    var keys := c.blocked.Keys;
    assert (c.blocked - {ip}).Keys == keys - {ip};
    if ip in keys {
      EntriesOfFewer(others, keys, {ip});
      HostsDistribute(keys, {ip});
      assert Host(ip) in HostEntries(keys) && Host(ip) in c.kernel;
      assert Host(ip) in Hosts({ip});
      assert Host(ip) !in others + HostEntries(keys - {ip});
    } else {
      assert c.blocked - {ip} == c.blocked;
    }
  }

  lemma SweepKeepsAgreement(c: Control, others: Table, gone: set<u32>)
    requires Agrees(c, others) && gone <= c.blocked.Keys
    ensures Agrees(Gone(c, gone), others)
  {
  }

  /** A foreign edit keeps the agreement exactly when it is not of a recorded /32. */
  lemma ForeignEditKeepsAgreement(c: Control, others: Table, node: Prefix, value: Option<u32>)
    requires Agrees(c, others)
    ensures Agrees(c.(kernel := Edited(c.kernel, node, value)), Edited(others, node, value))
            <==> node !in Hosts(c.blocked.Keys)
  {
    var ours := HostEntries(c.blocked.Keys);
    assert ours.Keys == Hosts(c.blocked.Keys);
    hide Hosts, HostEntries;
    if node in ours {
      assert value.None? ==> node !in Edited(c.kernel, node, value) && node in Edited(others, node, value) + ours;
    } else {
      assert Edited(others + ours, node, value) == Edited(others, node, value) + ours;
    }
  }

  /** One step keeps the agreement exactly when it is not one of the three. */
  lemma StepKeepsAgreement(c: Control, others: Table, i: Input)
    requires Agrees(c, others)
    ensures Agrees(Step(c, i), OthersAfter(others, i)) <==> !Breaks(c, others, i)
  {
    hide Agrees, InSafeNetwork, IsLive, HostEntries, Hosts;
    match i
    case Alert(src, safe, at, putWorks) =>
      if Acts(c, safe, src, at) {
        if putWorks {
          PutKeepsAgreement(c, others, src.value, at + BLOCK_TTL);
        } else {
          FailureKeepsAgreement(c, others, src.value);
        }
      }
    case Sweep(at, fails) =>
      SweepKeepsAgreement(c, others, Expired(c, at) - fails);
      SweptIsGone(c, at, fails);
    case Foreign(node, value, _) =>
      ForeignEditKeepsAgreement(c, others, node, value);
  }

  ghost predicate AgreesThroughout(c: Control, others: Table, run: seq<Input>)
    decreases |run|
  {
    Agrees(c, others) && (run != [] ==> AgreesThroughout(Step(c, run[0]), OthersAfter(others, run[0]), run[1..]))
  }

  predicate NeverBreaks(c: Control, others: Table, run: seq<Input>)
    decreases |run|
  {
    run != [] ==>
      !Breaks(c, others, run[0]) && NeverBreaks(Step(c, run[0]), OthersAfter(others, run[0]), run[1..])
  }

  /** Over any run, with any failures and any edits by others, registry and kernel map
      agree after every step exactly when no put fails on an address that is still in the
      registry, none succeeds on a /32 somebody else owns, and nobody else edits a /32
      that has a record. */
  lemma {:induction false} RegistryMatchesKernel(c: Control, others: Table, run: seq<Input>)
    requires Agrees(c, others)
    ensures AgreesThroughout(c, others, run) <==> NeverBreaks(c, others, run)
    decreases |run|
  {
    if run != [] {
      StepKeepsAgreement(c, others, run[0]);
      if !Breaks(c, others, run[0]) {
        RegistryMatchesKernel(Step(c, run[0]), OthersAfter(others, run[0]), run[1..]);
      }
    }
  }

  /** An orphan, from an empty registry: an address is blocked, its block expires before a
      sweep sees it, and the next alert's put fails. The record is gone, the kernel entry
      stays, and no sweep removes it. */
  lemma FailedRefreshOrphansTheBlock(kernel: Table, ip: u32, at: nat, again: nat, sweeps: seq<Input>)
    requires again >= at + BLOCK_TTL && forall i <- sweeps :: i.Sweep?
    ensures var run := [Alert(Some(ip), [], at, true), Alert(Some(ip), [], again, false)];
            var end := After(After(Control(map[], kernel), run), sweeps);
            Host(ip) in end.kernel && ip !in end.blocked
  {
    var start := Control(map[], kernel);
    var first, second := Alert(Some(ip), [], at, true), Alert(Some(ip), [], again, false);
    var orphaned := Step(Step(start, first), second);
    assert [first, second][1..] == [second] && [second][1..] == [];
    assert After(start, [first, second]) == After(Step(start, first), [second]) == After(orphaned, []);
    assert orphaned.blocked == map[];
    SweepsOfEmptyRegistry(orphaned, sweeps);
  }

  lemma {:induction false} SweepsOfEmptyRegistry(c: Control, sweeps: seq<Input>)
    requires c.blocked == map[] && forall i <- sweeps :: i.Sweep?
    ensures After(c, sweeps) == c
    decreases |sweeps|
  {
    if sweeps != [] {
      assert sweeps[0] in sweeps;
      assert Hosts({}) == {};
      assert Step(c, sweeps[0]) == c;
      SweepsOfEmptyRegistry(c, sweeps[1..]);
    }
  }

  /** A sweep leaves an expired record behind only where the removal failed. */
  lemma SweepRemovesExpired(c: Control, now: nat, fails: set<u32>)
    ensures Expired(Swept(c, now, fails), now) == Expired(c, now) * fails
    ensures forall ip <- c.blocked :: ip in Swept(c, now, fails).blocked <==> now <= c.blocked[ip] || ip in fails
  {
  }

  // ---- Lifetimes ----

  datatype Event = PutDone(ip: u32, at: nat) | Removed(ips: set<u32>, at: nat)

  /** What a step does to the kernel map, if anything. */
  function EventsOf(c: Control, i: Input): seq<Event> {
    match i
    case Alert(src, safe, at, putWorks) => if Acts(c, safe, src, at) && putWorks then [PutDone(src.value, at)] else []
    case Sweep(at, fails) => [Removed(Expired(c, at) - fails, at)]
    case Foreign(_, _, _) => []
  }

  function Events(c: Control, run: seq<Input>): seq<Event>
    decreases |run|
  {
    if run == [] then [] else EventsOf(c, run[0]) + Events(Step(c, run[0]), run[1..])
  }

  predicate RisingClock(run: seq<Input>, from: nat)
    decreases |run|
  {
    run == [] || (from <= run[0].at && RisingClock(run[1..], run[0].at))
  }

  /** Nothing is put or removed for `ip` before `until`. */
  predicate Guarded(c: Control, clock: nat, ip: u32, until: nat) {
    if ip in c.blocked then c.blocked[ip] >= until else clock >= until
  }

  predicate Respects(e: Event, ip: u32, until: nat) {
    && (e.PutDone? && e.ip == ip ==> e.at >= until)
    && (e.Removed? && ip in e.ips ==> e.at > until)
  }

  lemma {:induction false} GuardIsRespected(c: Control, clock: nat, run: seq<Input>, ip: u32, until: nat)
    requires Guarded(c, clock, ip, until) && RisingClock(run, clock)
    ensures forall e <- Events(c, run) :: Respects(e, ip, until)
    decreases |run|
  {
    if run != [] {
      var c' := Step(c, run[0]);
      assert Guarded(c', run[0].at, ip, until);
      GuardIsRespected(c', run[0].at, run[1..], ip, until);
      forall e | e in Events(c, run) ensures Respects(e, ip, until) {
        assert e in EventsOf(c, run[0]) || e in Events(c', run[1..]);
      }
    }
  }

  ghost predicate Lifetimes(events: seq<Event>) {
    forall i, j :: 0 <= i < j < |events| && events[i].PutDone? ==>
      Respects(events[j], events[i].ip, events[i].at + BLOCK_TTL)
  }

  /** With a clock that never runs back, over any run and any failures: the controller's
      successful puts for one address are at least the lifetime apart, and it removes no
      block until more than the lifetime after its put. */
  lemma {:induction false} BlocksLiveTheirLifetime(c: Control, clock: nat, run: seq<Input>)
    requires RisingClock(run, clock)
    ensures Lifetimes(Events(c, run))
    decreases |run|
  {
    if run != [] {
      var c', first := Step(c, run[0]), EventsOf(c, run[0]);
      var rest := Events(c', run[1..]);
      BlocksLiveTheirLifetime(c', run[0].at, run[1..]);
      if first != [] && first[0].PutDone? {
        var put := first[0];
        GuardIsRespected(c', put.at, run[1..], put.ip, put.at + BLOCK_TTL);
      }
      assert Events(c, run) == first + rest;
      forall i, j | 0 <= i < j < |first + rest| && (first + rest)[i].PutDone?
        ensures Respects((first + rest)[j], (first + rest)[i].ip, (first + rest)[i].at + BLOCK_TTL)
      {
        if i < |first| {
          assert (first + rest)[j] == rest[j - |first|];
          assert (first + rest)[j] in rest;
        } else {
          assert (first + rest)[j] == rest[j - |first|] && (first + rest)[i] == rest[i - |first|];
        }
      }
    }
  }

  /** Nothing that happens during the life of a block touches its record: not its own
      repeated alerts, not other alerts, sweeps, failures or foreign edits. */
  lemma {:induction false} LiveBlocksAreLeftAlone(c: Control, ip: u32, run: seq<Input>)
    requires ip in c.blocked
    requires forall i <- run :: i.at < c.blocked[ip]
    ensures ip in After(c, run).blocked && After(c, run).blocked[ip] == c.blocked[ip]
    decreases |run|
  {
    if run != [] {
      assert run[0] in run;
      LiveBlocksAreLeftAlone(Step(c, run[0]), ip, run[1..]);
    }
  }

  /** The address is blocked: the kernel holds its /32, with a record that expires five
      minutes after `at`. */
  predicate IsBlockedSince(c: Control, ip: u32, at: nat) {
    && Host(ip) in c.kernel && c.kernel[Host(ip)] == 1
    && ip in c.blocked && c.blocked[ip] == at + 300_000_000_000
  }

  /** Nothing the controller does touches a block in its first five minutes, and the first
      sweep after that takes it back, unless the removal fails. */
  lemma {:induction false} BlocksAreKeptThenTakenBack(c: Control, ip: u32, at: nat, i: Input)
    requires IsBlockedSince(c, ip, at) && !i.Foreign?
    ensures i.at < at + 300_000_000_000 ==> IsBlockedSince(Step(c, i), ip, at)
    ensures i.Sweep? && (i.at <= at + 300_000_000_000 || ip in i.fails) ==> IsBlockedSince(Step(c, i), ip, at)
    ensures i.Sweep? && i.at > at + 300_000_000_000 && ip !in i.fails ==>
              Host(ip) !in Step(c, i).kernel && ip !in Step(c, i).blocked
  {
    hide InSafeNetwork;
  }
}
