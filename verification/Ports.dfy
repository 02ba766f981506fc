/** The capped histogram of destination ports per source, and its entropy, against the
    exact histogram of all the ports observed. */
module Ports {
  import opened Words

  const MAX_PORTS: nat := 256
  const OVERFLOW: u16 := 0xFFFF
  const ALL_PORTS: nat := 0x1_0000

  datatype PortStats = PortStats(counts: map<u16, u32>, total: u32)

  const NO_PORTS := PortStats(map[], 0)

  /** A 32-bit counter goes round. */
  function Next32(x: u32): u32 {
    (x as int + 1) % 0x1_0000_0000
  }

  function CountOf(s: PortStats, port: u16): u32 {
    if port in s.counts then s.counts[port] else 0
  }

  /** The port an observation is booked under. */
  function BookedAs(s: PortStats, port: u16): u16 {
    if port !in s.counts && |s.counts| >= MAX_PORTS then OVERFLOW else port
  }

  function Observed(s: PortStats, port: u16): PortStats {
    var key := BookedAs(s, port);
    PortStats(s.counts[key := Next32(CountOf(s, key))], Next32(s.total))
  }

  function PortsOf(h: seq<u16>): PortStats {
    if h == [] then NO_PORTS else Observed(PortsOf(Init(h)), Last(h))
  }

  // ---- The exact histogram ----

  function Multiplicity(h: seq<u16>, port: u16): (n: nat)
    ensures n <= |h|
  {
    if h == [] then 0 else Multiplicity(Init(h), port) + (if Last(h) == port then 1 else 0)
  }

  function Elems(h: seq<u16>): set<u16> {
    set x | x in h
  }

  /** The history with every untracked port replaced by the overflow port. */
  function Merged(h: seq<u16>, tracked: set<u16>): (m: seq<u16>)
    ensures |m| == |h|
  {
    seq(|h|, i requires 0 <= i < |h| => if h[i] in tracked then h[i] else OVERFLOW)
  }

  predicate IsHistogramOf(s: PortStats, h: seq<u16>) {
    && s.total == |h|
    && s.counts.Keys == Elems(h)
    && forall q <- s.counts :: s.counts[q] == Multiplicity(h, q)
  }

  lemma MergedStep(h: seq<u16>, tracked: set<u16>)
    requires h != []
    ensures var m := Merged(h, tracked);
            Init(m) == Merged(Init(h), tracked) && Last(m) == if Last(h) in tracked then Last(h) else OVERFLOW
  {
  }

  lemma ElemsStep(h: seq<u16>)
    requires h != []
    ensures Elems(h) == Elems(Init(h)) + {Last(h)}
  {
  }

  lemma {:induction false} AbsentMeansZero(h: seq<u16>, port: u16)
    ensures Multiplicity(h, port) == 0 <==> port !in h
  {
    if h != [] {
      AbsentMeansZero(Init(h), port);
      assert h == Init(h) + [Last(h)];
    }
  }

  lemma MergedOfTracked(h: seq<u16>, tracked: set<u16>)
    requires Elems(h) <= tracked
    ensures Merged(h, tracked) == h
  {
  }

  lemma HistogramStep(s: PortStats, h: seq<u16>, next: u16)
    requires IsHistogramOf(s, h) && |h| + 1 < 0x1_0000_0000
    ensures IsHistogramOf(PortStats(s.counts[next := Next32(CountOf(s, next))], Next32(s.total)), h + [next])
  {
    var h' := h + [next];
    assert Init(h') == h && Last(h') == next;
    ElemsStep(h');
    AbsentMeansZero(h, next);
    assert next in s.counts <==> next in Elems(h);
  }

  /** The size limits, and that nothing goes untracked before the limit is passed. */
  predicate KeysWithinLimits(keys: set<u16>, seen: set<u16>) {
    && |keys| <= MAX_PORTS + 1
    && (|keys| > MAX_PORTS ==> OVERFLOW in keys)
    && (seen <= keys || (OVERFLOW in keys && |keys| >= MAX_PORTS && |seen| > MAX_PORTS))
  }

  lemma LimitsAreKept(keys: set<u16>, seen: set<u16>, port: u16, key: u16)
    requires KeysWithinLimits(keys, seen)
    requires keys == seen || !(seen <= keys)
    requires key == if port !in keys && |keys| >= MAX_PORTS then OVERFLOW else port
    ensures KeysWithinLimits(keys + {key}, seen + {port})
    ensures seen <= keys || key in keys
  {
    if seen <= keys {
      if port !in keys {
        assert |seen + {port}| == |keys| + 1;
        SubsetIsNoLarger(keys, keys + {key});
      }
    } else {
      SubsetIsNoLarger(seen, seen + {port});
      assert keys + {key} == keys || |keys| < MAX_PORTS;
    }
  }

  /** Below 2^32 observations the capped tracker is the exact histogram of the history
      with its untracked ports merged into the overflow port, in at most 257 cells.
      With at most 256 distinct ports nothing is merged: it is the exact histogram. */
  lemma {:induction false} CappedIsMerged(h: seq<u16>)
    requires |h| < 0x1_0000_0000
    ensures var s := PortsOf(h);
            && IsHistogramOf(s, Merged(h, s.counts.Keys))
            && KeysWithinLimits(s.counts.Keys, Elems(h))
            && (|Elems(h)| <= MAX_PORTS ==> IsHistogramOf(s, h))
  {
    if h == [] {
      assert Merged(h, {}) == [];
    } else {
      var before, p := Init(h), Last(h);
      CappedIsMerged(before);
      var s := PortsOf(before);
      var keys := s.counts.Keys;
      TrackedKeys(s, before);
      var key := BookedAs(s, p);
      ElemsStep(h);
      assert |s.counts| == |keys|;
      LimitsAreKept(keys, Elems(before), p, key);
      CappedStep(s, h);
    }
  }

  lemma TrackedKeys(s: PortStats, h: seq<u16>)
    requires IsHistogramOf(s, Merged(h, s.counts.Keys))
    ensures s.counts.Keys == Elems(h) || !(Elems(h) <= s.counts.Keys)
  {
  }

  lemma CappedStep(s: PortStats, h: seq<u16>)
    requires h != [] && |h| < 0x1_0000_0000
    requires IsHistogramOf(s, Merged(Init(h), s.counts.Keys))
    requires Elems(Init(h)) <= s.counts.Keys || BookedAs(s, Last(h)) in s.counts
    requires KeysWithinLimits(s.counts.Keys + {BookedAs(s, Last(h))}, Elems(h))
    ensures var s' := Observed(s, Last(h));
            && s'.counts.Keys == s.counts.Keys + {BookedAs(s, Last(h))}
            && IsHistogramOf(s', Merged(h, s'.counts.Keys))
            && (|Elems(h)| <= MAX_PORTS ==> IsHistogramOf(s', h))
  {
    hide IsHistogramOf, Merged, Next32;
    var before, key, s' := Init(h), BookedAs(s, Last(h)), Observed(s, Last(h));
    assert s'.counts.Keys == s.counts.Keys + {key};
    HistogramStep(s, Merged(before, s.counts.Keys), key);
    MergedGrows(before, s, key);
    MergedStep(h, s'.counts.Keys);
    var m' := Merged(h, s'.counts.Keys);
    assert m' == Init(m') + [Last(m')];
    LastIsBooked(s, Last(h));
    if |Elems(h)| <= MAX_PORTS {
      MergedOfTracked(h, s'.counts.Keys);
    }
  }

  lemma LastIsBooked(s: PortStats, port: u16)
    ensures var key := BookedAs(s, port);
            (if port in s.counts.Keys + {key} then port else OVERFLOW) == key
  {
  }

  /** A key is added only while everything seen so far is tracked. */
  lemma MergedGrows(h: seq<u16>, s: PortStats, key: u16)
    requires Elems(h) <= s.counts.Keys || key in s.counts
    ensures Merged(h, s.counts.Keys + {key}) == Merged(h, s.counts.Keys)
  {
  }

  lemma SubsetIsNoLarger(a: set<u16>, b: set<u16>)
    requires a <= b
    ensures |a| <= |b|
  {
    if a != {} {
      var x :| x in a;
      SubsetIsNoLarger(a - {x}, b - {x});
    }
  }

  /** Every cell of the capped tracker: a tracked port other than the overflow port has
      its exact count, and the overflow cell holds its own port and all untracked ones. */
  lemma CellsOfCapped(h: seq<u16>, q: u16)
    requires |h| < 0x1_0000_0000 && q in PortsOf(h).counts
    ensures var s := PortsOf(h);
            s.counts[q] as int == Multiplicity(h, q) + if q == OVERFLOW then Untracked(h, s.counts.Keys) else 0
  {
    CappedIsMerged(h);
    MergedCells(h, PortsOf(h).counts.Keys, q);
  }

  function Untracked(h: seq<u16>, tracked: set<u16>): nat {
    if h == [] then 0 else Untracked(Init(h), tracked) + (if Last(h) in tracked then 0 else 1)
  }

  lemma {:induction false} MergedCells(h: seq<u16>, tracked: set<u16>, q: u16)
    requires q in tracked
    ensures Multiplicity(Merged(h, tracked), q)
            == Multiplicity(h, q) + if q == OVERFLOW then Untracked(h, tracked) else 0
  {
    if h != [] {
      MergedStep(h, tracked);
      MergedCells(Init(h), tracked, q);
    }
  }

  function CountsBelow(s: PortStats, n: nat): nat
    requires n <= ALL_PORTS
  {
    if n == 0 then 0 else CountsBelow(s, n - 1) + CountOf(s, n - 1)
  }

  function MultiplicitiesBelow(h: seq<u16>, n: nat): nat
    requires n <= ALL_PORTS
  {
    if n == 0 then 0 else MultiplicitiesBelow(h, n - 1) + Multiplicity(h, n - 1)
  }

  lemma {:induction false} OneMoreMultiplicity(h: seq<u16>, n: nat)
    requires h != [] && n <= ALL_PORTS
    ensures MultiplicitiesBelow(h, n) == MultiplicitiesBelow(Init(h), n) + if Last(h) < n then 1 else 0
  {
    if n > 0 {
      OneMoreMultiplicity(h, n - 1);
    }
  }

  lemma {:induction false} NoMultiplicities(n: nat)
    requires n <= ALL_PORTS
    ensures MultiplicitiesBelow([], n) == 0
  {
    if n > 0 {
      NoMultiplicities(n - 1);
    }
  }

  lemma {:induction false} MultiplicitiesSumUp(h: seq<u16>)
    ensures MultiplicitiesBelow(h, ALL_PORTS) == |h|
  {
    if h == [] {
      NoMultiplicities(ALL_PORTS);
    } else {
      MultiplicitiesSumUp(Init(h));
      OneMoreMultiplicity(h, ALL_PORTS);
    }
  }

  lemma {:induction false} HistogramCounts(s: PortStats, h: seq<u16>, n: nat)
    requires IsHistogramOf(s, h) && n <= ALL_PORTS
    ensures CountsBelow(s, n) == MultiplicitiesBelow(h, n)
  {
    if n > 0 {
      HistogramCounts(s, h, n - 1);
      AbsentMeansZero(h, n - 1);
      assert n - 1 in s.counts <==> n - 1 in Elems(h);
    }
  }

  /** Nothing is lost to the cap: the cells sum to the number of observations. */
  lemma CellsSumToTotal(h: seq<u16>)
    requires |h| < 0x1_0000_0000
    ensures CountsBelow(PortsOf(h), ALL_PORTS) == PortsOf(h).total == |h|
  {
    var s := PortsOf(h);
    var m := Merged(h, s.counts.Keys);
    CappedIsMerged(h);
    HistogramCounts(s, m, ALL_PORTS);
    MultiplicitiesSumUp(m);
  }

  /** A tracker never has more than 257 cells, the last of them port 65535. */
  lemma {:induction false} CellsAreBounded(h: seq<u16>)
    requires |h| < 0x1_0000_0000
    ensures |PortsOf(h).counts| <= 257 && (|PortsOf(h).counts| == 257 ==> 65_535 in PortsOf(h).counts)
    ensures |Elems(h)| <= 256 ==> PortsOf(h).counts.Keys == Elems(h)
  {
    CappedIsMerged(h);
    var s := PortsOf(h);
    assert |s.counts.Keys| == |s.counts|;
    hide PortsOf;
  }

  // ---- Entropy ----

  /** What one port contributes to the entropy, in bits. */
  function Surprise(count: nat, total: nat, log2: real -> real): real {
    if count == 0 || total == 0 then 0.0
    else -(count as real / total as real * log2(count as real / total as real))
  }

  function EntropyBelow(s: PortStats, keys: set<u16>, log2: real -> real, n: nat): real
    requires n <= ALL_PORTS
  {
    if n == 0 then 0.0
    else EntropyBelow(s, keys, log2, n - 1)
         + if n - 1 in keys then Surprise(CountOf(s, n - 1), s.total, log2) else 0.0
  }

  function EntropyOf(s: PortStats, log2: real -> real): real {
    EntropyBelow(s, s.counts.Keys, log2, ALL_PORTS)
  }

  lemma {:induction false} EntropyWithout(s: PortStats, keys: set<u16>, p: u16, log2: real -> real, n: nat)
    requires p in keys && n <= ALL_PORTS
    ensures EntropyBelow(s, keys, log2, n)
            == EntropyBelow(s, keys - {p}, log2, n) + if p < n then Surprise(CountOf(s, p), s.total, log2) else 0.0
  {
    if n > 0 {
      EntropyWithout(s, keys, p, log2, n - 1);
    }
  }

  lemma {:induction false} EntropyOfNothing(s: PortStats, keys: set<u16>, log2: real -> real, n: nat)
    requires n <= ALL_PORTS && (keys == {} || s.total == 0)
    ensures EntropyBelow(s, keys, log2, n) == 0.0
  {
    if n > 0 {
      EntropyOfNothing(s, keys, log2, n - 1);
    }
  }

  class PortTracker {
    var counts: map<u16, u32>
    var total: u32

    constructor ()
      ensures View() == NO_PORTS
    {
      counts, total := map[], 0;
    }

    function View(): PortStats
      reads this
    {
      PortStats(counts, total)
    }

    method Observe(dstPort: u16)
      modifies this
      ensures View() == Observed(old(View()), dstPort)
    {
      total := (total as int + 1) % 0x1_0000_0000;
      if dstPort in counts {
        counts := counts[dstPort := (counts[dstPort] as int + 1) % 0x1_0000_0000];
        return;
      }
      if |counts| >= MAX_PORTS {
        var spilled: u32 := if OVERFLOW in counts then counts[OVERFLOW] else 0;
        counts := counts[OVERFLOW := (spilled as int + 1) % 0x1_0000_0000];
        return;
      }
      counts := counts[dstPort := 1];
    }

    /** The sum does not depend on the order the map hands out its keys. */
    method EntropyBits(log2: real -> real) returns (h: real)
      ensures h == EntropyOf(View(), log2)
    {
      if total == 0 {
        EntropyOfNothing(View(), counts.Keys, log2, ALL_PORTS);
        return 0.0;
      }
      h := 0.0;
      var left := counts.Keys;
      while left != {}
        invariant left <= counts.Keys
        invariant h + EntropyBelow(View(), left, log2, ALL_PORTS) == EntropyOf(View(), log2)
        decreases |left|
      {
        var port :| port in left;
        EntropyWithout(View(), left, port, log2, ALL_PORTS);
        left := left - {port};
        var c := counts[port];
        if c != 0 {
          var p := c as real / total as real;
          h := h - p * log2(p);
        }
      }
      EntropyOfNothing(View(), {}, log2, ALL_PORTS);
    }
  }

  // ---- Entropy of a history, grouped by observation instead of by port ----

  ghost predicate Increasing(log2: real -> real) {
    forall a: real, b: real :: 0.0 < a <= b ==> log2(a) <= log2(b)
  }

  function Share(h: seq<u16>, port: u16): real {
    if h == [] then 0.0 else Multiplicity(h, port) as real / |h| as real
  }

  /** The entropy of the exact histogram of a history. */
  function ExactEntropy(h: seq<u16>, log2: real -> real, n: nat): real
    requires n <= ALL_PORTS
  {
    if n == 0 then 0.0
    else ExactEntropy(h, log2, n - 1) + Surprise(Multiplicity(h, n - 1), |h|, log2)
  }

  function Cost(h: seq<u16>, port: u16, log2: real -> real): real {
    if h == [] then 0.0 else -(log2(Share(h, port)) / |h| as real)
  }

  /** Each of the observations `part` paying the cost of its port within `h`. */
  function Paid(part: seq<u16>, h: seq<u16>, log2: real -> real): real {
    if part == [] then 0.0 else Paid(Init(part), h, log2) + Cost(h, Last(part), log2)
  }

  function PortPays(part: seq<u16>, h: seq<u16>, port: u16, log2: real -> real): real {
    Multiplicity(part, port) as real * Cost(h, port, log2)
  }

  function PaidByPort(part: seq<u16>, h: seq<u16>, log2: real -> real, n: nat): real
    requires n <= ALL_PORTS
  {
    if n == 0 then 0.0 else PaidByPort(part, h, log2, n - 1) + PortPays(part, h, n - 1, log2)
  }

  lemma {:induction false} OneMorePays(part: seq<u16>, h: seq<u16>, log2: real -> real, n: nat)
    requires part != [] && n <= ALL_PORTS
    ensures PaidByPort(part, h, log2, n)
            == PaidByPort(Init(part), h, log2, n) + if Last(part) < n then Cost(h, Last(part), log2) else 0.0
  {
    if n > 0 {
      hide Cost, PortPays, Multiplicity;
      OneMorePays(part, h, log2, n - 1);
      PortPaysStep(part, h, n - 1, log2);
    }
  }

  lemma PortPaysStep(part: seq<u16>, h: seq<u16>, port: u16, log2: real -> real)
    requires part != []
    ensures PortPays(part, h, port, log2)
            == PortPays(Init(part), h, port, log2) + if Last(part) == port then Cost(h, port, log2) else 0.0
  {
  }

  lemma {:induction false} NobodyPays(h: seq<u16>, log2: real -> real, n: nat)
    requires n <= ALL_PORTS
    ensures PaidByPort([], h, log2, n) == 0.0
  {
    if n > 0 {
      NobodyPays(h, log2, n - 1);
    }
  }

  lemma {:induction false} GroupedByPort(part: seq<u16>, h: seq<u16>, log2: real -> real)
    ensures Paid(part, h, log2) == PaidByPort(part, h, log2, ALL_PORTS)
    decreases |part|
  {
    if part == [] {
      NobodyPays(h, log2, ALL_PORTS);
    } else {
      GroupedByPort(Init(part), h, log2);
      OneMorePays(part, h, log2, ALL_PORTS);
    }
  }

  lemma SurpriseIsPaid(k: real, t: real, l: real)
    requires t > 0.0
    ensures -(k / t * l) == k * -(l / t)
  {
  }

  lemma PortPaysItsSurprise(h: seq<u16>, port: u16, log2: real -> real)
    requires h != []
    ensures Surprise(Multiplicity(h, port), |h|, log2) == PortPays(h, h, port, log2)
  {
    var k, t := Multiplicity(h, port), |h| as real;
    hide Multiplicity;
    SurpriseIsPaid(k as real, t, log2(k as real / t));
  }

  lemma {:induction false} EntropyIsPaid(h: seq<u16>, log2: real -> real, n: nat)
    requires n <= ALL_PORTS && h != []
    ensures ExactEntropy(h, log2, n) == PaidByPort(h, h, log2, n)
  {
    if n > 0 {
      hide Surprise, Multiplicity, PortPays;
      EntropyIsPaid(h, log2, n - 1);
      PortPaysItsSurprise(h, n - 1, log2);
    }
  }

  /** Merging never lowers how often an observation's port occurs. */
  lemma {:induction false} MergingRaisesMultiplicity(h: seq<u16>, tracked: set<u16>, port: u16)
    ensures Multiplicity(h, port) <= Multiplicity(Merged(h, tracked), if port in tracked then port else OVERFLOW)
  {
    if h != [] {
      MergedStep(h, tracked);
      MergingRaisesMultiplicity(Init(h), tracked, port);
    }
  }

  lemma {:induction false} MergingLowersPay(part: seq<u16>, h: seq<u16>, tracked: set<u16>, log2: real -> real)
    requires Increasing(log2) && h != [] && Elems(part) <= Elems(h)
    ensures Paid(Merged(part, tracked), Merged(h, tracked), log2) <= Paid(part, h, log2)
    decreases |part|
  {
    if part != [] {
      hide Cost;
      ElemsStep(part);
      MergedStep(part, tracked);
      MergingLowersPay(Init(part), h, tracked, log2);
      MergingLowersCost(h, tracked, Last(part), log2);
    }
  }

  lemma MergingLowersCost(h: seq<u16>, tracked: set<u16>, port: u16, log2: real -> real)
    requires Increasing(log2) && port in h
    ensures Cost(Merged(h, tracked), if port in tracked then port else OVERFLOW, log2) <= Cost(h, port, log2)
  {
    var key: u16 := if port in tracked then port else OVERFLOW;
    AbsentMeansZero(h, port);
    MergingRaisesMultiplicity(h, tracked, port);
    var t := |h| as real;
    var k, k' := Multiplicity(h, port) as real, Multiplicity(Merged(h, tracked), key) as real;
    QuotientGrows(k, k', t);
    assert 0.0 < k / t;
    var a, b := log2(k / t), log2(k' / t);
    assert a <= b;
    QuotientGrows(a, b, t);
  }

  lemma QuotientGrows(a: real, b: real, t: real)
    requires a <= b && t > 0.0
    ensures a / t <= b / t
    ensures 0.0 < a ==> 0.0 < a / t
  {
  }

  /** Merging ports never raises the entropy of a history. */
  lemma MergingLowersEntropy(h: seq<u16>, tracked: set<u16>, log2: real -> real)
    requires Increasing(log2)
    ensures ExactEntropy(Merged(h, tracked), log2, ALL_PORTS) <= ExactEntropy(h, log2, ALL_PORTS)
  {
    if h == [] {
      assert Merged(h, tracked) == h;
    } else {
      var m := Merged(h, tracked);
      EntropyIsPaid(h, log2, ALL_PORTS);
      EntropyIsPaid(m, log2, ALL_PORTS);
      GroupedByPort(h, h, log2);
      GroupedByPort(m, m, log2);
      MergingLowersPay(h, h, tracked, log2);
    }
  }

  lemma {:induction false} HistogramEntropy(s: PortStats, h: seq<u16>, log2: real -> real, n: nat)
    requires IsHistogramOf(s, h) && n <= ALL_PORTS
    ensures EntropyBelow(s, s.counts.Keys, log2, n) == ExactEntropy(h, log2, n)
  {
    if n > 0 {
      HistogramEntropy(s, h, log2, n - 1);
      AbsentMeansZero(h, n - 1);
      assert n - 1 in s.counts <==> n - 1 in Elems(h);
    }
  }

  /** The tracker's entropy is at most that of everything the source really touched. */
  lemma {:induction false} CappedEntropyIsAtMostExact(h: seq<u16>, log2: real -> real)
    requires |h| < 0x1_0000_0000 && Increasing(log2)
    ensures EntropyOf(PortsOf(h), log2) <= ExactEntropy(h, log2, ALL_PORTS)
    ensures |Elems(h)| <= MAX_PORTS ==> EntropyOf(PortsOf(h), log2) == ExactEntropy(h, log2, ALL_PORTS)
  {
    var s := PortsOf(h);
    CappedIsMerged(h);
    HistogramEntropy(s, Merged(h, s.counts.Keys), log2, ALL_PORTS);
    MergingLowersEntropy(h, s.counts.Keys, log2);
    if |Elems(h)| <= MAX_PORTS {
      HistogramEntropy(s, h, log2, ALL_PORTS);
    }
  }

  lemma {:induction false} EvenPay(part: seq<u16>, h: seq<u16>, count: nat, log2: real -> real)
    requires h != [] && forall p <- part :: Multiplicity(h, p) == count
    ensures Paid(part, h, log2) == |part| as real * -(log2(count as real / |h| as real) / |h| as real)
  {
    if part != [] {
      assert Last(part) in part && forall p <- Init(part) :: p in part;
      EvenPay(Init(part), h, count, log2);
    }
  }

  lemma Shares(n: real, x: real)
    requires n > 0.0
    ensures n * -(x / n) == -x
  {
  }

  /** A source that touches each of its ports equally often, at most 256 of them, has the
      entropy of that share: `n` ports touched evenly give `-log2(1/n)` bits. */
  lemma {:induction false} EvenEntropy(h: seq<u16>, count: nat, log2: real -> real)
    requires h != [] && |h| < 0x1_0000_0000 && |Elems(h)| <= MAX_PORTS && Increasing(log2)
    requires forall p <- h :: Multiplicity(h, p) == count
    ensures EntropyOf(PortsOf(h), log2) == -log2(count as real / |h| as real)
  {
    CappedEntropyIsAtMostExact(h, log2);
    EntropyIsPaid(h, log2, ALL_PORTS);
    GroupedByPort(h, h, log2);
    EvenPay(h, h, count, log2);
    hide EntropyOf, PortsOf, ExactEntropy, PaidByPort, Paid, Multiplicity, Elems, Increasing;
    Shares(|h| as real, log2(count as real / |h| as real));
  }
}
