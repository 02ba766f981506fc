/** The token bucket shared by the per-source limiter and the telemetry limiter.

    A bucket earns one token per 100 us of elapsed time, rounded down, and its
    clock is then reset to now, so the remainder is lost. The lemmas bound what
    that costs from both sides over a stretch of draws. */
module TokenBucket {
  import opened Words

  const NANOS_PER_TOKEN: nat := 100_000

  datatype Bucket = Bucket(lastUpdateNs: u64, tokens: u64)

  function Earned(b: Bucket, now: nat): nat {
    if now <= b.lastUpdateNs then 0 else (now - b.lastUpdateNs) / NANOS_PER_TOKEN
  }

  /** A bucket of capacity `cap` after it was asked for one token at `now`. */
  function Refill(cap: nat, b: Bucket, now: u64): Bucket
    requires cap < 0x1_0000_0000
  {
    if Earned(b, now) > 0 then Bucket(now, Min(b.tokens + Earned(b, now), cap)) else b
  }

  predicate Grants(cap: nat, b: Bucket, now: u64)
    requires cap < 0x1_0000_0000
  {
    Refill(cap, b, now).tokens >= 1
  }

  function Draw(cap: nat, b: Bucket, now: u64): Bucket
    requires cap < 0x1_0000_0000
  {
    var f := Refill(cap, b, now);
    if f.tokens >= 1 then f.(tokens := f.tokens - 1) else f
  }

  /** A clock that never runs back, starting at or after `from`. */
  predicate Rising(times: seq<u64>, from: nat) {
    times == [] || (from <= times[0] && Rising(times[1..], times[0]))
  }

  function DrawAll(cap: nat, b: Bucket, times: seq<u64>): Bucket
    requires cap < 0x1_0000_0000
    decreases |times|
  {
    if times == [] then b else DrawAll(cap, Draw(cap, b, times[0]), times[1..])
  }

  function Granted(cap: nat, b: Bucket, times: seq<u64>): nat
    requires cap < 0x1_0000_0000
    decreases |times|
  {
    if times == [] then 0
    else (if Grants(cap, b, times[0]) then 1 else 0) + Granted(cap, Draw(cap, b, times[0]), times[1..])
  }

  /** Tokens earned over a stretch, before the cap is applied. */
  function EarnedAll(cap: nat, b: Bucket, times: seq<u64>): nat
    requires cap < 0x1_0000_0000
    decreases |times|
  {
    if times == [] then 0
    else Earned(b, times[0]) + EarnedAll(cap, Draw(cap, b, times[0]), times[1..])
  }

  /** Tokens lost to the cap over a stretch. */
  function SpilledAll(cap: nat, b: Bucket, times: seq<u64>): int
    requires cap < 0x1_0000_0000
    decreases |times|
  {
    if times == [] then 0
    else b.tokens as int + Earned(b, times[0]) - Refill(cap, b, times[0]).tokens
         + SpilledAll(cap, Draw(cap, b, times[0]), times[1..])
  }

  lemma DivSuperadditive(x: nat, y: nat, d: nat)
    requires d == NANOS_PER_TOKEN
    ensures x / d + y / d <= (x + y) / d
  {
  }

  /** Everything drawn was there at the start or earned, and tokens never exceed the cap. */
  lemma {:induction false} TokensAreConserved(cap: nat, b: Bucket, times: seq<u64>)
    requires b.tokens <= cap < 0x1_0000_0000
    ensures DrawAll(cap, b, times).tokens <= cap
    ensures SpilledAll(cap, b, times) >= 0
    ensures DrawAll(cap, b, times).tokens as int + Granted(cap, b, times) + SpilledAll(cap, b, times)
            == b.tokens as int + EarnedAll(cap, b, times)
    decreases |times|
  {
    if times != [] {
      TokensAreConserved(cap, Draw(cap, b, times[0]), times[1..]);
    }
  }

  /** The two-sided rate: what a stretch earns is the elapsed whole intervals, up to
      a factor of two lost to the clock resets. */
  lemma {:induction false} EarningIsTwoSided(cap: nat, b: Bucket, times: seq<u64>)
    requires cap < 0x1_0000_0000 && Rising(times, b.lastUpdateNs)
    ensures var advance := DrawAll(cap, b, times).lastUpdateNs as int - b.lastUpdateNs;
            var earned := EarnedAll(cap, b, times);
            && earned * NANOS_PER_TOKEN <= advance
            && (earned > 0 ==> advance < 2 * earned * NANOS_PER_TOKEN)
            && (earned == 0 ==> advance == 0)
    decreases |times|
  {
    if times != [] {
      var next := Draw(cap, b, times[0]);
      RisingLater(times[1..], times[0], next.lastUpdateNs);
      EarningIsTwoSided(cap, next, times[1..]);
      var e := Earned(b, times[0]);
      assert e * NANOS_PER_TOKEN <= times[0] as int - b.lastUpdateNs < (e + 1) * NANOS_PER_TOKEN;
    }
  }

  lemma RisingLater(times: seq<u64>, from: nat, earlier: nat)
    requires Rising(times, from) && earlier <= from
    ensures Rising(times, earlier)
  {
  }

  predicate AllWithin(times: seq<u64>, until: nat) {
    forall i :: 0 <= i < |times| ==> times[i] <= until
  }

  /** A stretch that stays within `[.., until]` is granted at most the tokens it
      started with plus the whole intervals since the bucket's clock. */
  lemma {:induction false} GrantsAreBounded(cap: nat, b: Bucket, times: seq<u64>, until: nat)
    requires b.tokens <= cap < 0x1_0000_0000 && Rising(times, b.lastUpdateNs)
    requires AllWithin(times, until)
    requires b.lastUpdateNs <= until
    ensures Granted(cap, b, times) <= b.tokens as int + (until - b.lastUpdateNs) / NANOS_PER_TOKEN
    decreases |times|
  {
    if times != [] {
      var now := times[0];
      var next := Draw(cap, b, now);
      RisingLater(times[1..], now, next.lastUpdateNs);
      GrantsAreBounded(cap, next, times[1..], until);
      DivSuperadditive(now - b.lastUpdateNs, until - now, NANOS_PER_TOKEN);
    }
  }

  /** The tokens a bucket holds are there to be drawn: no timing takes them away. */
  lemma {:induction false} HeldTokensAreGranted(cap: nat, b: Bucket, times: seq<u64>)
    requires b.tokens <= cap < 0x1_0000_0000
    ensures Granted(cap, b, times) >= Min(|times|, b.tokens)
    decreases |times|
  {
    if times != [] {
      HeldTokensAreGranted(cap, Draw(cap, b, times[0]), times[1..]);
    }
  }

  predicate Spaced(times: seq<u64>, gap: nat) {
    forall i, j :: 0 <= i < j < |times| ==> times[i] as int + gap <= times[j]
  }

  /** A source that keeps at least one interval between its packets is never refused. */
  lemma {:induction false} SpacedDrawsAreAllGranted(cap: nat, b: Bucket, times: seq<u64>)
    requires 1 <= cap < 0x1_0000_0000 && Spaced(times, NANOS_PER_TOKEN)
    requires times != [] ==> b.lastUpdateNs as int + NANOS_PER_TOKEN <= times[0]
    ensures Granted(cap, b, times) == |times|
    decreases |times|
  {
    if times != [] {
      var next := Draw(cap, b, times[0]);
      assert Earned(b, times[0]) >= 1;
      SpacedDrawsAreAllGranted(cap, next, times[1..]);
    }
  }
}
