/**
 The per-source token bucket and its two exact companions.

 The filter's bucket refills in whole tokens: the remainder of a division is kept when the
 refill is zero and thrown away when it is not, and the product that is divided may wrap.
 It is compared here with buckets that count nano-tokens and never round.
 */
module TokenBucket {
  import opened Words

  const LIMIT := 1000
  const CAP := 1000 * NANO

  datatype Bucket = Bucket(lastTime: U64, tokens: int)

  /** The dividend of the refill, as the 64-bit unsigned product leaves it. */
  function Credit(b: Bucket, now: U64): U64 {
    Mul64(Sub64(now, b.lastTime), 1000)
  }

  function Refill(b: Bucket, now: U64): Bucket {
    var refill := Credit(b, now) / NANO;
    if refill > 0 then Bucket(now, Min(b.tokens + refill, LIMIT)) else b
  }

  /** The bucket after one packet has been charged to it. */
  function AfterCheck(b: Bucket, now: U64): Bucket {
    var r := Refill(b, now);
    r.(tokens := r.tokens - 1)
  }

  predicate Passes(b: Bucket, now: U64) {
    AfterCheck(b, now).tokens >= 0
  }

  /** The bucket a source starts with: full, less its first packet. */
  function Fresh(now: U64): Bucket {
    Bucket(now, LIMIT - 1)
  }

  /** The structure the filter keeps in its maps, updated in place. */
  class Cell {
    var lastTime: U64
    var tokens: int

    constructor (lastTime: U64, tokens: int)
      ensures Value() == Bucket(lastTime, tokens)
    {
      this.lastTime, this.tokens := lastTime, tokens;
    }

    function Value(): Bucket
      reads this
    {
      Bucket(lastTime, tokens)
    }

    method Check(now: U64) returns (drop: bool)
      modifies this
      ensures Value() == AfterCheck(old(Value()), now)
      ensures drop == !Passes(old(Value()), now)
    {
      var elapsed := Sub64(now, lastTime);
      if elapsed > 0 {
        var refill := Mul64(elapsed, LIMIT) / NANO;
        if refill > 0 {
          lastTime := now;
          tokens := tokens + refill;
          if tokens > LIMIT {
            tokens := LIMIT;
          }
        }
      }
      tokens := tokens - 1;
      drop := tokens < 0;
    }
  }

  // ----- Exact buckets ------------------------------------------------------------------

  /** A bucket of nano-tokens: its level just after the packet that arrived at time `at`. */
  datatype Exact = Exact(level: int, at: int)

  /** The level an arrival at `now` finds, when `rate` nano-tokens flow in each nanosecond. */
  function Level(x: Exact, rate: nat, now: int): int {
    Min(CAP, x.level + (now - x.at) * rate)
  }

  predicate Affords(x: Exact, rate: nat, now: int) {
    Level(x, rate, now) >= NANO
  }

  /** Charges every arrival, as the filter does, so the level may go below zero. */
  function Charged(x: Exact, rate: nat, now: int): Exact {
    Exact(Level(x, rate, now) - NANO, now)
  }

  /** Charges only the arrivals it can afford: the textbook policer. */
  function Policed(x: Exact, rate: nat, now: int): Exact {
    if Affords(x, rate, now) then Charged(x, rate, now) else Exact(Level(x, rate, now), now)
  }

  const FULL_RATE := 1000
  const HALF_RATE := 500

  // ----- Never more than the full rate --------------------------------------------------

  /** What the filter's bucket can still let through at time t, in nano-tokens. */
  function Potential(b: Bucket, t: U64): int {
    Min(CAP, b.tokens * NANO + Credit(b, t))
  }

  /** Holds of every stored bucket at every time at or after its last refill. */
  predicate Settled(b: Bucket, t: int) {
    b.tokens < LIMIT && b.lastTime <= t
  }

  lemma CreditGrowth(b: Bucket, t: U64, now: U64)
    requires b.lastTime <= t <= now
    ensures Credit(b, now) <= Credit(b, t) + (now - t) * 1000
  {
    WrapGrowth((t - b.lastTime) * 1000, (now - t) * 1000);
  }

  /** One arrival: time adds at most the full rate, and the packet always costs one token. */
  lemma PotentialStep(b: Bucket, t: U64, now: U64)
    requires Settled(b, t) && t <= now
    ensures var b' := AfterCheck(b, now);
            && Settled(b', now)
            && Potential(b', now) <= Min(CAP, Potential(b, t) + (now - t) * 1000) - NANO
            && (Passes(b, now) ==> 0 <= Potential(b', now))
  {
    CreditGrowth(b, t, now);
  }

  // ----- Never less than half the rate --------------------------------------------------

  /** The refill's product has not wrapped: the gap is shorter than 2^64/1000 ns, 213 days. */
  predicate Fits(b: Bucket, now: U64) {
    b.lastTime <= now && (now - b.lastTime) * 1000 < TWO64
  }

  /** The exact half-rate bucket is never ahead of the filter's bucket. */
  predicate Behind(x: Exact, b: Bucket) {
    && x.level <= CAP
    && b.lastTime <= x.at
    && x.level <= b.tokens * NANO + (x.at - b.lastTime) * HALF_RATE
  }

  lemma BehindStep(b: Bucket, x: Exact, now: U64)
    requires Behind(x, b) && x.at <= now && Fits(b, now) && b.tokens < LIMIT
    ensures Behind(Charged(x, HALF_RATE, now), AfterCheck(b, now))
    ensures Affords(x, HALF_RATE, now) ==> Passes(b, now)
  {
    assert Credit(b, now) == (now - b.lastTime) * 1000;
  }

  /**
   Exactly when a packet passes: the tokens and what the wrapped product earns make one at
   least. While nothing wraps, that is a token for each whole millisecond.
   */
  lemma PassesIff(b: Bucket, now: U64)
    requires Settled(b, now)
    ensures Passes(b, now) <==> b.tokens + (now - b.lastTime) * 1000 % TWO64 / NANO >= 1
    ensures Fits(b, now) ==> (Passes(b, now) <==> b.tokens + (now - b.lastTime) / 1_000_000 >= 1)
  {
    assert Credit(b, now) == (now - b.lastTime) * 1000 % TWO64;
  }

  /** What a packet leaves in the bucket, for all times and all words: nothing earned is kept for later, or all of it is taken. */
  lemma AfterCheckIs(b: Bucket, now: U64)
    ensures var earned := (now - b.lastTime) % TWO64 * 1000 % TWO64 / 1_000_000_000;
            AfterCheck(b, now)
              == if earned == 0 then Bucket(b.lastTime, b.tokens - 1) else Bucket(now, Min(b.tokens + earned, 1000) - 1)
  {
  }

  /** What an exact bucket of the full rate would find: all the time since the last refill, and the cap. */
  function Due(b: Bucket, now: U64): int {
    Min(CAP, b.tokens * NANO + (now - b.lastTime) * 1000)
  }

  /**
   The refill is 1000 tokens a second exactly if and only if the cap swallows the remainder, or
   nothing wraps and there is no remainder: no whole millisecond has gone by, or whole ones only.
   */
  lemma RefillIsExactIff(b: Bucket, now: U64)
    requires Settled(b, now)
    ensures Potential(AfterCheck(b, now), now) <= Due(b, now) - NANO
    ensures Potential(AfterCheck(b, now), now) == Due(b, now) - NANO <==>
              || b.tokens * NANO + Credit(b, now) >= CAP
              || (Fits(b, now) && (now - b.lastTime < 1_000_000 || (now - b.lastTime) % 1_000_000 == 0))
  {
    var earned := (now - b.lastTime) * 1000;
    ProductWraps(earned);
    assert Credit(Bucket(now, 0), now) == 0;
    WholeMilliseconds(now - b.lastTime);
  }

  lemma WholeMilliseconds(elapsed: nat)
    ensures elapsed % 1_000_000 == 0 <==> elapsed * 1000 % NANO == 0
  {
  }

  lemma ProductWraps(p: nat)
    ensures p % TWO64 <= p && (p % TWO64 == p <==> p < TWO64)
  {
  }

  // ----- Whole traces -------------------------------------------------------------------

  /** The filter's verdicts on the arrival times ts. */
  function Verdicts(b: Bucket, ts: seq<U64>): (vs: seq<bool>)
    ensures |vs| == |ts|
    decreases |ts|
  {
    if ts == [] then [] else [Passes(b, ts[0])] + Verdicts(AfterCheck(b, ts[0]), ts[1..])
  }

  function BucketAfter(b: Bucket, ts: seq<U64>): Bucket
    decreases |ts|
  {
    if ts == [] then b else BucketAfter(AfterCheck(b, ts[0]), ts[1..])
  }

  function ChargedVerdicts(x: Exact, rate: nat, ts: seq<U64>): (vs: seq<bool>)
    ensures |vs| == |ts|
    decreases |ts|
  {
    if ts == [] then [] else [Affords(x, rate, ts[0])] + ChargedVerdicts(Charged(x, rate, ts[0]), rate, ts[1..])
  }

  function PolicedVerdicts(x: Exact, rate: nat, ts: seq<U64>): (vs: seq<bool>)
    ensures |vs| == |ts|
    decreases |ts|
  {
    if ts == [] then [] else [Affords(x, rate, ts[0])] + PolicedVerdicts(Policed(x, rate, ts[0]), rate, ts[1..])
  }

  /** Every refill on the trace is computed without a wrap. */
  predicate AllFit(b: Bucket, ts: seq<U64>)
    decreases |ts|
  {
    ts == [] || (Fits(b, ts[0]) && AllFit(AfterCheck(b, ts[0]), ts[1..]))
  }

  /** No refill wraps in the first 2^64/1000 ns of the clock. */
  lemma {:induction false} EarlyStampsFit(b: Bucket, ts: seq<U64>, t: int)
    requires Settled(b, t) && Nondecreasing(ts, t) && forall i :: 0 <= i < |ts| ==> ts[i] * 1000 < TWO64
    ensures AllFit(b, ts)
    decreases |ts|
  {
    if ts != [] {
      EarlyStampsFit(AfterCheck(b, ts[0]), ts[1..], ts[0]);
    }
  }

  ghost predicate Implies(us: seq<bool>, vs: seq<bool>) {
    |us| == |vs| && forall i :: 0 <= i < |us| && us[i] ==> vs[i]
  }

  /** Upper refinement: whatever the filter passes, the full-rate policer passes, wraps included. */
  lemma {:induction false} NeverAboveFullRate(b: Bucket, x: Exact, ts: seq<U64>, t: U64)
    requires Settled(b, t) && Nondecreasing(ts, t)
    requires x.at == t && Potential(b, t) <= x.level
    ensures Implies(Verdicts(b, ts), PolicedVerdicts(x, FULL_RATE, ts))
    decreases |ts|
  {
    if ts != [] {
      var now := ts[0];
      PotentialStep(b, t, now);
      var b', x' := AfterCheck(b, now), Policed(x, FULL_RATE, now);
      NeverAboveFullRate(b', x', ts[1..], now);
      var us, vs := Verdicts(b, ts), PolicedVerdicts(x, FULL_RATE, ts);
      forall i | 0 <= i < |us| && us[i] ensures vs[i] {
        if i > 0 {
          assert us[i] == Verdicts(b', ts[1..])[i - 1];
          assert vs[i] == PolicedVerdicts(x', FULL_RATE, ts[1..])[i - 1];
        }
      }
    }
  }

  /** Lower refinement: the filter passes whatever the half-rate bucket passes, if both charge every packet. */
  lemma {:induction false} NeverBelowHalfRate(b: Bucket, x: Exact, ts: seq<U64>)
    requires Behind(x, b) && b.tokens < LIMIT && Nondecreasing(ts, x.at) && AllFit(b, ts)
    ensures Implies(ChargedVerdicts(x, HALF_RATE, ts), Verdicts(b, ts))
    decreases |ts|
  {
    if ts != [] {
      var now := ts[0];
      BehindStep(b, x, now);
      var b', x' := AfterCheck(b, now), Charged(x, HALF_RATE, now);
      NeverBelowHalfRate(b', x', ts[1..]);
      var us, vs := ChargedVerdicts(x, HALF_RATE, ts), Verdicts(b, ts);
      forall i | 0 <= i < |us| && us[i] ensures vs[i] {
        if i > 0 {
          assert us[i] == ChargedVerdicts(x', HALF_RATE, ts[1..])[i - 1];
          assert vs[i] == Verdicts(b', ts[1..])[i - 1];
        }
      }
    }
  }

  /** The textbook half-rate policer agrees with the charging one until it first drops. */
  lemma {:induction false} ConformingTrafficPasses(b: Bucket, x: Exact, ts: seq<U64>)
    requires Behind(x, b) && b.tokens < LIMIT && Nondecreasing(ts, x.at) && AllFit(b, ts)
    requires forall i :: 0 <= i < |ts| ==> PolicedVerdicts(x, HALF_RATE, ts)[i]
    ensures forall i :: 0 <= i < |ts| ==> Verdicts(b, ts)[i]
  {
    PolicedIsChargedWhileConforming(x, HALF_RATE, ts);
    NeverBelowHalfRate(b, x, ts);
  }

  lemma {:induction false} PolicedIsChargedWhileConforming(x: Exact, rate: nat, ts: seq<U64>)
    requires forall i :: 0 <= i < |ts| ==> PolicedVerdicts(x, rate, ts)[i]
    ensures ChargedVerdicts(x, rate, ts) == PolicedVerdicts(x, rate, ts)
    decreases |ts|
  {
    if ts != [] {
      assert PolicedVerdicts(x, rate, ts)[0];
      var x' := Policed(x, rate, ts[0]);
      forall i | 0 <= i < |ts[1..]| ensures PolicedVerdicts(x', rate, ts[1..])[i] {
        assert PolicedVerdicts(x', rate, ts[1..])[i] == PolicedVerdicts(x, rate, ts)[i + 1];
      }
      PolicedIsChargedWhileConforming(x', rate, ts[1..]);
    }
  }

  /** Both refinements from a source's first packet on, the exact buckets having started full. */
  lemma SandwichFromFirstPacket(first: U64, ts: seq<U64>)
    requires Nondecreasing(ts, first)
    ensures var b, x := Fresh(first), Exact(CAP - NANO, first);
            && Implies(Verdicts(b, ts), PolicedVerdicts(x, FULL_RATE, ts))
            && (AllFit(b, ts) ==> Implies(ChargedVerdicts(x, HALF_RATE, ts), Verdicts(b, ts)))
  {
    var b, x := Fresh(first), Exact(CAP - NANO, first);
    NeverAboveFullRate(b, x, ts, first);
    if AllFit(b, ts) {
      NeverBelowHalfRate(b, x, ts);
    }
  }

  /** Arrivals a millisecond or more apart, the first a millisecond or more after t. */
  predicate Spaced(ts: seq<U64>, t: int)
    decreases |ts|
  {
    ts == [] || (t + 1_000_000 <= ts[0] && Spaced(ts[1..], ts[0]))
  }

  /** A bucket that is not in debt never drops packets that are a millisecond or more apart. */
  lemma {:induction false} SpacedTrafficPasses(b: Bucket, ts: seq<U64>, t: int)
    requires Settled(b, t) && 0 <= b.tokens && Spaced(ts, t) && AllFit(b, ts)
    ensures forall i :: 0 <= i < |ts| ==> Verdicts(b, ts)[i]
    decreases |ts|
  {
    if ts != [] {
      var b' := AfterCheck(b, ts[0]);
      assert Credit(b, ts[0]) == (ts[0] - b.lastTime) * 1000;
      SpacedTrafficPasses(b', ts[1..], ts[0]);
      forall i | 0 < i < |ts| ensures Verdicts(b, ts)[i] {
        assert Verdicts(b, ts)[i] == Verdicts(b', ts[1..])[i - 1];
      }
    }
  }

  // ----- Where the plain claims fail ----------------------------------------------------

  /**
   The half-rate bound needs the charge on dropped packets: a drained source that sends at
   1.999998 ms and again at 2 ms is refused the second time, although the textbook half-rate
   policer refuses only the first of the two.
   */
  lemma HalfRatePolicerIsNotBelow()
    ensures var b, x, ts := Bucket(0, 0), Exact(0, 0), [1_999_998, 2_000_000];
            && Behind(x, b) && AllFit(b, ts)
            && PolicedVerdicts(x, HALF_RATE, ts) == [false, true]
            && Verdicts(b, ts) == [true, false]
  {
    var b, x, ts: seq<U64> := Bucket(0, 0), Exact(0, 0), [1_999_998, 2_000_000];
    assert ts[1..] == [2_000_000];
    var b', x' := AfterCheck(b, ts[0]), Policed(x, HALF_RATE, ts[0]);
    assert b' == Bucket(1_999_998, 0) && x' == Exact(999_999_000, 1_999_998);
    assert Verdicts(b', ts[1..]) == [Passes(b', 2_000_000)] + Verdicts(AfterCheck(b', 2_000_000), []);
    assert PolicedVerdicts(x', HALF_RATE, ts[1..])
        == [Affords(x', HALF_RATE, 2_000_000)] + PolicedVerdicts(Policed(x', HALF_RATE, 2_000_000), HALF_RATE, []);
  }

  /** Arrival times start + gap, start + 2 gap, ... */
  function Paced(start: int, gap: nat, n: nat): (ts: seq<int>)
    ensures |ts| == n
    decreases n
  {
    if n == 0 then [] else [start + gap] + Paced(start + gap, gap, n - 1)
  }

  /** Packets spaced 1999999 ns apart leave a drained bucket drained: they are all it passes. */
  lemma {:induction false} PacedTrafficStarves(start: U64, n: nat)
    requires start + n * 1_999_999 < TWO64
    ensures forall i :: 0 <= i < n ==> 0 <= Paced(start, 1_999_999, n)[i] < TWO64
    ensures BucketAfter(Bucket(start, 0), Paced(start, 1_999_999, n)) == Bucket(start + n * 1_999_999, 0)
    decreases n
  {
    if n > 0 {
      var next := start + 1_999_999;
      PacedTrafficStarves(next, n - 1);
      var ts := Paced(start, 1_999_999, n);
      assert ts[1..] == Paced(next, 1_999_999, n - 1);
      assert forall i :: 0 < i < n ==> ts[i] == Paced(next, 1_999_999, n - 1)[i - 1];
      assert AfterCheck(Bucket(start, 0), next) == Bucket(next, 0);
    }
  }

  function ExactAfter(x: Exact, rate: nat, ts: seq<U64>): Exact
    decreases |ts|
  {
    if ts == [] then x else ExactAfter(Charged(x, rate, ts[0]), rate, ts[1..])
  }

  /** Each of those packets leaves an exact bucket of a higher rate with a surplus. */
  lemma {:induction false} PacedTrafficLeavesSurplus(start: U64, level: nat, rate: nat, n: nat)
    requires rate > HALF_RATE && level <= CAP - NANO && start + n * 1_999_999 < TWO64
    ensures forall i :: 0 <= i < n ==> 0 <= Paced(start, 1_999_999, n)[i] < TWO64
    ensures var x := ExactAfter(Exact(level, start), rate, Paced(start, 1_999_999, n));
            x.at == start + n * 1_999_999 && x.level >= Min(CAP - NANO, level + n * 1_999_499)
    decreases n
  {
    PacedTrafficStarves(start, n);
    if n > 0 {
      var next, ts := start + 1_999_999, Paced(start, 1_999_999, n);
      assert 1_999_999 * rate >= 1_999_999 * 501;
      var x := Charged(Exact(level, start), rate, next);
      assert x.at == next && x.level >= Min(CAP - NANO, level + 1_999_499);
      PacedTrafficLeavesSurplus(next, x.level, rate, n - 1);
      assert ts[0] == next && ts[1..] == Paced(next, 1_999_999, n - 1);
    }
  }

  lemma {:induction false} LastVerdict(b: Bucket, x: Exact, rate: nat, ts: seq<U64>, now: U64)
    ensures Verdicts(b, ts + [now])[|ts|] == Passes(BucketAfter(b, ts), now)
    ensures ChargedVerdicts(x, rate, ts + [now])[|ts|] == Affords(ExactAfter(x, rate, ts), rate, now)
    decreases |ts|
  {
    if ts != [] {
      assert (ts + [now])[1..] == ts[1..] + [now];
      LastVerdict(AfterCheck(b, ts[0]), Charged(x, rate, ts[0]), rate, ts[1..], now);
    }
  }

  /**
   Among whole rates one half is the best: no bucket of more than 500 tokens a second is below
   the filter's. After 502 packets 1999999 ns apart, or more, it can afford another one at
   once, which the filter drops.
   */
  lemma NoHigherRateIsBelow(start: U64, rate: nat, n: nat)
    requires rate > HALF_RATE && n >= 502 && start + n * 1_999_999 < TWO64
    ensures forall i :: 0 <= i < n ==> 0 <= Paced(start, 1_999_999, n)[i] < TWO64
    ensures var b, x, now := Bucket(start, 0), Exact(0, start), start + n * 1_999_999;
            var ts: seq<U64> := Paced(start, 1_999_999, n) + [now];
            && Behind(x, b) && AllFit(b, ts)
            && !Implies(ChargedVerdicts(x, rate, ts), Verdicts(b, ts))
  {
    var b, x, now: U64 := Bucket(start, 0), Exact(0, start), start + n * 1_999_999;
    PacedTrafficStarves(start, n);
    PacedTrafficLeavesSurplus(start, 0, rate, n);
    PacedTrafficFits(start, n, now);
    var ts: seq<U64> := Paced(start, 1_999_999, n);
    AtOnce(ExactAfter(x, rate, ts), rate, now);
    Separated(b, x, rate, ts, now);
  }

  lemma AtOnce(x: Exact, rate: nat, now: U64)
    requires x.at == now && x.level >= NANO
    ensures Affords(x, rate, now) && !Passes(Bucket(now, 0), now)
  {
    assert (now - x.at) * rate == 0;
    assert Credit(Bucket(now, 0), now) == 0;
  }

  lemma Separated(b: Bucket, x: Exact, rate: nat, ts: seq<U64>, now: U64)
    requires Affords(ExactAfter(x, rate, ts), rate, now) && !Passes(BucketAfter(b, ts), now)
    ensures !Implies(ChargedVerdicts(x, rate, ts + [now]), Verdicts(b, ts + [now]))
  {
    LastVerdict(b, x, rate, ts, now);
    var i := |ts|;
    assert ChargedVerdicts(x, rate, ts + [now])[i] && !Verdicts(b, ts + [now])[i];
  }

  lemma {:induction false} PacedTrafficFits(start: U64, n: nat, now: U64)
    requires start + n * 1_999_999 == now
    ensures forall i :: 0 <= i < n ==> 0 <= Paced(start, 1_999_999, n)[i] < TWO64
    ensures AllFit(Bucket(start, 0), Paced(start, 1_999_999, n) + [now])
    decreases n
  {
    PacedTrafficStarves(start, n);
    var ts: seq<U64> := Paced(start, 1_999_999, n) + [now];
    if n > 0 {
      var next := start + 1_999_999;
      assert AfterCheck(Bucket(start, 0), next) == Bucket(next, 0);
      assert ts[0] == next && ts[1..] == Paced(next, 1_999_999, n - 1) + [now];
      PacedTrafficFits(next, n - 1, now);
    }
  }

  /** After 2^64/1000 ns of silence the product wraps to 384, and a drained bucket stays drained. */
  lemma LongSilenceEarnsNothing()
    ensures var b, now: U64 := Bucket(0, 0), 18_446_744_073_709_552;
            !Fits(b, now) && !Passes(b, now) && (now - b.lastTime) / 1_000_000 >= 18_000_000_000
  {
  }

  /** Tokens fall by at most one an arrival, so they fit a signed 64-bit word for 2^62 arrivals and more. */
  lemma {:induction false} TokensStayInWord(b: Bucket, ts: seq<U64>)
    requires b.tokens < LIMIT
    ensures b.tokens - |ts| <= BucketAfter(b, ts).tokens < LIMIT
    decreases |ts|
  {
    if ts != [] {
      TokensStayInWord(AfterCheck(b, ts[0]), ts[1..]);
    }
  }
}
