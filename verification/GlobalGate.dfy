/**
 The Shields-Up bucket every packet meets first: refilled at most once in 100 ms, charged for
 every packet it sees, and never more than 100000 tokens in debt.
 */
module GlobalGate {
  import opened Words
  import TB = TokenBucket

  type Bucket = TB.Bucket

  const LIMIT := 500_000
  const DEBT := 100_000
  const PERIOD := 100_000_000

  function Credit(b: Bucket, now: U64): U64 {
    Mul64(Sub64(now, b.lastTime), 500_000)
  }

  function Refill(b: Bucket, now: U64): Bucket {
    if Sub64(now, b.lastTime) > PERIOD
    then TB.Bucket(now, Min(b.tokens + Credit(b, now) / NANO, LIMIT))
    else b
  }

  function AfterCheck(b: Bucket, now: U64): Bucket {
    var r := Refill(b, now);
    TB.Bucket(r.lastTime, Max(r.tokens - 1, -DEBT))
  }

  predicate Passes(b: Bucket, now: U64) {
    AfterCheck(b, now).tokens >= 0
  }

  /** The bucket's bounds after any packet; the zeroed map entry at load time meets them too. */
  predicate Settled(b: Bucket, t: int) {
    -DEBT <= b.tokens < LIMIT && b.lastTime <= t
  }

  /** The array-map entry, updated in place. */
  class Gate {
    var lastTime: U64
    var tokens: int

    constructor ()
      ensures Value() == TB.Bucket(0, 0)
    {
      lastTime, tokens := 0, 0;
    }

    function Value(): Bucket
      reads this
    {
      TB.Bucket(lastTime, tokens)
    }

    method Check(now: U64) returns (drop: bool)
      modifies this
      ensures Value() == AfterCheck(old(Value()), now)
      ensures drop == !Passes(old(Value()), now)
    {
      var elapsed := Sub64(now, lastTime);
      if elapsed > PERIOD {
        var refill := Mul64(elapsed, LIMIT) / NANO;
        lastTime := now;
        tokens := tokens + refill;
        if tokens > LIMIT {
          tokens := LIMIT;
        }
      }
      tokens := tokens - 1;
      drop := tokens < 0;
      if drop {
        if tokens < -DEBT {
          tokens := -DEBT;
        }
      }
    }
  }

  // ----- How much it lets through --------------------------------------------------------

  function Potential(b: Bucket, t: U64): int {
    b.tokens * NANO + Credit(b, t)
  }

  lemma CreditGrowth(b: Bucket, t: U64, now: U64)
    requires b.lastTime <= t <= now
    ensures Credit(b, now) <= Credit(b, t) + (now - t) * 500_000
  {
    WrapGrowth((t - b.lastTime) * 500_000, (now - t) * 500_000);
  }

  lemma PotentialStep(b: Bucket, t: U64, now: U64)
    requires Settled(b, t) && t <= now
    ensures var b' := AfterCheck(b, now);
            && Settled(b', now)
            && (Passes(b, now) ==> Potential(b', now) <= Potential(b, t) + (now - t) * 500_000 - NANO)
            && (!Passes(b, now) ==> Potential(b', now) <= Potential(b, t) + (now - t) * 500_000)
            && (Passes(b, now) ==> 0 <= Potential(b', now))
  {
    CreditGrowth(b, t, now);
  }

  /** The number of the arrivals ts that clear the gate. */
  function PassCount(b: Bucket, ts: seq<U64>): nat
    decreases |ts|
  {
    if ts == [] then 0
    else (if Passes(b, ts[0]) then 1 else 0) + PassCount(AfterCheck(b, ts[0]), ts[1..])
  }

  lemma {:induction false} PassesCostPotential(b: Bucket, t: U64, ts: seq<U64>, e: U64)
    requires Settled(b, t) && Nondecreasing(ts, t) && t <= e && (forall i :: 0 <= i < |ts| ==> ts[i] <= e)
    ensures PassCount(b, ts) * NANO <= Max(0, Potential(b, t) + (e - t) * 500_000)
    decreases |ts|
  {
    if ts != [] {
      var now := ts[0];
      PotentialStep(b, t, now);
      PassesCostPotential(AfterCheck(b, now), now, ts[1..], e);
    }
  }

  /** The first arrival of a window leaves at most 549998 tokens' worth of potential behind it. */
  lemma FirstArrival(b: Bucket, s: U64, now: U64)
    requires Settled(b, s) && s <= now
    ensures Potential(AfterCheck(b, now), now) <= 549_998 * NANO
  {
    assert Credit(TB.Bucket(now, 0), now) == 0;
    if Sub64(now, b.lastTime) <= PERIOD {
      assert (now - b.lastTime) * 500_000 <= 50_000 * NANO;
    }
  }

  /**
   At most 549999 packets clear the gate at one instant, and 500000 more in each further
   second, from any reachable bucket and with the 64-bit product wrapping or not.
   */
  lemma WindowBound(b: Bucket, ts: seq<U64>, s: U64, e: U64)
    requires Settled(b, s) && s <= e && Nondecreasing(ts, s) && (forall i :: 0 <= i < |ts| ==> ts[i] <= e)
    ensures PassCount(b, ts) <= 549_999 + (e - s) * 500_000 / NANO
  {
    if ts != [] {
      var now := ts[0];
      FirstArrival(b, s, now);
      PotentialStep(b, s, now);
      PassesCostPotential(AfterCheck(b, now), now, ts[1..], e);
      assert (e - now) * 500_000 <= (e - s) * 500_000;
    }
  }

  function Copies(now: U64, n: nat): (ts: seq<U64>)
    ensures |ts| == n
  {
    seq(n, _ => now)
  }

  /** Between refills a burst is passed as long as the tokens last. */
  lemma {:induction false} BurstPasses(b: Bucket, now: U64, n: nat, rest: seq<U64>)
    requires Sub64(now, b.lastTime) <= PERIOD && n <= b.tokens
    ensures PassCount(b, Copies(now, n) + rest) == n + PassCount(b.(tokens := b.tokens - n), rest)
    decreases n
  {
    if n == 0 {
      assert Copies(now, n) + rest == rest;
    } else {
      var b' := AfterCheck(b, now);
      assert b' == b.(tokens := b.tokens - 1);
      BurstPasses(b', now, n - 1, rest);
      assert (Copies(now, n) + rest)[1..] == Copies(now, n - 1) + rest;
    }
  }

  /** The bound is met after load: 549999 packets clear the gate within one nanosecond. */
  lemma WindowBoundIsMet()
    ensures var b, s := AfterCheck(TB.Bucket(0, 0), NANO), NANO + PERIOD;
            var ts := Copies(s, 499_999) + Copies(s + 1, 50_000);
            Settled(b, s) && Nondecreasing(ts, s) && PassCount(b, ts) == 549_999
  {
    var b, s: U64 := TB.Bucket(NANO, 499_999), NANO + PERIOD;
    assert b == AfterCheck(TB.Bucket(0, 0), NANO);
    var later := Copies(s + 1, 50_000);
    BurstPasses(b, s, 499_999, later);
    assert later[1..] == Copies(s + 1, 49_999);
    var refilled := AfterCheck(TB.Bucket(NANO, 0), s + 1);
    assert refilled == TB.Bucket(s + 1, 49_999);
    BurstPasses(refilled, s + 1, 49_999, []);
    assert Copies(s + 1, 49_999) + [] == later[1..];
  }

  // ----- When it shuts and when it opens again -------------------------------------------

  /** What a packet leaves in the gate: the whole refill if one is due, less one token, between the cap and the floor. */
  lemma AfterCheckIs(b: Bucket, now: U64)
    ensures var elapsed := (now - b.lastTime) % TWO64;
            AfterCheck(b, now)
              == if elapsed > 100_000_000
                 then TB.Bucket(now, Max(Min(b.tokens + elapsed * 500_000 % TWO64 / NANO, 500_000) - 1, -100_000))
                 else TB.Bucket(b.lastTime, Max(b.tokens - 1, -100_000))
    ensures b.lastTime <= now && (now - b.lastTime) * 500_000 < TWO64 ==>
            AfterCheck(b, now)
              == if now - b.lastTime > 100_000_000
                 then TB.Bucket(now, Max(Min(b.tokens + (now - b.lastTime) / 2_000, 500_000) - 1, -100_000))
                 else TB.Bucket(b.lastTime, Max(b.tokens - 1, -100_000))
  {
  }

  /**
   Exactly when a packet clears the gate: a token is left, or more than 100 ms have gone by
   since the last refill and what the wrapped product earns makes one. While nothing wraps,
   that is a token for each whole 2000 ns.
   */
  lemma PassesIff(b: Bucket, now: U64)
    requires Settled(b, now)
    ensures Passes(b, now) <==>
              || b.tokens >= 1
              || (now - b.lastTime > PERIOD && b.tokens + (now - b.lastTime) * 500_000 % TWO64 / NANO >= 1)
    ensures (now - b.lastTime) * 500_000 < TWO64 ==>
              (Passes(b, now) <==>
                 b.tokens >= 1 || (now - b.lastTime > PERIOD && b.tokens + (now - b.lastTime) / 2_000 >= 1))
  {
    assert Credit(b, now) == (now - b.lastTime) * 500_000 % TWO64;
  }

  /** However deep the debt, 200.002 ms of silence reopen the gate. */
  lemma SilenceReopens(b: Bucket, t: int, now: U64)
    requires Settled(b, t) && t + 200_002_000 <= now && (now - b.lastTime) * 500_000 < TWO64
    ensures Passes(b, now)
  {
    PassesIff(b, now);
  }

  /** At the debt floor no shorter silence since the last refill will do. */
  lemma FloorReopensIff(b: Bucket, now: U64)
    requires Settled(b, now) && b.tokens == -DEBT && (now - b.lastTime) * 500_000 < TWO64
    ensures Passes(b, now) <==> now - b.lastTime >= 200_002_000
  {
    PassesIff(b, now);
  }

  function BucketAfter(b: Bucket, ts: seq<U64>): Bucket
    decreases |ts|
  {
    if ts == [] then b else BucketAfter(AfterCheck(b, ts[0]), ts[1..])
  }

  /** A burst takes a token a packet, down to the debt floor. */
  lemma {:induction false} BurstDrains(b: Bucket, now: U64, n: nat)
    requires Sub64(now, b.lastTime) <= PERIOD && -DEBT <= b.tokens
    ensures BucketAfter(b, Copies(now, n)) == b.(tokens := Max(b.tokens - n, -DEBT))
    decreases n
  {
    if n > 0 {
      BurstDrains(AfterCheck(b, now), now, n - 1);
      assert Copies(now, n)[1..] == Copies(now, n - 1);
    }
  }

  /** The nano-tokens in hand and earned since the last refill, with no wrap. */
  function Reserve(b: Bucket, t: int): int {
    b.tokens * NANO + (t - b.lastTime) * 500_000
  }

  /** Each arrival is at most gap nanoseconds after the one before it, the first after t. */
  predicate Within(ts: seq<U64>, t: int, gap: nat)
    decreases |ts|
  {
    ts == [] || (t <= ts[0] <= t + gap && Within(ts[1..], ts[0], gap))
  }

  lemma {:induction false} WithinWeaken(ts: seq<U64>, t: int, gap: nat, wider: nat)
    requires Within(ts, t, gap) && gap <= wider
    ensures Within(ts, t, wider)
    decreases |ts|
  {
    if ts != [] {
      WithinWeaken(ts[1..], ts[0], gap, wider);
    }
  }

  lemma ReserveStep(b: Bucket, t: U64, now: U64)
    requires Settled(b, t) && t <= now <= t + 2_000 && (Reserve(b, t) < 0 || t - b.lastTime <= PERIOD)
    ensures var b' := AfterCheck(b, now);
            && Settled(b', now)
            && (Reserve(b, t) < 0 ==> !Passes(b, now) && Reserve(b', now) < 0)
            && (0 <= Reserve(b, t) ==> Reserve(b', now) <= Max(-1, Reserve(b, t) + (now - t) * 500_000 - NANO))
            && (t - b.lastTime <= PERIOD ==> now - b'.lastTime <= PERIOD)
  {
    assert (now - b.lastTime) * 500_000 < TWO64;
    assert Credit(b, now) == (now - b.lastTime) * 500_000;
  }

  /**
   Because dropped packets are charged too, the gate is a shutter and not a limiter at 500000:
   once in debt for more than it has earned, it drops every packet for as long as they keep
   coming 2000 ns apart or less.
   */
  lemma {:induction false} FloodKeepsItShut(b: Bucket, t: U64, ts: seq<U64>)
    requires Settled(b, t) && Reserve(b, t) < 0 && Within(ts, t, 2_000)
    ensures PassCount(b, ts) == 0
    decreases |ts|
  {
    if ts != [] {
      ReserveStep(b, t, ts[0]);
      FloodKeepsItShut(AfterCheck(b, ts[0]), ts[0], ts[1..]);
    }
  }

  /**
   A flood of a million packets a second or more is let through at most 1099999 times in all,
   however long it lasts: each packet costs a token and its gap earns at most half of one.
   */
  lemma {:induction false} FloodPassesBounded(b: Bucket, t: U64, ts: seq<U64>)
    requires Settled(b, t) && Within(ts, t, 1_000) && t - b.lastTime <= PERIOD
    ensures PassCount(b, ts) <= Max(0, Reserve(b, t) / 500_000_000 + 1) <= 1_099_999
    decreases |ts|
  {
    if ts != [] {
      ReserveStep(b, t, ts[0]);
      if Reserve(b, t) < 0 {
        WithinWeaken(ts, t, 1_000, 2_000);
        FloodKeepsItShut(b, t, ts);
      } else {
        FloodPassesBounded(AfterCheck(b, ts[0]), ts[0], ts[1..]);
      }
    }
  }

  // ----- What it never drops -------------------------------------------------------------

  /**
   An exact bucket of the gate's size that earns 499990 tokens a second and is charged for
   every arrival. The missing ten make up for the fraction of a token lost at each refill.
   */
  function Level(x: TB.Exact, now: int): int {
    Min(LIMIT * NANO, x.level + (now - x.at) * 499_990)
  }

  function Charged(x: TB.Exact, now: int): TB.Exact {
    TB.Exact(Level(x, now) - NANO, now)
  }

  /** The exact bucket is not ahead of what the gate holds and has earned since its last refill. */
  predicate Behind(x: TB.Exact, b: Bucket) {
    && x.level <= LIMIT * NANO && b.lastTime <= x.at
    && x.level <= b.tokens * NANO + (x.at - b.lastTime) * 499_990
  }

  predicate Fits(b: Bucket, now: U64) {
    b.lastTime <= now && (now - b.lastTime) * 500_000 < TWO64
  }

  predicate AllFit(b: Bucket, ts: seq<U64>)
    decreases |ts|
  {
    ts == [] || (Fits(b, ts[0]) && AllFit(AfterCheck(b, ts[0]), ts[1..]))
  }

  /** An arrival that finds 50000 tokens in the exact bucket, 100 ms worth, clears the gate. */
  lemma BehindStep(b: Bucket, x: TB.Exact, now: U64)
    requires Behind(x, b) && x.at <= now && Fits(b, now)
    ensures Behind(Charged(x, now), AfterCheck(b, now))
    ensures Level(x, now) >= 50_000 * NANO ==> Passes(b, now)
  {
    AfterCheckIs(b, now);
    if now - b.lastTime > PERIOD {
      RefillIsMore(now - b.lastTime);
    }
  }

  lemma RefillIsMore(elapsed: nat)
    requires elapsed > PERIOD
    ensures elapsed * 499_990 <= elapsed / 2_000 * NANO
  {
    var q := elapsed / 2_000;
    assert elapsed <= 2_000 * q + 1_999 && q >= 50_000;
  }

  /** All arrivals find 50000 tokens in the exact bucket. */
  predicate Conforms(ts: seq<U64>, x: TB.Exact)
    decreases |ts|
  {
    ts == [] || (Level(x, ts[0]) >= 50_000 * NANO && Conforms(ts[1..], Charged(x, ts[0])))
  }

  /** The lower law of the gate: arrivals of 499990 a second with bursts of 450000 all clear it. */
  lemma {:induction false} ConformingTrafficClears(b: Bucket, x: TB.Exact, ts: seq<U64>)
    requires Behind(x, b) && Nondecreasing(ts, x.at) && AllFit(b, ts) && Conforms(ts, x)
    ensures PassCount(b, ts) == |ts|
    decreases |ts|
  {
    if ts != [] {
      BehindStep(b, x, ts[0]);
      ConformingTrafficClears(AfterCheck(b, ts[0]), Charged(x, ts[0]), ts[1..]);
    }
  }

  /** The exact bucket's verdict on each arrival, and how many it finds with 50000 tokens. */
  function SureCount(x: TB.Exact, ts: seq<U64>): nat
    decreases |ts|
  {
    if ts == [] then 0 else (if Level(x, ts[0]) >= 50_000 * NANO then 1 else 0) + SureCount(Charged(x, ts[0]), ts[1..])
  }

  /** On any traffic, conforming or not, the gate passes at least the arrivals that find 50000 tokens. */
  lemma {:induction false} PassesAtLeast(b: Bucket, x: TB.Exact, ts: seq<U64>)
    requires Behind(x, b) && Nondecreasing(ts, x.at) && AllFit(b, ts)
    ensures PassCount(b, ts) >= SureCount(x, ts)
    decreases |ts|
  {
    if ts != [] {
      BehindStep(b, x, ts[0]);
      PassesAtLeast(AfterCheck(b, ts[0]), Charged(x, ts[0]), ts[1..]);
    }
  }
}
