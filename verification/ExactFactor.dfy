/**
 How fast an exact bucket may be and still never be ahead of the filter's: one token in
 1999999 ns and no faster, at every rational rate.
 */
module ExactFactor {
  import opened Words
  import TB = TokenBucket

  type Bucket = TB.Bucket
  type Exact = TB.Exact

  /** Tokens of `cost` units each, of which `gain` flow in every nanosecond. */
  datatype Rate = Rate(gain: nat, cost: nat)

  /** The longest time, in nanoseconds, that can earn the filter's bucket a single token. */
  const SPAN := 1_999_999

  predicate Slow(r: Rate) {
    r.gain * SPAN <= r.cost
  }

  function Cap(r: Rate): int {
    1000 * r.cost
  }

  /** The units an arrival at `now` finds. */
  function Level(x: Exact, r: Rate, now: int): int {
    Min(Cap(r), x.level + (now - x.at) * r.gain)
  }

  predicate Affords(x: Exact, r: Rate, now: int) {
    Level(x, r, now) >= r.cost
  }

  /** Every arrival is charged, as in the filter. */
  function Charged(x: Exact, r: Rate, now: int): Exact {
    TB.Exact(Level(x, r, now) - r.cost, now)
  }

  function Verdicts(x: Exact, r: Rate, ts: seq<U64>): (vs: seq<bool>)
    ensures |vs| == |ts|
    decreases |ts|
  {
    if ts == [] then [] else [Affords(x, r, ts[0])] + Verdicts(Charged(x, r, ts[0]), r, ts[1..])
  }

  /** The exact bucket is not ahead of the filter's. */
  predicate Behind(x: Exact, r: Rate, b: Bucket) {
    x.level <= Cap(r) && b.lastTime <= x.at && x.level <= b.tokens * r.cost + (x.at - b.lastTime) * r.gain
  }

  // ----- A token in 1999999 ns is slow enough --------------------------------------------

  /** What the exact bucket finds is at most what the filter's bucket has and has earned. */
  lemma LevelIsBelow(b: Bucket, x: Exact, r: Rate, now: U64)
    requires Behind(x, r, b) && x.at <= now
    ensures Level(x, r, now) <= b.tokens * r.cost + (now - b.lastTime) * r.gain
  {
    assert (x.at - b.lastTime) * r.gain + (now - x.at) * r.gain == (now - b.lastTime) * r.gain;
  }

  /** Whole milliseconds earn tokens worth more than all the time earns the exact bucket. */
  lemma WholeTokensAreMore(r: Rate, elapsed: nat)
    requires Slow(r)
    ensures elapsed >= 1_000_000 ==> elapsed * r.gain <= elapsed / 1_000_000 * r.cost
    ensures elapsed < 1_000_000 && 0 < r.cost ==> elapsed * r.gain < r.cost
  {
    var q := elapsed / 1_000_000;
    if elapsed >= 1_000_000 {
      assert elapsed <= q * SPAN;
      Times(elapsed, q * SPAN, r.gain);
      Times(r.gain * SPAN, r.cost, q);
      assert q * SPAN * r.gain == r.gain * SPAN * q;
    } else {
      Times(elapsed, 999_999, r.gain);
      assert 999_999 * r.gain <= r.gain * SPAN;
      assert r.gain > 0 ==> 999_999 * r.gain < r.gain * SPAN;
    }
  }

  lemma Times(a: int, b: int, c: nat)
    requires a <= b
    ensures a * c <= b * c
  {
  }

  lemma BehindStep(b: Bucket, x: Exact, r: Rate, now: U64)
    requires Slow(r) && 0 < r.cost && Behind(x, r, b) && x.at <= now && TB.Fits(b, now) && b.tokens < TB.LIMIT
    ensures Behind(Charged(x, r, now), r, TB.AfterCheck(b, now))
    ensures Affords(x, r, now) ==> TB.Passes(b, now)
  {
    var q := (now - b.lastTime) / 1_000_000;
    AfterCheckIs(b, now, q);
    LevelIsBelow(b, x, r, now);
    WholeTokensAreMore(r, now - b.lastTime);
    if q == 0 {
      Unrefilled(b, x, r, now);
    } else {
      Refilled(b, x, r, now, q);
    }
  }

  /** With no wrap the filter's bucket earns a token for each whole millisecond. */
  lemma AfterCheckIs(b: Bucket, now: U64, q: nat)
    requires TB.Fits(b, now) && b.tokens < TB.LIMIT && q == (now - b.lastTime) / 1_000_000
    ensures TB.AfterCheck(b, now)
         == if q == 0 then b.(tokens := b.tokens - 1) else TB.Bucket(now, Min(b.tokens + q, TB.LIMIT) - 1)
  {
    assert TB.Credit(b, now) == (now - b.lastTime) * 1000;
  }

  lemma Unrefilled(b: Bucket, x: Exact, r: Rate, now: U64)
    requires 0 < r.cost && b.lastTime <= now && TB.AfterCheck(b, now) == b.(tokens := b.tokens - 1)
    requires Level(x, r, now) <= b.tokens * r.cost + (now - b.lastTime) * r.gain && (now - b.lastTime) * r.gain < r.cost
    ensures Behind(Charged(x, r, now), r, TB.AfterCheck(b, now))
    ensures Affords(x, r, now) ==> TB.Passes(b, now)
  {
    assert (b.tokens - 1) * r.cost == b.tokens * r.cost - r.cost;
    if b.tokens <= 0 {
      Times(b.tokens, 0, r.cost);
    }
  }

  lemma Refilled(b: Bucket, x: Exact, r: Rate, now: U64, q: nat)
    requires 0 < r.cost && TB.AfterCheck(b, now) == TB.Bucket(now, Min(b.tokens + q, TB.LIMIT) - 1)
    requires Level(x, r, now) <= b.tokens * r.cost + q * r.cost
    ensures Behind(Charged(x, r, now), r, TB.AfterCheck(b, now))
    ensures Affords(x, r, now) ==> TB.Passes(b, now)
  {
    assert b.tokens * r.cost + q * r.cost == (b.tokens + q) * r.cost;
    assert (b.tokens + q - 1) * r.cost == (b.tokens + q) * r.cost - r.cost;
    if b.tokens + q <= 0 {
      Times(b.tokens + q, 0, r.cost);
    }
  }

  lemma {:induction false} NeverBelow(b: Bucket, x: Exact, r: Rate, ts: seq<U64>)
    requires Slow(r) && 0 < r.cost && Behind(x, r, b) && b.tokens < TB.LIMIT
    requires Nondecreasing(ts, x.at) && TB.AllFit(b, ts)
    ensures TB.Implies(Verdicts(x, r, ts), TB.Verdicts(b, ts))
    decreases |ts|
  {
    if ts != [] {
      BehindStep(b, x, r, ts[0]);
      var b', x' := TB.AfterCheck(b, ts[0]), Charged(x, r, ts[0]);
      NeverBelow(b', x', r, ts[1..]);
      var us, vs := Verdicts(x, r, ts), TB.Verdicts(b, ts);
      forall i | 0 <= i < |us| && us[i] ensures vs[i] {
        if i > 0 {
          assert us[i] == Verdicts(x', r, ts[1..])[i - 1];
          assert vs[i] == TB.Verdicts(b', ts[1..])[i - 1];
        }
      }
    }
  }

  // ----- And nothing faster is -----------------------------------------------------------

  function After(x: Exact, r: Rate, ts: seq<U64>): Exact
    decreases |ts|
  {
    if ts == [] then x else After(Charged(x, r, ts[0]), r, ts[1..])
  }

  /** Packets 1999999 ns apart, which the filter's bucket just pays for, leave a faster bucket with a surplus each. */
  lemma {:induction false} PacedTrafficLeavesSurplus(start: U64, level: nat, r: Rate, n: nat)
    requires !Slow(r) && level <= 999 * r.cost && start + n * SPAN < TWO64
    ensures forall i :: 0 <= i < n ==> 0 <= TB.Paced(start, SPAN, n)[i] < TWO64
    ensures var x := After(TB.Exact(level, start), r, TB.Paced(start, SPAN, n));
            x.at == start + n * SPAN && x.level >= Min(999 * r.cost, level + n)
    decreases n
  {
    TB.PacedTrafficStarves(start, n);
    if n > 0 {
      var next, ts := start + SPAN, TB.Paced(start, SPAN, n);
      var x := Charged(TB.Exact(level, start), r, next);
      SurplusStep(start, level, r);
      PacedTrafficLeavesSurplus(next, x.level, r, n - 1);
      assert ts[0] == next && ts[1..] == TB.Paced(next, SPAN, n - 1);
    }
  }

  lemma SurplusStep(start: U64, level: nat, r: Rate)
    requires !Slow(r) && level <= 999 * r.cost
    ensures var x := Charged(TB.Exact(level, start), r, start + SPAN);
            Min(999 * r.cost, level + 1) <= x.level <= 999 * r.cost
  {
    assert (start + SPAN - start) * r.gain == r.gain * SPAN;
  }

  lemma {:induction false} LastVerdict(b: Bucket, x: Exact, r: Rate, ts: seq<U64>, now: U64)
    ensures TB.Verdicts(b, ts + [now])[|ts|] == TB.Passes(TB.BucketAfter(b, ts), now)
    ensures Verdicts(x, r, ts + [now])[|ts|] == Affords(After(x, r, ts), r, now)
    decreases |ts|
  {
    if ts != [] {
      assert (ts + [now])[1..] == ts[1..] + [now];
      LastVerdict(TB.AfterCheck(b, ts[0]), Charged(x, r, ts[0]), r, ts[1..], now);
    }
  }

  /** After as many such packets as a token has units, the faster bucket affords one more at once, which the filter drops. */
  lemma FasterIsAhead(start: U64, r: Rate, now: U64)
    requires !Slow(r) && 0 < r.cost && now == start + r.cost * SPAN
    ensures forall i :: 0 <= i < r.cost ==> 0 <= TB.Paced(start, SPAN, r.cost)[i] < TWO64
    ensures var b, x := TB.Bucket(start, 0), TB.Exact(0, start);
            var ts: seq<U64> := TB.Paced(start, SPAN, r.cost) + [now];
            && Behind(x, r, b) && Nondecreasing(ts, x.at) && TB.AllFit(b, ts)
            && !TB.Implies(Verdicts(x, r, ts), TB.Verdicts(b, ts))
  {
    var b, x := TB.Bucket(start, 0), TB.Exact(0, start);
    TB.PacedTrafficStarves(start, r.cost);
    PacedTrafficLeavesSurplus(start, 0, r, r.cost);
    TB.PacedTrafficFits(start, r.cost, now);
    PacedInOrder(start, r.cost, now);
    var ts: seq<U64> := TB.Paced(start, SPAN, r.cost);
    AtOnce(After(x, r, ts), r, now);
    Separated(b, x, r, ts, now);
  }

  lemma AtOnce(x: Exact, r: Rate, now: U64)
    requires x.at == now && x.level >= r.cost
    ensures Affords(x, r, now) && !TB.Passes(TB.Bucket(now, 0), now)
  {
    assert (now - x.at) * r.gain == 0;
    assert TB.Credit(TB.Bucket(now, 0), now) == 0;
  }

  lemma Separated(b: Bucket, x: Exact, r: Rate, ts: seq<U64>, now: U64)
    requires Affords(After(x, r, ts), r, now) && !TB.Passes(TB.BucketAfter(b, ts), now)
    ensures !TB.Implies(Verdicts(x, r, ts + [now]), TB.Verdicts(b, ts + [now]))
  {
    LastVerdict(b, x, r, ts, now);
    var i := |ts|;
    assert Verdicts(x, r, ts + [now])[i] && !TB.Verdicts(b, ts + [now])[i];
  }

  lemma {:induction false} PacedInOrder(start: U64, n: nat, now: U64)
    requires start + n * SPAN == now
    ensures forall i :: 0 <= i < n ==> 0 <= TB.Paced(start, SPAN, n)[i] < TWO64
    ensures Nondecreasing(TB.Paced(start, SPAN, n) + [now], start)
    decreases n
  {
    TB.PacedTrafficStarves(start, n);
    var ts: seq<U64> := TB.Paced(start, SPAN, n) + [now];
    if n > 0 {
      var next := start + SPAN;
      PacedInOrder(next, n - 1, now);
      assert ts == [next] + (TB.Paced(next, SPAN, n - 1) + [now]);
      LaterStill(start, next, TB.Paced(next, SPAN, n - 1) + [now]);
    }
  }

  lemma LaterStill(start: int, first: U64, ts: seq<U64>)
    requires start <= first && Nondecreasing(ts, first)
    ensures Nondecreasing([first] + ts, start)
  {
    var all := [first] + ts;
    assert forall i :: 1 <= i < |all| ==> all[i] == ts[i - 1];
  }

  /** From every bucket, on every trace without a wrap: what the exact bucket affords, the filter passes. */
  ghost predicate AlwaysBelow(r: Rate) {
    forall b: Bucket, x: Exact, ts: seq<U64> ::
      Behind(x, r, b) && b.tokens < TB.LIMIT && Nondecreasing(ts, x.at) && TB.AllFit(b, ts) ==>
        TB.Implies(Verdicts(x, r, ts), TB.Verdicts(b, ts))
  }

  /** The exact factor: a bucket is below the filter's if and only if it earns at most a token in 1999999 ns. */
  lemma BelowIffSlow(r: Rate)
    requires 0 < r.cost && r.cost * SPAN < TWO64
    ensures AlwaysBelow(r) <==> Slow(r)
  {
    if Slow(r) {
      forall b: Bucket, x: Exact, ts: seq<U64> |
        Behind(x, r, b) && b.tokens < TB.LIMIT && Nondecreasing(ts, x.at) && TB.AllFit(b, ts)
        ensures TB.Implies(Verdicts(x, r, ts), TB.Verdicts(b, ts))
      {
        NeverBelow(b, x, r, ts);
      }
    } else {
      FasterIsAhead(0, r, r.cost * SPAN);
    }
  }
}
