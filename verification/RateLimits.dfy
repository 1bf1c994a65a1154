/**
 What the filter guarantees about one source's traffic over whole runs: an upper and a lower
 rate bound, the blacklist latch, and the bounds on alerts and tokens. Each result is proved on
 the source's own machine; the section at the end states the main ones for the whole filter.
 */
module RateLimits {
  import opened Words
  import opened Pipeline
  import opened Sources
  import TB = TokenBucket

  // ----- Counting ------------------------------------------------------------------------

  function Passes(os: seq<Outcome>): nat {
    if os == [] then 0 else (if os[0].Passed() then 1 else 0) + Passes(os[1..])
  }

  predicate LocalInOrder(es: seq<LocalEvent>, t: int)
    decreases |es|
  {
    es == [] || (t <= es[0].now && LocalInOrder(es[1..], es[0].now))
  }

  predicate EndsBy(es: seq<LocalEvent>, e: int) {
    forall f :: f in es ==> f.now <= e
  }

  /** The source is not on the allowlist at the start and is never put there. */
  predicate NeverAllowed(l: Local, es: seq<LocalEvent>) {
    !l.allowed && forall f :: f in es ==> !(f.act.Control? && f.act.act.Allow?)
  }

  function Evictions(es: seq<LocalEvent>): nat {
    if es == [] then 0 else (if es[0].act.Control? && es[0].act.act.EvictRate? then 1 else 0) + Evictions(es[1..])
  }

  /** The outcome of the first event, if it is a packet. */
  function Fate(l: Local, e: LocalEvent): Option<Outcome> {
    if e.act.Cleared? then Some(LocalInspect(l, e.now, e.act.protocol, e.act.writes).1) else None
  }

  /** First packets whose bucket the map had no room for: they pass and are not charged. */
  function Uncharged(l: Local, es: seq<LocalEvent>): nat
    decreases |es|
  {
    if es == [] then 0
    else
      (if Fate(l, es[0]) == Some(FirstPass) && !es[0].act.writes.rate then 1 else 0)
      + Uncharged(LocalStep(l, es[0]), es[1..])
  }

  /** Drops whose blacklist entry the map had no room for. */
  function Unlatched(l: Local, es: seq<LocalEvent>): nat
    decreases |es|
  {
    if es == [] then 0
    else
      (if Fate(l, es[0]) == Some(BucketDrop) && !es[0].act.writes.blacklist then 1 else 0)
      + Unlatched(LocalStep(l, es[0]), es[1..])
  }

  function Unblocks(es: seq<LocalEvent>): nat {
    if es == [] then 0 else (if es[0].act.Control? && es[0].act.act.Unblock? then 1 else 0) + Unblocks(es[1..])
  }

  lemma PassesStep(l: Local, es: seq<LocalEvent>)
    requires es != []
    ensures var rest := LocalOutcomes(LocalStep(l, es[0]), es[1..]);
            Passes(LocalOutcomes(l, es))
              == Passes(rest) + if Fate(l, es[0]).Some? && Fate(l, es[0]).value.Passed() then 1 else 0
  {
    var rest := LocalOutcomes(LocalStep(l, es[0]), es[1..]);
    if es[0].act.Cleared? {
      var o := LocalInspect(l, es[0].now, es[0].act.protocol, es[0].act.writes).1;
      assert ([o] + rest)[1..] == rest;
    } else {
      assert [] + rest == rest;
    }
  }

  // ----- Upper bound ---------------------------------------------------------------------

  predicate LocalSettled(l: Local, t: int) {
    l.bucket.Some? ==> TB.Settled(l.bucket.value, t)
  }

  /** What the source's bucket can still let through at time t; a missing bucket counts as full. */
  function Headroom(l: Local, t: U64): int {
    if l.bucket.None? then TB.CAP else Max(0, TB.Potential(l.bucket.value, t))
  }

  lemma HeadroomStep(l: Local, t: U64, e: LocalEvent)
    requires LocalSettled(l, t) && t <= e.now && NeverAllowed(l, [e])
    ensures var l', passed := LocalStep(l, e), Fate(l, e).Some? && Fate(l, e).value.Passed();
            && LocalSettled(l', e.now)
            && Headroom(l', e.now) + (if passed then NANO else 0)
                 <= Headroom(l, t) + (e.now - t) * 1000 + Evictions([e]) * TB.CAP + Uncharged(l, [e]) * NANO
  {
    assert e in [e];
    HeadroomIdles(l, t, e.now);
    if e.act.Cleared? {
      HeadroomSpent(l, t, e);
    }
  }

  /** Without a packet the headroom grows at the full rate. */
  lemma HeadroomIdles(l: Local, t: U64, now: U64)
    requires LocalSettled(l, t) && t <= now
    ensures LocalSettled(l, now) && Headroom(l, now) <= Headroom(l, t) + (now - t) * 1000
    ensures Headroom(l, now) <= TB.CAP
  {
    if l.bucket.Some? {
      TB.CreditGrowth(l.bucket.value, t, now);
    }
  }

  /** A packet that passes takes a token of it, unless its bucket found no room. */
  lemma HeadroomSpent(l: Local, t: U64, e: LocalEvent)
    requires LocalSettled(l, t) && t <= e.now && !l.allowed && e.act.Cleared?
    ensures LocalSettled(LocalStep(l, e), e.now)
    ensures Headroom(LocalStep(l, e), e.now) + (if Fate(l, e).value.Passed() then NANO else 0)
         <= Headroom(l, t) + (e.now - t) * 1000 + Uncharged(l, [e]) * NANO
  {
    HeadroomIdles(l, t, e.now);
    if l.bucket.Some? {
      TB.PotentialStep(l.bucket.value, t, e.now);
    }
  }

  lemma StillNeverAllowed(l: Local, es: seq<LocalEvent>)
    requires es != [] && NeverAllowed(l, es)
    ensures NeverAllowed(l, [es[0]]) && NeverAllowed(LocalStep(l, es[0]), es[1..])
  {
    assert es[0] in es;
  }

  lemma {:induction false} PassesCostHeadroom(l: Local, t: U64, es: seq<LocalEvent>, e: U64)
    requires LocalSettled(l, t) && LocalInOrder(es, t) && EndsBy(es, e) && t <= e && NeverAllowed(l, es)
    ensures Passes(LocalOutcomes(l, es)) * NANO
         <= Headroom(l, t) + (e - t) * 1000 + Evictions(es) * TB.CAP + Uncharged(l, es) * NANO
    decreases |es|
  {
    if es != [] {
      var l', now := LocalStep(l, es[0]), es[0].now;
      StillNeverAllowed(l, es);
      HeadroomStep(l, t, es[0]);
      PassesCostHeadroom(l', now, es[1..], e);
      PassesStep(l, es);
      assert Evictions(es) == Evictions([es[0]]) + Evictions(es[1..]);
      assert Uncharged(l, es) == Uncharged(l, [es[0]]) + Uncharged(l', es[1..]);
    }
  }

  /** In a window [s, e]: a full bucket for a start and for each eviction, and 1000 packets a second. */
  lemma LocalRateBound(l: Local, s: U64, es: seq<LocalEvent>, e: U64)
    requires LocalSettled(l, s) && LocalInOrder(es, s) && EndsBy(es, e) && s <= e && NeverAllowed(l, es)
    ensures (Passes(LocalOutcomes(l, es)) - Uncharged(l, es)) * NANO
         <= (Evictions(es) + 1) * TB.CAP + (e - s) * 1000
  {
    PassesCostHeadroom(l, s, es, e);
  }

  // ----- Refinement between exact buckets ------------------------------------------------

  /** The packet got to the source's token bucket. */
  predicate Judged(l: Local, e: LocalEvent) {
    Fate(l, e).Some? && Fate(l, e).value.Metered() && !Fate(l, e).value.BlackDrop?
  }

  /** The exact full-rate policer beside the bucket: full again whenever the source has no bucket. */
  function Ceiling(l: Local, e: LocalEvent, hi: TB.Exact): TB.Exact {
    if LocalStep(l, e).bucket.None? then TB.Exact(TB.CAP, e.now)
    else if Judged(l, e) then TB.Policed(hi, TB.FULL_RATE, e.now)
    else hi
  }

  /** Every judged packet the filter passes, the full-rate policer passes. */
  predicate BelowCeiling(l: Local, es: seq<LocalEvent>, hi: TB.Exact)
    decreases |es|
  {
    es == [] || (
      && (Judged(l, es[0]) && Fate(l, es[0]).value.Passed() ==> TB.Affords(hi, TB.FULL_RATE, es[0].now))
      && BelowCeiling(LocalStep(l, es[0]), es[1..], Ceiling(l, es[0], hi)))
  }

  predicate CeilingHolds(l: Local, hi: TB.Exact, t: int) {
    && hi.at <= t
    && (l.bucket.None? ==> hi.level == TB.CAP)
    && (l.bucket.Some? ==>
          && 0 <= hi.at < TWO64 && TB.Settled(l.bucket.value, hi.at)
          && TB.Potential(l.bucket.value, hi.at) <= hi.level)
  }

  lemma {:induction false} PassesOnlyAtFullRate(l: Local, es: seq<LocalEvent>, hi: TB.Exact, t: int)
    requires LocalInOrder(es, t) && CeilingHolds(l, hi, t)
    ensures BelowCeiling(l, es, hi)
    decreases |es|
  {
    if es != [] {
      if l.bucket.Some? {
        TB.PotentialStep(l.bucket.value, hi.at, es[0].now);
      }
      PassesOnlyAtFullRate(LocalStep(l, es[0]), es[1..], Ceiling(l, es[0], hi), es[0].now);
    }
  }

  /** No refill of the source's bucket wraps. */
  predicate RefillsFit(l: Local, es: seq<LocalEvent>)
    decreases |es|
  {
    es == [] || (
      && (Judged(l, es[0]) && l.bucket.Some? ==> TB.Fits(l.bucket.value, es[0].now))
      && RefillsFit(LocalStep(l, es[0]), es[1..]))
  }

  /** No refill wraps in the first 2^64/1000 ns of the clock, 213 days after boot. */
  lemma {:induction false} EarlyStampsFit(l: Local, es: seq<LocalEvent>, t: int)
    requires LocalSettled(l, t) && LocalInOrder(es, t) && forall f :: f in es ==> f.now * 1000 < TWO64
    ensures RefillsFit(l, es)
    decreases |es|
  {
    if es != [] {
      assert es[0] in es;
      EarlyStampsFit(LocalStep(l, es[0]), es[1..], es[0].now);
    }
  }

  function Floor(l: Local, e: LocalEvent, lo: TB.Exact): TB.Exact {
    if Judged(l, e) then TB.Charged(lo, TB.HALF_RATE, e.now) else lo
  }

  /** Every judged packet the half-rate bucket affords, the filter passes; evictions do not reset that bucket. */
  predicate AboveFloor(l: Local, es: seq<LocalEvent>, lo: TB.Exact)
    decreases |es|
  {
    es == [] || (
      && (Judged(l, es[0]) && TB.Affords(lo, TB.HALF_RATE, es[0].now) ==> Fate(l, es[0]).value.Passed())
      && AboveFloor(LocalStep(l, es[0]), es[1..], Floor(l, es[0], lo)))
  }

  predicate FloorHolds(l: Local, lo: TB.Exact, t: int) {
    && lo.at <= t && lo.level <= TB.CAP
    && (l.bucket.Some? ==> TB.Behind(lo, l.bucket.value) && l.bucket.value.tokens < TB.LIMIT)
  }

  lemma FloorStep(l: Local, e: LocalEvent, lo: TB.Exact, t: int)
    requires FloorHolds(l, lo, t) && t <= e.now && RefillsFit(l, [e])
    ensures FloorHolds(LocalStep(l, e), Floor(l, e, lo), e.now)
    ensures Judged(l, e) && TB.Affords(lo, TB.HALF_RATE, e.now) ==> Fate(l, e).value.Passed()
  {
    if Judged(l, e) && l.bucket.Some? {
      TB.BehindStep(l.bucket.value, lo, e.now);
    }
  }

  lemma {:induction false} PassesAtHalfRate(l: Local, es: seq<LocalEvent>, lo: TB.Exact, t: int)
    requires LocalInOrder(es, t) && FloorHolds(l, lo, t) && RefillsFit(l, es)
    ensures AboveFloor(l, es, lo)
    decreases |es|
  {
    if es != [] {
      FloorStep(l, es[0], lo, t);
      PassesAtHalfRate(LocalStep(l, es[0]), es[1..], Floor(l, es[0], lo), es[0].now);
    }
  }

  // ----- No false positives --------------------------------------------------------------

  /** All of the source's packets fit a burst of 1000 and 500 a second. */
  predicate Conforms(es: seq<LocalEvent>, lo: TB.Exact)
    decreases |es|
  {
    es == [] || (
      if es[0].act.Cleared?
      then TB.Affords(lo, TB.HALF_RATE, es[0].now) && Conforms(es[1..], TB.Charged(lo, TB.HALF_RATE, es[0].now))
      else Conforms(es[1..], lo))
  }

  predicate NeverBlockedByHand(es: seq<LocalEvent>) {
    forall f :: f in es ==> !(f.act.Control? && f.act.act.Block?)
  }

  lemma ConformingStep(l: Local, e: LocalEvent, lo: TB.Exact, t: int)
    requires FloorHolds(l, lo, t) && t <= e.now && RefillsFit(l, [e]) && !l.blocked && Conforms([e], lo)
    requires NeverBlockedByHand([e])
    ensures var lo' := if e.act.Cleared? then TB.Charged(lo, TB.HALF_RATE, e.now) else lo;
            FloorHolds(LocalStep(l, e), lo', e.now)
    ensures !LocalStep(l, e).blocked && LocalStep(l, e).alerts == l.alerts
    ensures e.act.Cleared? ==> !Fate(l, e).value.BlackDrop? && !Fate(l, e).value.BucketDrop?
  {
    assert e in [e];
    FloorStep(l, e, lo, t);
  }

  /** Conforming traffic is never blacklisted, never alerted on, and dropped by nothing but the protocol filter. */
  lemma {:induction false} ConformingSourceIsNeverBlocked(l: Local, es: seq<LocalEvent>, lo: TB.Exact, t: int)
    requires LocalInOrder(es, t) && FloorHolds(l, lo, t) && RefillsFit(l, es)
    requires !l.blocked && NeverBlockedByHand(es) && Conforms(es, lo)
    ensures !LocalRun(l, es).blocked && LocalRun(l, es).alerts == l.alerts
    ensures forall o :: o in LocalOutcomes(l, es) ==> o.Passed() || o.ProtoDrop?
    decreases |es|
  {
    if es != [] {
      var e := es[0];
      assert e in es && [e][0] == e && [e][1..] == [];
      ConformingStep(l, e, lo, t);
      var lo' := if e.act.Cleared? then TB.Charged(lo, TB.HALF_RATE, e.now) else lo;
      ConformingSourceIsNeverBlocked(LocalStep(l, e), es[1..], lo', e.now);
    }
  }

  /** The source's packets are a millisecond or more apart, the first one after t as well. */
  predicate LocalSpaced(es: seq<LocalEvent>, t: int)
    decreases |es|
  {
    es == [] || (
      if es[0].act.Cleared?
      then t + 1_000_000 <= es[0].now && LocalSpaced(es[1..], es[0].now)
      else LocalSpaced(es[1..], t))
  }

  /** The bucket is not in debt and was last refilled no later than t. */
  predicate Solvent(l: Local, t: int) {
    l.bucket.Some? ==> TB.Settled(l.bucket.value, t) && 0 <= l.bucket.value.tokens
  }

  lemma SpacedStep(l: Local, e: LocalEvent, t: int)
    requires Solvent(l, t) && RefillsFit(l, [e]) && LocalSpaced([e], t) && !l.blocked && NeverBlockedByHand([e])
    ensures Solvent(LocalStep(l, e), if e.act.Cleared? then e.now else t)
    ensures !LocalStep(l, e).blocked && LocalStep(l, e).alerts == l.alerts
    ensures e.act.Cleared? ==> Fate(l, e).value.Passed() || Fate(l, e).value.ProtoDrop?
  {
    assert e in [e];
    if Judged(l, e) && l.bucket.Some? {
      TB.PassesIff(l.bucket.value, e.now);
      assert TB.Credit(l.bucket.value, e.now) == (e.now - l.bucket.value.lastTime) * 1000;
    }
  }

  /** Packets a millisecond or more apart never get a source blocked, however many there are and whatever is evicted. */
  lemma {:induction false} SpacedSourceIsNeverBlocked(l: Local, es: seq<LocalEvent>, t: int)
    requires Solvent(l, t) && RefillsFit(l, es) && LocalSpaced(es, t) && !l.blocked && NeverBlockedByHand(es)
    ensures !LocalRun(l, es).blocked && LocalRun(l, es).alerts == l.alerts
    ensures forall o :: o in LocalOutcomes(l, es) ==> o.Passed() || o.ProtoDrop?
    decreases |es|
  {
    if es != [] {
      var e := es[0];
      assert e in es && [e][0] == e && [e][1..] == [];
      SpacedStep(l, e, t);
      SpacedSourceIsNeverBlocked(LocalStep(l, e), es[1..], if e.act.Cleared? then e.now else t);
    }
  }

  // ----- The blacklist latch -------------------------------------------------------------

  /** Nobody lifts the block: no delete, and no allowlisting. */
  predicate NoAmnesty(es: seq<LocalEvent>) {
    forall f :: f in es && f.act.Control? ==> !f.act.act.Unblock? && !f.act.act.Allow?
  }

  /** A blocked source stays blocked and silent: nothing passes, nothing is charged, nothing is reported. */
  lemma {:induction false} BlockedStaysBlocked(l: Local, es: seq<LocalEvent>)
    requires l.blocked && !l.allowed && NoAmnesty(es)
    ensures var l' := LocalRun(l, es);
            && l'.blocked && !l'.allowed && l'.alerts == l.alerts
            && l'.bucket == (if Evictions(es) == 0 then l.bucket else None)
    ensures forall o :: o in LocalOutcomes(l, es) ==> o.ProtoDrop? || o.BlackDrop?
    decreases |es|
  {
    if es != [] {
      assert es[0] in es;
      BlockedStaysBlocked(LocalStep(l, es[0]), es[1..]);
    }
  }

  /** One alert for each time the block is lifted or could not be recorded, and one more. */
  lemma {:induction false} AlertsBounded(l: Local, es: seq<LocalEvent>)
    ensures l.alerts <= LocalRun(l, es).alerts
         <= l.alerts + (if l.blocked then 0 else 1) + Unblocks(es) + Unlatched(l, es)
    decreases |es|
  {
    if es != [] {
      AlertsBounded(LocalStep(l, es[0]), es[1..]);
    }
  }

  function LastDrop(l: Local, e: LocalEvent, since: int): int {
    if Fate(l, e) == Some(BucketDrop) then e.now else since
  }

  /** Every delete comes at least a millisecond after the drop before it, `since` being the last one so far. */
  predicate Patient(l: Local, es: seq<LocalEvent>, since: int)
    decreases |es|
  {
    es == [] || (
      && (es[0].act.Control? && es[0].act.act.Unblock? ==> since + 1_000_000 <= es[0].now)
      && Patient(LocalStep(l, es[0]), es[1..], LastDrop(l, es[0], since)))
  }

  /** At most one token of debt, and then the source is blocked or has earned the token back. */
  predicate Banded(l: Local, since: int, t: int) {
    l.bucket.Some? ==>
      && TB.Settled(l.bucket.value, t) && -1 <= l.bucket.value.tokens
      && (l.bucket.value.tokens == -1 ==>
            && l.bucket.value.lastTime <= since <= t
            && (l.blocked || since + 1_000_000 <= t))
  }

  lemma BandedStep(l: Local, e: LocalEvent, since: int, t: int)
    requires Banded(l, since, t) && since <= t <= e.now
    requires RefillsFit(l, [e]) && Patient(l, [e], since) && Unlatched(l, [e]) == 0
    ensures Banded(LocalStep(l, e), LastDrop(l, e, since), e.now) && LastDrop(l, e, since) <= e.now
  {
    if Judged(l, e) && l.bucket.Some? {
      TB.PassesIff(l.bucket.value, e.now);
      assert TB.Credit(l.bucket.value, e.now) == (e.now - l.bucket.value.lastTime) * 1000;
    }
  }

  lemma {:induction false} TokensStayBanded(l: Local, es: seq<LocalEvent>, since: int, t: int)
    requires LocalInOrder(es, t) && Banded(l, since, t) && since <= t
    requires RefillsFit(l, es) && Patient(l, es, since) && Unlatched(l, es) == 0
    ensures LocalRun(l, es).bucket.Some? ==> -1 <= LocalRun(l, es).bucket.value.tokens <= 999
    decreases |es|
  {
    if es != [] {
      var e := es[0];
      BandedStep(l, e, since, t);
      TokensStayBanded(LocalStep(l, e), es[1..], LastDrop(l, e, since), e.now);
    }
  }

  // ----- The meter -----------------------------------------------------------------------

  function MeteredCount(os: seq<Outcome>): nat {
    if os == [] then 0 else (if os[0].Metered() then 1 else 0) + MeteredCount(os[1..])
  }

  /** What a 32-bit counter, absent until its first count, shows after n more. */
  function Reading(m: Option<U32>, n: nat): Option<U32> {
    if m.None? && n == 0 then None else Some(((if m.Some? then m.value else 0) + n) % 0x1_0000_0000)
  }

  lemma ReadingAdds(m: Option<U32>, a: nat, b: nat)
    ensures Reading(Reading(m, a), b) == Reading(m, a + b)
  {
    WrapAdd32((if m.Some? then m.value else 0) + a, b);
  }

  /** No count is lost: the LRU map keeps the entry and has room for a new one. */
  predicate MeterKept(es: seq<LocalEvent>) {
    forall f :: f in es ==>
      match f.act case Cleared(_, w) => w.meter case Control(a) => !a.EvictMeter?
  }

  lemma MeteredCountStep(l: Local, es: seq<LocalEvent>)
    requires es != []
    ensures var rest := LocalOutcomes(LocalStep(l, es[0]), es[1..]);
            MeteredCount(LocalOutcomes(l, es))
              == (if Fate(l, es[0]).Some? && Fate(l, es[0]).value.Metered() then 1 else 0) + MeteredCount(rest)
  {
    var rest := LocalOutcomes(LocalStep(l, es[0]), es[1..]);
    if es[0].act.Cleared? {
      assert ([Fate(l, es[0]).value] + rest)[1..] == rest;
    } else {
      assert [] + rest == rest;
    }
  }

  lemma MeterStep(l: Local, e: LocalEvent)
    requires MeterKept([e])
    ensures LocalStep(l, e).meter == Reading(l.meter, if Fate(l, e).Some? && Fate(l, e).value.Metered() then 1 else 0)
  {
    assert e in [e];
  }

  lemma {:induction false} MeterCountsPackets(l: Local, es: seq<LocalEvent>)
    requires MeterKept(es)
    ensures LocalRun(l, es).meter == Reading(l.meter, MeteredCount(LocalOutcomes(l, es)))
    decreases |es|
  {
    if es != [] {
      var e, l' := es[0], LocalStep(l, es[0]);
      assert e in es;
      MeterStep(l, e);
      MeterCountsPackets(l', es[1..]);
      MeteredCountStep(l, es);
      var one := if Fate(l, e).Some? && Fate(l, e).value.Metered() then 1 else 0;
      ReadingAdds(l.meter, one, MeteredCount(LocalOutcomes(l', es[1..])));
    }
  }

  /** What userspace and the evictions do, without the packets. */
  function Controls(es: seq<LocalEvent>): seq<LocalEvent> {
    if es == [] then [] else (if es[0].act.Control? then [es[0]] else []) + Controls(es[1..])
  }

  /** While a source is allowlisted its packets pass and leave no trace: the run is that of the control events alone. */
  lemma {:induction false} AllowedLeavesNoTrace(l: Local, es: seq<LocalEvent>)
    requires l.allowed && forall f :: f in es ==> !(f.act.Control? && f.act.act.Disallow?)
    ensures LocalRun(l, es) == LocalRun(l, Controls(es))
    ensures forall o :: o in LocalOutcomes(l, es) ==> o == AllowPass
    decreases |es|
  {
    if es != [] {
      assert es[0] in es;
      AllowedLeavesNoTrace(LocalStep(l, es[0]), es[1..]);
      var later := Controls(es[1..]);
      if es[0].act.Control? {
        assert ([es[0]] + later)[1..] == later;
      } else {
        assert [] + later == later;
      }
    }
  }

  // ----- The same for the whole filter ---------------------------------------------------

  lemma {:induction false} ProjectInOrder(st: State, es: seq<Event>, x: Addr, t: int)
    requires InOrder(es, t)
    ensures LocalInOrder(Project(st, es, x), t)
    decreases |es|
  {
    if es != [] {
      ProjectInOrder(Step(st, es[0]), es[1..], x, es[0].now);
      var rest := Project(Step(st, es[0]), es[1..], x);
      var seen := Seen(st, es[0], x);
      if seen == [] {
        assert seen + rest == rest;
        Later(rest, t, es[0].now);
      } else {
        assert (seen + rest)[0] == seen[0] && (seen + rest)[1..] == rest;
      }
    }
  }

  lemma Later(es: seq<LocalEvent>, t: int, t': int)
    requires t <= t' && LocalInOrder(es, t')
    ensures LocalInOrder(es, t)
  {
  }

  /** The projected event f shows x's machine the event e of the whole filter. */
  predicate Shows(f: LocalEvent, e: Event, x: Addr) {
    && e.now == f.now
    && match f.act
       case Control(a) => e.act == a && !a.Packet? && (a.SetProto? || a.addr == x)
       case Cleared(p, w) =>
         e.act.Packet? && e.act.writes == w && Source(e.act.frame) == Some(x) && Protocol(e.act.frame) == p
  }

  lemma {:induction false} ProjectOrigin(st: State, es: seq<Event>, x: Addr)
    ensures forall f :: f in Project(st, es, x) ==> exists e :: e in es && Shows(f, e, x)
    decreases |es|
  {
    if es != [] {
      var seen, rest := Seen(st, es[0], x), Project(Step(st, es[0]), es[1..], x);
      ProjectOrigin(Step(st, es[0]), es[1..], x);
      forall f | f in seen + rest ensures exists e :: e in es && Shows(f, e, x) {
        if f in seen {
          assert es[0] in es && Shows(f, es[0], x);
        } else {
          var e :| e in es[1..] && Shows(f, e, x);
          assert e in es;
        }
      }
    }
  }

  /** Holds of the empty maps, and is kept by every event in order. */
  ghost predicate Settled(st: State, t: int) {
    forall a :: a in st.rate ==> TB.Settled(st.rate[a], t)
  }

  function EvictionsOf(es: seq<Event>, x: Addr): nat {
    if es == [] then 0 else (if es[0].act == EvictRate(x) then 1 else 0) + EvictionsOf(es[1..], x)
  }

  lemma {:induction false} EvictionsProject(st: State, es: seq<Event>, x: Addr)
    ensures Evictions(Project(st, es, x)) == EvictionsOf(es, x)
    decreases |es|
  {
    if es != [] {
      EvictionsProject(Step(st, es[0]), es[1..], x);
      var seen, rest := Seen(st, es[0], x), Project(Step(st, es[0]), es[1..], x);
      if seen == [] {
        assert seen + rest == rest;
      } else {
        assert (seen + rest)[0] == seen[0] && (seen + rest)[1..] == rest;
      }
    }
  }

  predicate NeverAllows(st: State, es: seq<Event>, x: Addr) {
    x !in st.allow && forall f :: f in es ==> f.act != Allow(x)
  }

  lemma ProjectInherits(st: State, es: seq<Event>, x: Addr, e: int)
    requires (forall f :: f in es ==> f.now <= e) && NeverAllows(st, es, x)
    ensures EndsBy(Project(st, es, x), e) && NeverAllowed(View(st, x), Project(st, es, x))
  {
    ProjectOrigin(st, es, x);
  }

  /**
   The rate bound, for every interleaving with other sources, evictions and userspace writes,
   less the source's first packets whose bucket finds no room in the map.
   */
  lemma ChargedRateBound(st: State, es: seq<Event>, x: Addr, s: U64, e: U64)
    requires Settled(st, s) && InOrder(es, s) && s <= e && (forall f :: f in es ==> f.now <= e)
    requires NeverAllows(st, es, x)
    ensures (Passes(OutcomesOf(st, es, x)) - Uncharged(View(st, x), Project(st, es, x))) * NANO
         <= (EvictionsOf(es, x) + 1) * TB.CAP + (e - s) * 1000
  {
    Independence(st, es, x);
    ProjectInOrder(st, es, x, s);
    EvictionsProject(st, es, x);
    ProjectInherits(st, es, x, e);
    LocalRateBound(View(st, x), s, Project(st, es, x), e);
  }

  /** The same when the map has room for the source's bucket whenever it needs one. */
  lemma RateBound(st: State, es: seq<Event>, x: Addr, s: U64, e: U64)
    requires Settled(st, s) && InOrder(es, s) && s <= e && (forall f :: f in es ==> f.now <= e)
    requires NeverAllows(st, es, x)
    requires forall f :: f in es && f.act.Packet? && Source(f.act.frame) == Some(x) ==> f.act.writes.rate
    ensures Passes(OutcomesOf(st, es, x)) * NANO <= (EvictionsOf(es, x) + 1) * TB.CAP + (e - s) * 1000
  {
    ChargedRateBound(st, es, x, s, e);
    RoomInherits(st, es, x);
    NothingUncharged(View(st, x), Project(st, es, x));
  }

  lemma RoomInherits(st: State, es: seq<Event>, x: Addr)
    requires forall f :: f in es && f.act.Packet? && Source(f.act.frame) == Some(x) ==> f.act.writes.rate
    ensures forall f :: f in Project(st, es, x) && f.act.Cleared? ==> f.act.writes.rate
  {
    ProjectOrigin(st, es, x);
  }

  lemma {:induction false} NothingUncharged(l: Local, es: seq<LocalEvent>)
    requires forall f :: f in es && f.act.Cleared? ==> f.act.writes.rate
    ensures Uncharged(l, es) == 0
    decreases |es|
  {
    if es != [] {
      assert es[0] in es;
      NothingUncharged(LocalStep(l, es[0]), es[1..]);
    }
  }

  /** No false positives in the whole filter. */
  lemma ConformingSourceIsServed(st: State, es: seq<Event>, x: Addr, lo: TB.Exact, t: int)
    requires InOrder(es, t) && FloorHolds(View(st, x), lo, t) && RefillsFit(View(st, x), Project(st, es, x))
    requires x !in st.black && (forall f :: f in es ==> f.act != Block(x))
    requires Conforms(Project(st, es, x), lo)
    ensures x !in Run(st, es).black
    ensures AlertCount(Run(st, es).alerts, x) == AlertCount(st.alerts, x)
    ensures forall o :: o in OutcomesOf(st, es, x) ==> o.Passed() || o.ProtoDrop?
  {
    Independence(st, es, x);
    ProjectInOrder(st, es, x, t);
    ProjectOrigin(st, es, x);
    ConformingSourceIsNeverBlocked(View(st, x), Project(st, es, x), lo, t);
  }

  /** The latch in the whole filter: a blocked source gets nothing through until somebody lifts the block. */
  lemma BlockedSourceIsSilent(st: State, es: seq<Event>, x: Addr)
    requires x in st.black && NeverAllows(st, es, x) && (forall f :: f in es ==> f.act != Unblock(x))
    ensures x in Run(st, es).black && AlertCount(Run(st, es).alerts, x) == AlertCount(st.alerts, x)
    ensures forall o :: o in OutcomesOf(st, es, x) ==> !o.Passed()
    ensures EvictionsOf(es, x) == 0 ==> View(Run(st, es), x).bucket == View(st, x).bucket
  {
    Independence(st, es, x);
    ProjectOrigin(st, es, x);
    EvictionsProject(st, es, x);
    BlockedStaysBlocked(View(st, x), Project(st, es, x));
  }

  lemma SpacedSourceIsServed(st: State, es: seq<Event>, x: Addr, t: int)
    requires Solvent(View(st, x), t) && LocalSpaced(Project(st, es, x), t) && RefillsFit(View(st, x), Project(st, es, x))
    requires x !in st.black && (forall f :: f in es ==> f.act != Block(x))
    ensures x !in Run(st, es).black && AlertCount(Run(st, es).alerts, x) == AlertCount(st.alerts, x)
    ensures forall o :: o in OutcomesOf(st, es, x) ==> o.Passed() || o.ProtoDrop?
  {
    Independence(st, es, x);
    ProjectOrigin(st, es, x);
    SpacedSourceIsNeverBlocked(View(st, x), Project(st, es, x), t);
  }

  /** The alerts about a source, over any run of the whole filter. */
  lemma AlertsAboutSource(st: State, es: seq<Event>, x: Addr)
    ensures var l, fs := View(st, x), Project(st, es, x);
            AlertCount(st.alerts, x) <= AlertCount(Run(st, es).alerts, x)
              <= AlertCount(st.alerts, x) + (if x in st.black then 0 else 1) + Unblocks(fs) + Unlatched(l, fs)
  {
    Independence(st, es, x);
    AlertsBounded(View(st, x), Project(st, es, x));
  }

  /** The meter of a source shows its metered packets, over any run of the whole filter. */
  lemma MeterOfSource(st: State, es: seq<Event>, x: Addr)
    requires MeterKept(Project(st, es, x))
    ensures View(Run(st, es), x).meter == Reading(View(st, x).meter, MeteredCount(OutcomesOf(st, es, x)))
  {
    Independence(st, es, x);
    MeterCountsPackets(View(st, x), Project(st, es, x));
  }

  /** The band of a source's tokens, over any run of the whole filter. */
  lemma TokensOfSource(st: State, es: seq<Event>, x: Addr, since: int, t: int)
    requires InOrder(es, t) && Banded(View(st, x), since, t) && since <= t
    requires var l, fs := View(st, x), Project(st, es, x);
             RefillsFit(l, fs) && Patient(l, fs, since) && Unlatched(l, fs) == 0
    ensures x in Run(st, es).rate ==> -1 <= Run(st, es).rate[x].tokens <= 999
  {
    Independence(st, es, x);
    ProjectInOrder(st, es, x, t);
    TokensStayBanded(View(st, x), Project(st, es, x), since, t);
    assert x in Run(st, es).rate ==> View(Run(st, es), x).bucket == Some(Run(st, es).rate[x]);
  }

  /** An allowlisted source in any run of the whole filter: past the gate its packets pass and change none of its entries. */
  lemma AllowedSourceLeavesNoTrace(st: State, es: seq<Event>, x: Addr)
    requires x in st.allow && forall f :: f in es ==> f.act != Disallow(x)
    ensures View(Run(st, es), x) == LocalRun(View(st, x), Controls(Project(st, es, x)))
    ensures forall o :: o in OutcomesOf(st, es, x) ==> o == AllowPass
  {
    Independence(st, es, x);
    ProjectOrigin(st, es, x);
    AllowedLeavesNoTrace(View(st, x), Project(st, es, x));
  }
}
