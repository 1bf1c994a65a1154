/**
 Every packet accounted for, and the Shields-Up gate's guarantees carried over to the whole
 filter: allowlisted or not, a packet meets the gate first.
 */
module Accounting {
  import opened Words
  import opened Pipeline
  import opened Sources
  import RL = RateLimits
  import TB = TokenBucket
  import GG = GlobalGate

  function Tally(os: seq<Outcome>, o: Outcome): nat {
    if os == [] then 0 else (if os[0] == o then 1 else 0) + Tally(os[1..], o)
  }

  /** Packets that got past the per-source counter. */
  function Metered(os: seq<Outcome>): nat {
    Tally(os, BlackDrop) + Tally(os, BucketDrop) + Tally(os, BucketPass) + Tally(os, FirstPass)
  }

  /** Packets that reached the per-source pipeline or went round it: those the gate let through. */
  function GatePassed(os: seq<Outcome>): nat {
    Tally(os, OtherPass) + Tally(os, ShortPass) + Tally(os, AllowPass) + Tally(os, ProtoDrop) + Metered(os)
  }

  /** What one event adds to the counts of a run. */
  function CountsAt(st: State, e: Event): (nat, nat) {
    if e.act.Packet? && !e.act.frame.Runt? then
      if GG.Passes(st.gate, e.now) then (0, 1) else (1, 0)
    else (0, 0)
  }

  lemma TallyCons(o: Outcome, os: seq<Outcome>)
    ensures Tally([o] + os, GateDrop) == (if o == GateDrop then 1 else 0) + Tally(os, GateDrop)
    ensures GatePassed([o] + os) == (if o == GateDrop || o == RuntPass then 0 else 1) + GatePassed(os)
  {
    assert ([o] + os)[1..] == os;
  }

  lemma InspectKeepsGateAndCounter(st: State, now: U64, f: Frame, w: Writes)
    ensures Source(f).Some? ==>
      var (st', o) := Inspect(st, now, Source(f).value, Protocol(f), w);
      st'.counter == st.counter && st'.gate == st.gate && o != GateDrop && o != RuntPass
  {
  }

  lemma CountsStep(st: State, es: seq<Event>)
    requires es != []
    ensures var (dropped, passed) := CountsAt(st, es[0]);
            var os, rest := Outcomes(st, es), Outcomes(Step(st, es[0]), es[1..]);
            && Tally(os, GateDrop) == dropped + Tally(rest, GateDrop)
            && GatePassed(os) == passed + GatePassed(rest)
  {
    var rest := Outcomes(Step(st, es[0]), es[1..]);
    if es[0].act.Packet? {
      var o := Receive(st, es[0].now, es[0].act.frame, es[0].act.writes).1;
      TallyCons(o, rest);
      InspectKeepsGateAndCounter(Gated(st, es[0].now), es[0].now, es[0].act.frame, es[0].act.writes);
    } else {
      assert [] + rest == rest;
    }
  }

  lemma CounterStep(st: State, e: Event)
    ensures Step(st, e).counter == (st.counter + CountsAt(st, e).0 + CountsAt(st, e).1) % 0x1_0000_0000_0000_0000
  {
    if e.act.Packet? {
      InspectKeepsGateAndCounter(Gated(st, e.now), e.now, e.act.frame, e.act.writes);
    }
  }

  /** The frames of a run that met the gate. */
  function MetGate(st: State, es: seq<Event>): nat
    decreases |es|
  {
    if es == [] then 0 else CountsAt(st, es[0]).0 + CountsAt(st, es[0]).1 + MetGate(Step(st, es[0]), es[1..])
  }

  lemma {:induction false} MetGateIsTallied(st: State, es: seq<Event>)
    ensures MetGate(st, es) == Tally(Outcomes(st, es), GateDrop) + GatePassed(Outcomes(st, es))
    decreases |es|
  {
    if es != [] {
      CountsStep(st, es);
      MetGateIsTallied(Step(st, es[0]), es[1..]);
    }
  }

  lemma {:induction false} CounterCountsFrames(st: State, es: seq<Event>)
    ensures Run(st, es).counter == (st.counter + MetGate(st, es)) % 0x1_0000_0000_0000_0000
    decreases |es|
  {
    if es != [] {
      CounterStep(st, es[0]);
      CounterCountsFrames(Step(st, es[0]), es[1..]);
      WrapAdd64(st.counter + CountsAt(st, es[0]).0 + CountsAt(st, es[0]).1, MetGate(Step(st, es[0]), es[1..]));
    }
  }

  /** The counter shows, modulo 2^64, every packet but the runts: the gate's drops and all it let through. */
  lemma CounterAccounts(st: State, es: seq<Event>)
    ensures var os := Outcomes(st, es);
            Run(st, es).counter == (st.counter + Tally(os, GateDrop) + GatePassed(os)) % 0x1_0000_0000_0000_0000
  {
    CounterCountsFrames(st, es);
    MetGateIsTallied(st, es);
  }

  /** Drops and passes make up all the packets of a run. */
  lemma {:induction false} EveryPacketHasOneFate(st: State, es: seq<Event>)
    ensures var os := Outcomes(st, es);
            && |os| == Tally(os, RuntPass) + Tally(os, GateDrop) + GatePassed(os)
            && RL.Passes(os) == |os| - Tally(os, GateDrop) - Tally(os, ProtoDrop) - Tally(os, BlackDrop) - Tally(os, BucketDrop)
  {
    TallySplits(Outcomes(st, es));
  }

  lemma {:induction false} TallySplits(os: seq<Outcome>)
    ensures |os| == Tally(os, RuntPass) + Tally(os, GateDrop) + GatePassed(os)
    ensures RL.Passes(os) == |os| - Tally(os, GateDrop) - Tally(os, ProtoDrop) - Tally(os, BlackDrop) - Tally(os, BucketDrop)
  {
    if os != [] {
      TallySplits(os[1..]);
    }
  }

  // ----- The gate ------------------------------------------------------------------------

  /** Arrival times of the frames that meet the gate. */
  function Arrivals(es: seq<Event>): seq<U64> {
    if es == [] then []
    else (if es[0].act.Packet? && !es[0].act.frame.Runt? then [es[0].now] else []) + Arrivals(es[1..])
  }

  lemma GateStep(st: State, e: Event)
    ensures Step(st, e).gate == if Arrivals([e]) == [] then st.gate else GG.AfterCheck(st.gate, e.now)
  {
    if e.act.Packet? {
      InspectKeepsGateAndCounter(Gated(st, e.now), e.now, e.act.frame, e.act.writes);
    }
  }

  lemma PassCountStep(st: State, es: seq<Event>)
    requires es != []
    ensures GG.PassCount(st.gate, Arrivals(es))
         == CountsAt(st, es[0]).1 + GG.PassCount(Step(st, es[0]).gate, Arrivals(es[1..]))
  {
    GateStep(st, es[0]);
    var later := Arrivals(es[1..]);
    if Arrivals([es[0]]) == [] {
      assert Arrivals(es) == [] + later == later;
    } else {
      assert Arrivals(es) == [es[0].now] + later && Arrivals(es)[1..] == later;
    }
  }

  lemma {:induction false} GateRunsAlone(st: State, es: seq<Event>)
    ensures GatePassed(Outcomes(st, es)) == GG.PassCount(st.gate, Arrivals(es))
    decreases |es|
  {
    if es != [] {
      GateRunsAlone(Step(st, es[0]), es[1..]);
      CountsStep(st, es);
      PassCountStep(st, es);
    }
  }

  lemma {:induction false} ArrivalsInOrder(es: seq<Event>, t: int)
    requires InOrder(es, t)
    ensures Nondecreasing(Arrivals(es), t)
    ensures forall a :: a in Arrivals(es) ==> exists e :: e in es && e.now == a
  {
    if es != [] {
      ArrivalsInOrder(es[1..], es[0].now);
      forall a | a in Arrivals(es) ensures exists e :: e in es && e.now == a {
        if a in Arrivals(es[1..]) {
          var e :| e in es[1..] && e.now == a;
          assert e in es;
        } else {
          assert es[0] in es;
        }
      }
    }
  }

  /** In any window [s, e] the whole filter lets at most 549999 packets and 500000 a second past the gate. */
  lemma AggregateBound(st: State, es: seq<Event>, s: U64, e: U64)
    requires GG.Settled(st.gate, s) && InOrder(es, s) && s <= e && (forall f :: f in es ==> f.now <= e)
    ensures GatePassed(Outcomes(st, es)) <= 549_999 + (e - s) * 500_000 / NANO
  {
    GateRunsAlone(st, es);
    ArrivalsInOrder(es, s);
    assert forall i :: 0 <= i < |Arrivals(es)| ==> Arrivals(es)[i] in Arrivals(es);
    GG.WindowBound(st.gate, Arrivals(es), s, e);
  }

  lemma {:induction false} ArrivalsMeetGate(st: State, es: seq<Event>)
    ensures |Arrivals(es)| == MetGate(st, es)
    decreases |es|
  {
    if es != [] {
      ArrivalsMeetGate(Step(st, es[0]), es[1..]);
    }
  }

  /**
   Shields-Up is out of the way of ordinary traffic: while all frames together keep to 499990 a
   second and bursts of 450000, and no refill wraps, it drops none of them.
   */
  lemma ConformingAggregateClears(st: State, es: seq<Event>, x: TB.Exact, t: int)
    requires InOrder(es, t) && x.at == t && GG.Behind(x, st.gate)
    requires GG.AllFit(st.gate, Arrivals(es)) && GG.Conforms(Arrivals(es), x)
    ensures Tally(Outcomes(st, es), GateDrop) == 0
  {
    ArrivalsInOrder(es, t);
    GG.ConformingTrafficClears(st.gate, x, Arrivals(es));
    GateRunsAlone(st, es);
    ArrivalsMeetGate(st, es);
    MetGateIsTallied(st, es);
  }

  /** And on any traffic it lets through at least the frames that find 50000 tokens in the exact bucket. */
  lemma AggregatePassesAtLeast(st: State, es: seq<Event>, x: TB.Exact, t: int)
    requires InOrder(es, t) && x.at == t && GG.Behind(x, st.gate) && GG.AllFit(st.gate, Arrivals(es))
    ensures GatePassed(Outcomes(st, es)) >= GG.SureCount(x, Arrivals(es))
  {
    ArrivalsInOrder(es, t);
    GG.PassesAtLeast(st.gate, x, Arrivals(es));
    GateRunsAlone(st, es);
  }

  /** A flood with gaps of 2000 ns or less keeps an exhausted gate shut to everyone, the allowlisted included. */
  lemma FloodShutsOutEveryone(st: State, es: seq<Event>, t: U64)
    requires GG.Settled(st.gate, t) && GG.Reserve(st.gate, t) < 0 && GG.Within(Arrivals(es), t, 2_000)
    ensures GatePassed(Outcomes(st, es)) == 0
  {
    GateRunsAlone(st, es);
    GG.FloodKeepsItShut(st.gate, t, Arrivals(es));
  }

  /**
   A packet of an allowlisted source is let through if and only if the gate has a token left,
   or is due for a refill that makes one. It is all the allowlist is worth.
   */
  lemma AllowedPassesIff(st: State, now: U64, f: Frame, w: Writes)
    requires GG.Settled(st.gate, now) && Source(f).Some? && Source(f).value in st.allow
    ensures Receive(st, now, f, w).1.Passed() <==>
              var b := st.gate;
              || b.tokens >= 1
              || (now - b.lastTime > GG.PERIOD && b.tokens + (now - b.lastTime) * 500_000 % TWO64 / NANO >= 1)
  {
    GG.PassesIff(st.gate, now);
  }

  lemma {:induction false} GateAfterRun(st: State, es: seq<Event>)
    ensures Run(st, es).gate == GG.BucketAfter(st.gate, Arrivals(es))
    decreases |es|
  {
    if es != [] {
      GateStep(st, es[0]);
      GateAfterRun(Step(st, es[0]), es[1..]);
      var later := Arrivals(es[1..]);
      if Arrivals([es[0]]) == [] {
        assert Arrivals(es) == [] + later == later;
      } else {
        assert Arrivals(es) == [es[0].now] + later && Arrivals(es)[1..] == later;
      }
    }
  }

  function Flood(now: U64, f: Frame, w: Writes, n: nat): (es: seq<Event>)
    ensures |es| == n
  {
    seq(n, _ => At(now, Packet(f, w)))
  }

  lemma {:induction false} FloodArrives(now: U64, f: Frame, w: Writes, n: nat)
    requires !f.Runt?
    ensures Arrivals(Flood(now, f, w, n)) == GG.Copies(now, n) && InOrder(Flood(now, f, w, n), now)
    decreases n
  {
    if n > 0 {
      FloodArrives(now, f, w, n - 1);
      assert Flood(now, f, w, n)[1..] == Flood(now, f, w, n - 1);
    }
  }

  lemma PacketKeepsAllowlist(st: State, now: U64, f: Frame, w: Writes)
    ensures Receive(st, now, f, w).0.allow == st.allow
  {
  }

  /** Packets leave the allowlist alone. */
  lemma {:induction false} FloodKeepsAllowlist(st: State, now: U64, f: Frame, w: Writes, n: nat)
    ensures Run(st, Flood(now, f, w, n)).allow == st.allow
    decreases n
  {
    if n > 0 {
      var es := Flood(now, f, w, n);
      assert es[1..] == Flood(now, f, w, n - 1);
      PacketKeepsAllowlist(st, now, f, w);
      FloodKeepsAllowlist(Step(st, es[0]), now, f, w, n - 1);
    }
  }

  /**
   A run from load that shuts an allowlisted source out: it is allowlisted, more than half a
   million packets of others arrive at once, and its own packet is dropped. The gate is then in
   a debt that FloodShutsOutEveryone keeps for as long as the flood goes on.
   */
  lemma AllowedIsShutOut(x: Addr, own: Frame, other: Frame, w: Writes, n: nat)
    requires Source(own) == Some(x) && !other.Runt? && n > 500_000
    ensures var es := [At(0, Allow(x))] + Flood(NANO, other, w, n);
            var st := Run(EMPTY, es);
            && InOrder(es, 0) && x in st.allow
            && GG.Settled(st.gate, NANO) && GG.Reserve(st.gate, NANO) < 0
            && Receive(st, NANO, own, w).1 == GateDrop
  {
    var flood := Flood(NANO, other, w, n);
    var allowed := Step(EMPTY, At(0, Allow(x)));
    assert ([At(0, Allow(x))] + flood)[1..] == flood;
    FloodArrives(NANO, other, w, n);
    FloodKeepsAllowlist(allowed, NANO, other, w, n);
    FloodDrains(allowed, other, w, n);
    EmptyGateDrops(Run(allowed, flood), own, w);
  }

  lemma FloodDrains(st: State, f: Frame, w: Writes, n: nat)
    requires st.gate == TB.Bucket(0, 0) && !f.Runt? && n > 500_000
    ensures Run(st, Flood(NANO, f, w, n)).gate == TB.Bucket(NANO, Max(500_000 - n, -GG.DEBT))
  {
    FloodArrives(NANO, f, w, n);
    GateAfterRun(st, Flood(NANO, f, w, n));
    GateDrains(n);
  }

  lemma GateDrains(n: nat)
    requires n > 500_000
    ensures GG.BucketAfter(TB.Bucket(0, 0), GG.Copies(NANO, n)) == TB.Bucket(NANO, Max(500_000 - n, -GG.DEBT))
  {
    var first := TB.Bucket(NANO, 499_999);
    assert GG.AfterCheck(TB.Bucket(0, 0), NANO) == first;
    assert GG.Copies(NANO, n)[1..] == GG.Copies(NANO, n - 1);
    GG.BurstDrains(first, NANO, n - 1);
  }

  lemma EmptyGateDrops(st: State, own: Frame, w: Writes)
    requires -GG.DEBT <= st.gate.tokens < 0 && st.gate.lastTime == NANO && !own.Runt?
    ensures GG.Settled(st.gate, NANO) && GG.Reserve(st.gate, NANO) < 0 && Receive(st, NANO, own, w).1 == GateDrop
  {
    GG.PassesIff(st.gate, NANO);
  }

  // ----- Reachable states ----------------------------------------------------------------

  ghost predicate Settled(st: State, t: int) {
    RL.Settled(st, t) && GG.Settled(st.gate, t)
  }

  lemma SettledStep(st: State, e: Event, t: U64)
    requires Settled(st, t) && t <= e.now
    ensures Settled(Step(st, e), e.now)
  {
    GG.PotentialStep(st.gate, t, e.now);
    GateStep(st, e);
    forall a | a in Step(st, e).rate ensures TB.Settled(Step(st, e).rate[a], e.now) {
      StepLocally(st, e, a);
      var l := View(st, a);
      assert l.bucket.Some? ==> TB.Settled(l.bucket.value, t);
      if l.bucket.Some? {
        TB.PotentialStep(l.bucket.value, t, e.now);
      }
    }
  }

  /** The bounds assumed above hold at every moment after the program is loaded. */
  lemma {:induction false} AlwaysSettled(st: State, es: seq<Event>, t: U64)
    requires Settled(st, t) && InOrder(es, t)
    ensures Settled(Run(st, es), if es == [] then t else es[|es| - 1].now)
    decreases |es|
  {
    if es != [] {
      SettledStep(st, es[0], t);
      AlwaysSettled(Step(st, es[0]), es[1..], es[0].now);
    }
  }

  /** In the first 213 days after boot the lower bound needs no condition on the refills. */
  lemma FloorSinceLoad(es: seq<Event>, x: Addr)
    requires InOrder(es, 0) && forall e :: e in es ==> e.now * 1000 < TWO64
    ensures var l, fs := View(EMPTY, x), Project(EMPTY, es, x);
            RL.RefillsFit(l, fs) && RL.AboveFloor(l, fs, TB.Exact(TB.CAP, 0))
  {
    RL.ProjectInOrder(EMPTY, es, x, 0);
    RL.ProjectOrigin(EMPTY, es, x);
    RL.EarlyStampsFit(View(EMPTY, x), Project(EMPTY, es, x), 0);
    SandwichSinceLoad(es, x);
  }

  /** From load to any moment, every source's traffic lies between the two exact buckets. */
  lemma SandwichSinceLoad(es: seq<Event>, x: Addr)
    requires InOrder(es, 0)
    ensures var l, fs, full := View(EMPTY, x), Project(EMPTY, es, x), TB.Exact(TB.CAP, 0);
            && OutcomesOf(EMPTY, es, x) == LocalOutcomes(l, fs)
            && RL.BelowCeiling(l, fs, full)
            && (RL.RefillsFit(l, fs) ==> RL.AboveFloor(l, fs, full))
  {
    var l, fs, full := View(EMPTY, x), Project(EMPTY, es, x), TB.Exact(TB.CAP, 0);
    Independence(EMPTY, es, x);
    RL.ProjectInOrder(EMPTY, es, x, 0);
    RL.PassesOnlyAtFullRate(l, fs, full, 0);
    if RL.RefillsFit(l, fs) {
      RL.PassesAtHalfRate(l, fs, full, 0);
    }
  }
}
