/**
 The filter's decisions and their effects spelled out: which packets pass and why each of the
 others is dropped, what every packet leaves in every map, and what a whole run of packets and
 control events adds up to, entry by entry.
 */
module Decisions {
  import opened Words
  import opened Pipeline
  import opened Sources
  import RL = RateLimits
  import TB = TokenBucket
  import GG = GlobalGate

  /** A frame with a whole IP header. */
  function Whole(x: Addr, proto: nat): Frame {
    match x
    case V4(k) => Ipv4(Some(Header(k, proto)))
    case V6(k) => Ipv6(Some(Header(k, proto)))
  }

  /** A rule drops the protocol. */
  predicate Barred(st: State, proto: nat) {
    proto in st.proto && st.proto[proto] == 1
  }

  // ----- One packet ----------------------------------------------------------------------

  /** Frames without a source: they are let through unless they meet a shut gate. */
  lemma SourcelessOutcomeIs(st: State, now: U64, f: Frame, w: Writes)
    ensures var o, open := Receive(st, now, f, w).1, GG.Passes(st.gate, now);
            && (o == RuntPass <==> f == Runt)
            && (o == GateDrop <==> f != Runt && !open)
            && (o == OtherPass <==> f == Other && open)
            && (o == ShortPass <==> (f == Ipv4(None) || f == Ipv6(None)) && open)
  {
  }

  /** Frames with a source: the stages in their order, and the condition for each outcome. */
  lemma OutcomeIs(st: State, now: U64, x: Addr, proto: nat, w: Writes)
    ensures Receive(st, now, Whole(x, proto), w).1
         == if !GG.Passes(st.gate, now) then GateDrop
            else if x in st.allow then AllowPass
            else if Barred(st, proto) then ProtoDrop
            else if x in st.black then BlackDrop
            else if x !in st.rate then FirstPass
            else if TB.Passes(st.rate[x], now) then BucketPass
            else BucketDrop
  {
  }

  /** A packet is dropped by the protocol filter if and only if it gets there and a rule bars its protocol. */
  lemma ProtoDropIff(st: State, now: U64, f: Frame, w: Writes)
    ensures Receive(st, now, f, w).1 == ProtoDrop <==>
              && !f.Runt? && GG.Passes(st.gate, now)
              && Source(f).Some? && Source(f).value !in st.allow
              && Protocol(f) in st.proto && st.proto[Protocol(f)] == 1
  {
  }

  lemma WholeIs(x: Addr, proto: nat)
    ensures Source(Whole(x, proto)) == Some(x) && Protocol(Whole(x, proto)) == proto
  {
  }

  /** Which packets pass. */
  lemma PassesIff(st: State, now: U64, f: Frame, w: Writes)
    ensures Receive(st, now, f, w).1.Passed() <==>
              || f == Runt
              || (GG.Passes(st.gate, now) && (Source(f).None? ||
                   var x := Source(f).value;
                   || x in st.allow
                   || (!Barred(st, Protocol(f)) && x !in st.black && (x in st.rate ==> TB.Passes(st.rate[x], now)))))
  {
    if Source(f).Some? {
      FrameIsWhole(f);
      OutcomeIs(st, now, Source(f).value, Protocol(f), w);
    } else {
      SourcelessOutcomeIs(st, now, f, w);
    }
  }

  lemma FrameIsWhole(f: Frame)
    requires Source(f).Some?
    ensures f == Whole(Source(f).value, Protocol(f))
  {
  }

  /** What a packet leaves in the counter and the gate. */
  lemma CounterAndGateLeft(st: State, now: U64, f: Frame, w: Writes)
    ensures var st' := Receive(st, now, f, w).0;
            && (var n: int := st.counter; st'.counter == if f == Runt then n else (n + 1) % 0x1_0000_0000_0000_0000)
            && st'.gate == (if f == Runt then st.gate else GG.AfterCheck(st.gate, now))
  {
  }

  /** What no packet touches. */
  lemma ListsLeft(st: State, now: U64, f: Frame, w: Writes)
    ensures var st' := Receive(st, now, f, w).0; st'.allow == st.allow && st'.proto == st.proto
  {
    if Source(f).Some? {
      ListsInspected(Gated(st, now), now, Source(f).value, Protocol(f), w);
    }
  }

  lemma ListsInspected(st: State, now: U64, x: Addr, proto: nat, w: Writes)
    ensures var st' := Inspect(st, now, x, proto, w).0; st'.allow == st.allow && st'.proto == st.proto
  {
  }

  /** A frame without a source, or one that meets a shut gate, leaves the sources' maps alone. */
  lemma SourcesLeft(st: State, now: U64, f: Frame, w: Writes)
    requires Source(f).None? || !GG.Passes(st.gate, now)
    ensures var st' := Receive(st, now, f, w).0;
            st'.meter == st.meter && st'.black == st.black && st'.rate == st.rate && st'.alerts == st.alerts
  {
  }

  /** Which packets change the packet counters, and only their source's. */
  lemma OnlyOwnMeterLeft(st: State, now: U64, x: Addr, proto: nat, w: Writes)
    ensures var (st', o) := Receive(st, now, Whole(x, proto), w);
            && (!o.Metered() ==> st'.meter == st.meter)
            && (o.Metered() ==> st'.meter == Metered(st, x, w).meter)
  {
    WholeIs(x, proto);
    MeterInspected(Gated(st, now), now, x, proto, w);
  }

  lemma MeterInspected(st: State, now: U64, x: Addr, proto: nat, w: Writes)
    ensures var (st', o) := Inspect(st, now, x, proto, w);
            && (!o.Metered() ==> st'.meter == st.meter)
            && (o.Metered() ==> st'.meter == Metered(st, x, w).meter)
  {
  }

  lemma MeteredIs(st: State, x: Addr, w: Writes)
    ensures var m := Metered(st, x, w).meter;
            && (forall y :: y != x ==> (y in m <==> y in st.meter) && (y in m ==> m[y] == st.meter[y]))
            && (x in m <==> x in st.meter || w.meter)
            && (x in m ==> var n: int := if x in st.meter then st.meter[x] else 0; m[x] == (n + 1) % 0x1_0000_0000)
  {
  }

  /** What they are then: one more, modulo 2^32, or the first one if there is room. */
  lemma MeterLeft(st: State, now: U64, x: Addr, proto: nat, w: Writes)
    requires Receive(st, now, Whole(x, proto), w).1.Metered()
    ensures var m := Receive(st, now, Whole(x, proto), w).0.meter;
            && (forall y :: y != x ==> (y in m <==> y in st.meter) && (y in m ==> m[y] == st.meter[y]))
            && (x in m <==> x in st.meter || w.meter)
            && (x in m ==> var n: int := if x in st.meter then st.meter[x] else 0; m[x] == (n + 1) % 0x1_0000_0000)
  {
    OnlyOwnMeterLeft(st, now, x, proto, w);
    MeteredIs(st, x, w);
  }

  /** What it leaves in the blacklist. */
  lemma BlackLeft(st: State, now: U64, x: Addr, proto: nat, w: Writes)
    ensures var (st', o) := Receive(st, now, Whole(x, proto), w);
            st'.black == if o == BucketDrop && w.blacklist then st.black + {x} else st.black
  {
    OutcomeIs(st, now, x, proto, w);
  }

  /** What it leaves in the ring. */
  lemma AlertsLeft(st: State, now: U64, x: Addr, proto: nat, w: Writes)
    ensures var (st', o) := Receive(st, now, Whole(x, proto), w);
            st'.alerts == if o == BucketDrop && w.ring then st.alerts + [Alert(x, 1, now)] else st.alerts
  {
    OutcomeIs(st, now, x, proto, w);
  }

  /** What it leaves in the token buckets. */
  lemma RateLeft(st: State, now: U64, x: Addr, proto: nat, w: Writes)
    ensures var (st', o) := Receive(st, now, Whole(x, proto), w);
            && (o == BucketPass || o == BucketDrop ==> x in st.rate && st'.rate == st.rate[x := TB.AfterCheck(st.rate[x], now)])
            && (o == FirstPass && w.rate ==> x !in st.rate && st'.rate == st.rate[x := TB.Bucket(now, 999)])
            && (o !in {BucketPass, BucketDrop, FirstPass} || (o == FirstPass && !w.rate) ==> st'.rate == st.rate)
  {
    OutcomeIs(st, now, x, proto, w);
  }

  /** After load, from 100 ms after boot on, a source's first packet passes. */
  lemma FirstPacketPasses(x: Addr, proto: nat, now: U64, w: Writes)
    requires 100_000_000 < now && now * 500_000 < TWO64
    ensures Receive(EMPTY, now, Whole(x, proto), w).1 == FirstPass
  {
    OutcomeIs(EMPTY, now, x, proto, w);
    GG.PassesIff(EMPTY.gate, now);
  }

  // ----- The last word -------------------------------------------------------------------

  /** What the control events about x say last of the allowlist. */
  function AllowedAfter(es: seq<Event>, x: Addr, now: bool): bool {
    if es == [] then now
    else AllowedAfter(es[1..], x, if es[0].act == Allow(x) then true else if es[0].act == Disallow(x) then false else now)
  }

  lemma {:induction false} AllowedIffLastWord(st: State, es: seq<Event>, x: Addr)
    ensures x in Run(st, es).allow <==> AllowedAfter(es, x, x in st.allow)
    decreases |es|
  {
    if es != [] {
      if es[0].act.Packet? {
        ListsLeft(st, es[0].now, es[0].act.frame, es[0].act.writes);
      }
      AllowedIffLastWord(Step(st, es[0]), es[1..], x);
    }
  }

  /** The action of the last rule for a protocol. */
  function RuleAfter(es: seq<Event>, p: nat, now: Option<nat>): Option<nat> {
    if es == [] then now
    else RuleAfter(es[1..], p, if es[0].act.SetProto? && es[0].act.proto == p then Some(es[0].act.action) else now)
  }

  function RuleFor(st: State, p: nat): Option<nat> {
    if p in st.proto then Some(st.proto[p]) else None
  }

  lemma {:induction false} RuleIsLastSet(st: State, es: seq<Event>, p: nat)
    ensures RuleFor(Run(st, es), p) == RuleAfter(es, p, RuleFor(st, p))
    decreases |es|
  {
    if es != [] {
      if es[0].act.Packet? {
        ListsLeft(st, es[0].now, es[0].act.frame, es[0].act.writes);
      }
      RuleIsLastSet(Step(st, es[0]), es[1..], p);
    }
  }

  /** A packet event of x whose bucket drops it. */
  predicate Drops(st: State, e: Event, x: Addr) {
    && e.act.Packet? && Source(e.act.frame) == Some(x)
    && Receive(st, e.now, e.act.frame, e.act.writes).1 == BucketDrop
  }

  lemma DropLeaves(st: State, e: Event, x: Addr)
    requires e.act.Packet?
    ensures x in Step(st, e).black <==> x in st.black || (Drops(st, e, x) && e.act.writes.blacklist)
  {
    var f := e.act.frame;
    if Source(f).Some? {
      FrameIsWhole(f);
      BlackLeft(st, e.now, Source(f).value, Protocol(f), e.act.writes);
    } else {
      SourcesLeft(st, e.now, f, e.act.writes);
      SourcelessOutcomeIs(st, e.now, f, e.act.writes);
    }
  }

  /** x is blocked after a run: by the last drop with room in the blacklist, or as userspace said after it. */
  function BlockedAfter(st: State, es: seq<Event>, x: Addr, now: bool): bool
    decreases |es|
  {
    if es == [] then now
    else
      BlockedAfter(Step(st, es[0]), es[1..], x,
        if es[0].act == Block(x) || (Drops(st, es[0], x) && es[0].act.writes.blacklist) then true
        else if es[0].act == Unblock(x) then false
        else now)
  }

  lemma {:induction false} BlockedIffLastWord(st: State, es: seq<Event>, x: Addr)
    ensures x in Run(st, es).black <==> BlockedAfter(st, es, x, x in st.black)
    decreases |es|
  {
    if es != [] {
      if es[0].act.Packet? {
        DropLeaves(st, es[0], x);
      }
      BlockedIffLastWord(Step(st, es[0]), es[1..], x);
    }
  }

  // ----- Alerts --------------------------------------------------------------------------

  /** One alert for a drop by a source's bucket that finds room in the ring. */
  function DropAlert(st: State, e: Event): seq<Alert> {
    if e.act.Packet? && Source(e.act.frame).Some? && Drops(st, e, Source(e.act.frame).value) && e.act.writes.ring
    then [Alert(Source(e.act.frame).value, 1, e.now)] else []
  }

  /** All of them, in order. */
  function DropAlerts(st: State, es: seq<Event>): seq<Alert>
    decreases |es|
  {
    if es == [] then [] else DropAlert(st, es[0]) + DropAlerts(Step(st, es[0]), es[1..])
  }

  lemma AlertsStep(st: State, e: Event)
    ensures Step(st, e).alerts == st.alerts + DropAlert(st, e)
  {
    if e.act.Packet? {
      var f := e.act.frame;
      if Source(f).Some? {
        FrameIsWhole(f);
        AlertsLeft(st, e.now, Source(f).value, Protocol(f), e.act.writes);
      } else {
        SourcesLeft(st, e.now, f, e.act.writes);
      }
    }
  }

  /** Over any run the ring gets exactly the drops: source, reason and time of each. */
  lemma {:induction false} AlertsAreDrops(st: State, es: seq<Event>)
    ensures Run(st, es).alerts == st.alerts + DropAlerts(st, es)
    decreases |es|
  {
    if es != [] {
      AlertsStep(st, es[0]);
      AlertsAreDrops(Step(st, es[0]), es[1..]);
      InOrderStill(st.alerts, DropAlert(st, es[0]), DropAlerts(Step(st, es[0]), es[1..]));
    }
  }

  lemma InOrderStill(a: seq<Alert>, b: seq<Alert>, c: seq<Alert>)
    ensures a + b + c == a + (b + c)
  {
  }

  /** An alert tells the truth about the i-th event of a run. */
  predicate Tells(st: State, es: seq<Event>, i: nat, a: Alert) {
    i < |es| && a.reason == 1 && a.timestamp == es[i].now && Drops(Run(st, es[..i]), es[i], a.src)
  }

  /** Nothing is taken back, and every new alert has reason 1 and comes from a drop of its source at its time. */
  lemma {:induction false} AlertsTellDrops(st: State, es: seq<Event>)
    ensures st.alerts <= Run(st, es).alerts
    ensures forall a :: a in Run(st, es).alerts[|st.alerts|..] ==> exists i: nat :: Tells(st, es, i, a)
  {
    AlertsAreDrops(st, es);
    var news := DropAlerts(st, es);
    assert Run(st, es).alerts[|st.alerts|..] == news;
    forall a | a in news ensures exists i: nat :: Tells(st, es, i, a) {
      DropAlertTells(st, es, a);
    }
  }

  lemma {:induction false} DropAlertTells(st: State, es: seq<Event>, a: Alert)
    requires a in DropAlerts(st, es)
    ensures exists i: nat :: Tells(st, es, i, a)
    decreases |es|
  {
    var later := DropAlerts(Step(st, es[0]), es[1..]);
    if a in later {
      DropAlertTells(Step(st, es[0]), es[1..], a);
      var i: nat :| Tells(Step(st, es[0]), es[1..], i, a);
      assert es[..i + 1][0] == es[0] && es[..i + 1][1..] == es[1..][..i];
      assert Tells(st, es, i + 1, a);
    } else {
      assert es[..0] == [];
      assert Tells(st, es, 0, a);
    }
  }

  // ----- The bucket ----------------------------------------------------------------------

  /** The time of the event if it is a packet of x that its bucket judges, passed or dropped. */
  function JudgedAt(st: State, e: Event, x: Addr): seq<U64> {
    if e.act.Packet? && Source(e.act.frame) == Some(x)
      && Receive(st, e.now, e.act.frame, e.act.writes).1 in {BucketPass, BucketDrop}
    then [e.now] else []
  }

  function JudgedTimes(st: State, es: seq<Event>, x: Addr): seq<U64>
    decreases |es|
  {
    if es == [] then [] else JudgedAt(st, es[0], x) + JudgedTimes(Step(st, es[0]), es[1..], x)
  }

  lemma JudgedStep(st: State, e: Event, x: Addr)
    requires x in st.rate && e.act != EvictRate(x)
    ensures x in Step(st, e).rate
    ensures Step(st, e).rate[x] == if JudgedAt(st, e, x) == [] then st.rate[x] else TB.AfterCheck(st.rate[x], e.now)
  {
    if e.act.Packet? {
      var f := e.act.frame;
      if Source(f).Some? {
        FrameIsWhole(f);
        RateLeft(st, e.now, Source(f).value, Protocol(f), e.act.writes);
        OutcomeIs(st, e.now, Source(f).value, Protocol(f), e.act.writes);
      } else {
        SourcesLeft(st, e.now, f, e.act.writes);
      }
    }
  }

  lemma BucketAfterOne(b: TB.Bucket, first: seq<U64>, later: seq<U64>)
    requires |first| <= 1
    ensures TB.BucketAfter(b, first + later) == TB.BucketAfter(if first == [] then b else TB.AfterCheck(b, first[0]), later)
  {
    if first == [] {
      assert first + later == later;
    } else {
      assert (first + later)[1..] == later;
    }
  }

  /** While it is not evicted, a source's bucket is charged for each packet it judges and for nothing else. */
  lemma {:induction false} BucketIsCharged(st: State, es: seq<Event>, x: Addr)
    requires x in st.rate && forall e :: e in es ==> e.act != EvictRate(x)
    ensures x in Run(st, es).rate && Run(st, es).rate[x] == TB.BucketAfter(st.rate[x], JudgedTimes(st, es, x))
    decreases |es|
  {
    if es != [] {
      assert es[0] in es;
      JudgedStep(st, es[0], x);
      BucketIsCharged(Step(st, es[0]), es[1..], x);
      BucketAfterOne(st.rate[x], JudgedAt(st, es[0], x), JudgedTimes(Step(st, es[0]), es[1..], x));
    }
  }

  /** An evicted bucket is gone, and the source starts over with its next packet. */
  lemma EvictedStartsOver(st: State, x: Addr, proto: nat, t: U64, now: U64, w: Writes)
    requires GG.Passes(st.gate, now) && x !in st.allow && !Barred(st, proto) && x !in st.black && w.rate
    ensures var (st', o) := Receive(Step(st, At(t, EvictRate(x))), now, Whole(x, proto), w);
            o == FirstPass && x in st'.rate && st'.rate[x] == TB.Bucket(now, 999)
  {
    RateLeft(Step(st, At(t, EvictRate(x))), now, x, proto, w);
    OutcomeIs(Step(st, At(t, EvictRate(x))), now, x, proto, w);
  }

  /** An evicted packet counter is gone, and the source's next packet that is counted is the first. */
  lemma EvictedCountsAnew(st: State, x: Addr, proto: nat, t: U64, now: U64, w: Writes)
    requires Receive(Step(st, At(t, EvictMeter(x))), now, Whole(x, proto), w).1.Metered()
    ensures var m := Receive(Step(st, At(t, EvictMeter(x))), now, Whole(x, proto), w).0.meter;
            (x in m <==> w.meter) && (x in m ==> m[x] == 1)
  {
    var evicted := Step(st, At(t, EvictMeter(x)));
    assert x !in evicted.meter;
    MeterLeft(evicted, now, x, proto, w);
  }

  // ----- Who is served -------------------------------------------------------------------

  /** No rule bars a protocol of x's packets, at the start or later. */
  predicate NeverBarred(st: State, es: seq<Event>, x: Addr) {
    forall e :: e in es && e.act.Packet? && Source(e.act.frame) == Some(x) ==>
      !Barred(st, Protocol(e.act.frame)) && forall d :: d in es ==> d.act != SetProto(Protocol(e.act.frame), 1)
  }

  lemma StillNeverBarred(st: State, es: seq<Event>, x: Addr)
    requires es != [] && NeverBarred(st, es, x)
    ensures NeverBarred(Step(st, es[0]), es[1..], x)
  {
    if es[0].act.Packet? {
      ListsLeft(st, es[0].now, es[0].act.frame, es[0].act.writes);
    }
    assert es[0] in es;
  }

  lemma {:induction false} NeverBarredIsNeverProtoDropped(st: State, es: seq<Event>, x: Addr)
    requires NeverBarred(st, es, x)
    ensures forall o :: o in OutcomesOf(st, es, x) ==> o != ProtoDrop
    decreases |es|
  {
    if es != [] {
      assert es[0] in es;
      if es[0].act.Packet? {
        ProtoDropIff(st, es[0].now, es[0].act.frame, es[0].act.writes);
      }
      StillNeverBarred(st, es, x);
      NeverBarredIsNeverProtoDropped(Step(st, es[0]), es[1..], x);
    }
  }

  /** Conforming traffic of protocols that no rule bars passes whole, once past the gate. */
  lemma ConformingSourcePasses(st: State, es: seq<Event>, x: Addr, lo: TB.Exact, t: int)
    requires InOrder(es, t) && RL.FloorHolds(View(st, x), lo, t) && RL.RefillsFit(View(st, x), Project(st, es, x))
    requires x !in st.black && (forall f :: f in es ==> f.act != Block(x))
    requires RL.Conforms(Project(st, es, x), lo) && NeverBarred(st, es, x)
    ensures forall o :: o in OutcomesOf(st, es, x) ==> o.Passed()
  {
    RL.ConformingSourceIsServed(st, es, x, lo, t);
    NeverBarredIsNeverProtoDropped(st, es, x);
  }

  /** So does traffic with a millisecond or more between any two packets. */
  lemma SpacedSourcePasses(st: State, es: seq<Event>, x: Addr, t: int)
    requires RL.Solvent(View(st, x), t) && RL.LocalSpaced(Project(st, es, x), t)
    requires RL.RefillsFit(View(st, x), Project(st, es, x))
    requires x !in st.black && (forall f :: f in es ==> f.act != Block(x)) && NeverBarred(st, es, x)
    ensures forall o :: o in OutcomesOf(st, es, x) ==> o.Passed()
  {
    RL.SpacedSourceIsServed(st, es, x, t);
    NeverBarredIsNeverProtoDropped(st, es, x);
  }
}
