/**
 One source's view of the filter.

 A single-source machine sees only that source's packets that cleared the gate, and only the
 control steps that name the source or the shared protocol filter. It is proved to give the
 source the same verdicts as the whole filter, whatever else goes on.
 */
module Sources {
  import opened Words
  import opened Pipeline
  import TB = TokenBucket

  datatype Local = Local(
    allowed: bool,
    proto: map<nat, nat>,
    meter: Option<U32>,
    blocked: bool,
    bucket: Option<TB.Bucket>,
    alerts: nat)

  datatype LocalAction =
    | Cleared(protocol: nat, writes: Writes)
    | Control(act: Action)

  datatype LocalEvent = LocalAt(now: U64, act: LocalAction)

  /** How many of the alerts name x. */
  function AlertCount(alerts: seq<Alert>, x: Addr): nat {
    if alerts == [] then 0
    else AlertCount(alerts[..|alerts| - 1], x) + if alerts[|alerts| - 1].src == x then 1 else 0
  }

  function View(st: State, x: Addr): Local {
    Local(
      x in st.allow,
      st.proto,
      if x in st.meter then Some(st.meter[x]) else None,
      x in st.black,
      if x in st.rate then Some(st.rate[x]) else None,
      AlertCount(st.alerts, x))
  }

  // ----- The single-source machine -------------------------------------------------------

  function LocalMetered(l: Local, w: Writes): Local {
    l.(meter := if l.meter.Some? then Some(Inc32(l.meter.value)) else if w.meter then Some(1) else None)
  }

  function LocalLimited(l: Local, now: U64, w: Writes): (Local, Outcome) {
    if l.bucket.None? then (l.(bucket := if w.rate then Some(TB.Fresh(now)) else None), FirstPass)
    else
      var charged := l.(bucket := Some(TB.AfterCheck(l.bucket.value, now)));
      if TB.Passes(l.bucket.value, now) then (charged, BucketPass)
      else
        (charged.(blocked := l.blocked || w.blacklist, alerts := l.alerts + if w.ring then 1 else 0), BucketDrop)
  }

  function LocalInspect(l: Local, now: U64, proto: nat, w: Writes): (Local, Outcome) {
    if l.allowed then (l, AllowPass)
    else if proto in l.proto && l.proto[proto] == 1 then (l, ProtoDrop)
    else
      var l' := LocalMetered(l, w);
      if l.blocked then (l', BlackDrop) else LocalLimited(l', now, w)
  }

  function LocalStep(l: Local, e: LocalEvent): Local {
    match e.act
    case Cleared(p, w) => LocalInspect(l, e.now, p, w).0
    case Control(EvictRate(_)) => l.(bucket := None)
    case Control(EvictMeter(_)) => l.(meter := None)
    case Control(Allow(_)) => l.(allowed := true)
    case Control(Disallow(_)) => l.(allowed := false)
    case Control(Block(_)) => l.(blocked := true)
    case Control(Unblock(_)) => l.(blocked := false)
    case Control(SetProto(p, n)) => l.(proto := l.proto[p := n])
    case Control(Packet(_, _)) => l
  }

  function LocalRun(l: Local, es: seq<LocalEvent>): Local
    decreases |es|
  {
    if es == [] then l else LocalRun(LocalStep(l, es[0]), es[1..])
  }

  function LocalOutcomes(l: Local, es: seq<LocalEvent>): seq<Outcome>
    decreases |es|
  {
    if es == [] then []
    else
      (if es[0].act.Cleared? then [LocalInspect(l, es[0].now, es[0].act.protocol, es[0].act.writes).1] else [])
      + LocalOutcomes(LocalStep(l, es[0]), es[1..])
  }

  // ----- Projection ----------------------------------------------------------------------

  /** What x's machine sees of one event: at most one event of its own. */
  function Seen(st: State, e: Event, x: Addr): seq<LocalEvent> {
    match e.act
    case Packet(f, w) =>
      if Clears(st, e.now, f) && Source(f) == Some(x) then [LocalAt(e.now, Cleared(Protocol(f), w))] else []
    case SetProto(_, _) => [LocalAt(e.now, Control(e.act))]
    case _ => if e.act.addr == x then [LocalAt(e.now, Control(e.act))] else []
  }

  function Project(st: State, es: seq<Event>, x: Addr): seq<LocalEvent>
    decreases |es|
  {
    if es == [] then [] else Seen(st, es[0], x) + Project(Step(st, es[0]), es[1..], x)
  }

  /** The outcomes of x's packets that cleared the gate, in the run of the whole filter. */
  function OutcomesOf(st: State, es: seq<Event>, x: Addr): seq<Outcome>
    decreases |es|
  {
    if es == [] then []
    else
      (if es[0].act.Packet? && Clears(st, es[0].now, es[0].act.frame) && Source(es[0].act.frame) == Some(x)
       then [Receive(st, es[0].now, es[0].act.frame, es[0].act.writes).1] else [])
      + OutcomesOf(Step(st, es[0]), es[1..], x)
  }

  // ----- Simulation ----------------------------------------------------------------------

  lemma MeteredLocally(st: State, src: Addr, w: Writes, x: Addr)
    ensures View(Metered(st, src, w), x) == if src == x then LocalMetered(View(st, x), w) else View(st, x)
  {
  }

  lemma AlertCountAppend(alerts: seq<Alert>, alert: Alert, x: Addr)
    ensures AlertCount(alerts + [alert], x) == AlertCount(alerts, x) + if alert.src == x then 1 else 0
  {
    assert (alerts + [alert])[..|alerts|] == alerts;
  }

  lemma LimitedLocally(st: State, now: U64, src: Addr, w: Writes, x: Addr)
    ensures View(Limited(st, now, src, w).0, x) == if src == x then LocalLimited(View(st, x), now, w).0 else View(st, x)
    ensures src == x ==> Limited(st, now, src, w).1 == LocalLimited(View(st, x), now, w).1
  {
    if src in st.rate {
      ChargedLocally(st, now, src, x);
      if !TB.Passes(st.rate[src], now) {
        AutoBlockedLocally(Charged(st, now, src), now, src, w, x);
      }
    }
  }

  lemma AutoBlockedLocally(st: State, now: U64, src: Addr, w: Writes, x: Addr)
    ensures var l := View(st, x);
            View(AutoBlocked(st, now, src, w), x)
              == if src == x then l.(blocked := l.blocked || w.blacklist, alerts := l.alerts + if w.ring then 1 else 0) else l
  {
    AlertCountAppend(st.alerts, Alert(src, 1, now), x);
  }

  lemma ChargedLocally(st: State, now: U64, src: Addr, x: Addr)
    requires src in st.rate
    ensures View(Charged(st, now, src), x)
         == if src == x then View(st, x).(bucket := Some(TB.AfterCheck(st.rate[src], now))) else View(st, x)
  {
  }

  lemma InspectLocally(st: State, now: U64, src: Addr, proto: nat, w: Writes, x: Addr)
    ensures View(Inspect(st, now, src, proto, w).0, x)
         == if src == x then LocalInspect(View(st, x), now, proto, w).0 else View(st, x)
    ensures src == x ==> Inspect(st, now, src, proto, w).1 == LocalInspect(View(st, x), now, proto, w).1
  {
    MeteredLocally(st, src, w, x);
    LimitedLocally(Metered(st, src, w), now, src, w, x);
  }

  lemma PacketLocally(st: State, now: U64, f: Frame, w: Writes, x: Addr)
    ensures var seen := Seen(st, At(now, Packet(f, w)), x);
            View(Receive(st, now, f, w).0, x) == if seen == [] then View(st, x) else LocalStep(View(st, x), seen[0])
  {
    assert View(Gated(st, now), x) == View(st, x);
    if Clears(st, now, f) && Source(f).Some? {
      InspectLocally(Gated(st, now), now, Source(f).value, Protocol(f), w, x);
    }
  }

  lemma ControlLocally(st: State, e: Event, x: Addr)
    requires !e.act.Packet?
    ensures var seen := Seen(st, e, x);
            View(Step(st, e), x) == if seen == [] then View(st, x) else LocalStep(View(st, x), seen[0])
  {
    match e.act
    case EvictRate(_) => EvictionLocally(st, e, x);
    case EvictMeter(_) => EvictionLocally(st, e, x);
    case SetProto(_, _) =>
    case _ => ListedLocally(st, e, x);
  }

  lemma ListedLocally(st: State, e: Event, x: Addr)
    requires e.act.Allow? || e.act.Disallow? || e.act.Block? || e.act.Unblock?
    ensures View(Step(st, e), x) == if e.act.addr == x then LocalStep(View(st, x), LocalAt(e.now, Control(e.act))) else View(st, x)
  {
  }

  lemma EvictionLocally(st: State, e: Event, x: Addr)
    requires e.act.EvictRate? || e.act.EvictMeter?
    ensures View(Step(st, e), x) == if e.act.addr == x then LocalStep(View(st, x), LocalAt(e.now, Control(e.act))) else View(st, x)
  {
    var a := e.act.addr;
    assert x == a || (x in st.rate - {a} <==> x in st.rate);
    assert x == a || (x in st.meter - {a} <==> x in st.meter);
  }

  lemma StepLocally(st: State, e: Event, x: Addr)
    ensures var seen := Seen(st, e, x);
            View(Step(st, e), x) == if seen == [] then View(st, x) else LocalStep(View(st, x), seen[0])
  {
    if e.act.Packet? {
      PacketLocally(st, e.now, e.act.frame, e.act.writes, x);
    } else {
      ControlLocally(st, e, x);
    }
  }

  /** For every interleaving, the filter treats x exactly as x's own machine does. */
  lemma {:induction false} Independence(st: State, es: seq<Event>, x: Addr)
    ensures View(Run(st, es), x) == LocalRun(View(st, x), Project(st, es, x))
    ensures OutcomesOf(st, es, x) == LocalOutcomes(View(st, x), Project(st, es, x))
    decreases |es|
  {
    if es != [] {
      var e, seen, rest := es[0], Seen(st, es[0], x), Project(Step(st, es[0]), es[1..], x);
      StepLocally(st, e, x);
      Independence(Step(st, e), es[1..], x);
      assert Project(st, es, x) == seen + rest;
      if seen == [] {
        assert seen + rest == rest;
      } else {
        assert seen == [seen[0]] && (seen + rest)[1..] == rest;
        if e.act.Packet? {
          assert View(Gated(st, e.now), x) == View(st, x);
          InspectLocally(Gated(st, e.now), e.now, x, Protocol(e.act.frame), e.act.writes, x);
        }
      }
    }
  }

  /** Runs that look alike to x treat x alike, whatever the other sources did in each. */
  lemma SameViewSameVerdicts(st: State, es: seq<Event>, st': State, es': seq<Event>, x: Addr)
    requires View(st, x) == View(st', x) && Project(st, es, x) == Project(st', es', x)
    ensures OutcomesOf(st, es, x) == OutcomesOf(st', es', x)
    ensures View(Run(st, es), x) == View(Run(st', es'), x)
  {
    Independence(st, es, x);
    Independence(st', es', x);
  }

  /** IPv4 frames leave every IPv6 source's entries alone, and IPv6 frames every IPv4 source's. */
  lemma {:induction false} FamiliesDoNotMix(st: State, es: seq<Event>, x: Addr)
    requires forall i :: 0 <= i < |es| ==> es[i].act.Packet? && (if x.V6? then !es[i].act.frame.Ipv6? else !es[i].act.frame.Ipv4?)
    ensures View(Run(st, es), x) == View(st, x)
    decreases |es|
  {
    if es != [] {
      StepLocally(st, es[0], x);
      assert Seen(st, es[0], x) == [];
      FamiliesDoNotMix(Step(st, es[0]), es[1..], x);
    }
  }
}
